/** The summary extractor: voters on the roll, envelopes issued and valid votes of one municipality. */
module Summaries {
  import opened Results
  import opened PyText
  import opened Document

  /** The three counts `vote_summary` returns, in its order. */
  datatype VoteCounts = VoteCounts(registered: int, envelopes: int, valid: int)

  /** `soup.find("td", headers=id)`: the position of the first cell carrying `id` among its `headers`. */
  function FindCell(cells: seq<Cell>, id: string): (r: Option<nat>)
    ensures r.Some? ==> r.value < |cells| && id in cells[r.value].headers
    ensures r.Some? ==> forall j :: 0 <= j < r.value ==> id !in cells[j].headers
    ensures r.None? ==> forall j :: 0 <= j < |cells| ==> id !in cells[j].headers
  {
    if |cells| == 0 then None
    else if id in cells[0].headers then Some(0)
    else
      match FindCell(cells[1..], id)
      case None => None
      case Some(i) => Some(i + 1)
  }

  /** Cell `i` is the first of `cells` that carries `id`. */
  predicate FirstCarrying(cells: seq<Cell>, id: string, i: int) {
    0 <= i < |cells| && id in cells[i].headers && forall j :: 0 <= j < i ==> id !in cells[j].headers
  }

  /** A cell's text with the non-breaking spaces and the thousands commas taken out. */
  function CleanNumber(text: string): string {
    Without(Without(text, NBSP), ',')
  }

  /**
   * The inner `value`: the cleaned integer of the first cell carrying `id`. It
   * fails with ValueMissing exactly when no cell carries `id`, and with
   * NotAnInteger when the first such cell's cleaned text is not a number.
   */
  function Value(page: Page, id: string): (r: Result<int>)
    ensures r == Err(ValueMissing(id)) <==>
      forall j :: 0 <= j < |AllCells(page.rows)| ==> id !in AllCells(page.rows)[j].headers
    ensures r.Err? ==> r.error == ValueMissing(id) || r.error.NotAnInteger?
  {
    var cells := AllCells(page.rows);
    match FindCell(cells, id)
    case None => Err(ValueMissing(id))
    case Some(i) =>
      var text := CleanNumber(cells[i].text);
      match ParseInt(text)
      case None => Err(NotAnInteger(text))
      case Some(n) => Ok(n)
  }

  /**
   * `value` reads the first cell carrying `id`: the integer of its cleaned text,
   * or NotAnInteger of that text.
   */
  lemma ValueReadsFirstCarryingCell(page: Page, id: string, i: int)
    requires FirstCarrying(AllCells(page.rows), id, i)
    ensures var text := CleanNumber(AllCells(page.rows)[i].text);
      Value(page, id) == if ParseInt(text).Some? then Ok(ParseInt(text).value) else Err(NotAnInteger(text))
  {
    var cells := AllCells(page.rows);
    assert FindCell(cells, id) == Some(i);
  }

  /** `vote_summary`: the cells "sa2", "sa3" and "sa6", read in that order; the first failure ends the call. */
  function VoteSummary(page: Page): (r: Result<VoteCounts>)
    ensures Value(page, "sa2").Err? ==> r == Err(Value(page, "sa2").error)
    ensures Value(page, "sa2").Ok? && Value(page, "sa3").Err? ==> r == Err(Value(page, "sa3").error)
    ensures Value(page, "sa2").Ok? && Value(page, "sa3").Ok? && Value(page, "sa6").Err? ==> r == Err(Value(page, "sa6").error)
  {
    match Value(page, "sa2")
    case Err(e) => Err(e)
    case Ok(registered) =>
      match Value(page, "sa3")
      case Err(e) => Err(e)
      case Ok(envelopes) =>
        match Value(page, "sa6")
        case Err(e) => Err(e)
        case Ok(valid) => Ok(VoteCounts(registered, envelopes, valid))
  }

  /** All three values or none: the summary succeeds exactly when each cell is found and parses, and then holds them in order. */
  lemma SummaryAllOrNothing(page: Page)
    ensures VoteSummary(page).Ok? <==>
      Value(page, "sa2").Ok? && Value(page, "sa3").Ok? && Value(page, "sa6").Ok?
    ensures VoteSummary(page).Ok? ==>
      VoteSummary(page).value ==
        VoteCounts(Value(page, "sa2").value, Value(page, "sa3").value, Value(page, "sa6").value)
  {
  }

  /** A page without one of the three cells makes the whole summary fail. */
  lemma SummaryFailsWhenCellMissing(page: Page, id: string)
    requires id == "sa2" || id == "sa3" || id == "sa6"
    requires forall j :: 0 <= j < |AllCells(page.rows)| ==> id !in AllCells(page.rows)[j].headers
    ensures VoteSummary(page).Err?
    ensures Value(page, id) == Err(ValueMissing(id))
  {
  }

  /** Three digits with leading zeros, as the groups after a thousands separator are written. */
  function Pad3(k: nat): (r: string)
    requires k < 1000
    ensures AllAsciiDigits(r) && |r| == 3 && DecimalValue(r) == k
  {
    var r := [DigitChar(k / 100), DigitChar(k / 10 % 10), DigitChar(k % 10)];
    assert r[..2][..1] == [r[0]] && r[..2] == [r[0], r[1]];
    assert [r[0]][..0] == [];
    assert DecimalValue([r[0]]) == DigitValue(r[0]);
    assert DecimalValue(r[..2]) == 10 * DigitValue(r[0]) + DigitValue(r[1]);
    assert DecimalValue(r) == 10 * DecimalValue(r[..2]) + DigitValue(r[2]);
    assert DecimalValue(r) == 10 * (10 * (k / 100) + k / 10 % 10) + k % 10;
    ThreeDigits(k);
    r
  }

  lemma ThreeDigits(k: nat)
    requires k < 1000
    ensures 10 * (10 * (k / 100) + k / 10 % 10) + k % 10 == k
  {
    assert k / 100 == (k / 10) / 10;
  }

  /** `n` written with `sep` between groups of three digits, as in "1,234" or "1 234". */
  function Grouped(n: nat, sep: char): string {
    if n < 1000 then DecimalString(n) else Grouped(n / 1000, sep) + [sep] + Pad3(n % 1000)
  }

  lemma NoSeparatorInDigits(s: string, c: char)
    requires AllAsciiDigits(s) && !IsAsciiDigit(c)
    ensures Without(s, c) == s
  {
    WithoutAbsent(s, c);
  }

  lemma CleanConcat(a: string, b: string)
    ensures CleanNumber(a + b) == CleanNumber(a) + CleanNumber(b)
  {
    WithoutConcat(a, b, NBSP);
    WithoutConcat(Without(a, NBSP), Without(b, NBSP), ',');
  }

  /** Cleaning a grouped number leaves exactly its digits. */
  lemma {:induction false} CleanGrouped(n: nat, sep: char)
    requires sep == NBSP || sep == ','
    ensures IsDigits(CleanNumber(Grouped(n, sep)))
    ensures DecimalValue(CleanNumber(Grouped(n, sep))) == n
  {
    var g := Grouped(n, sep);
    if n < 1000 {
      DecimalRoundTrip(n);
      NoSeparatorInDigits(g, NBSP);
      NoSeparatorInDigits(g, ',');
    } else {
      CleanGrouped(n / 1000, sep);
      CleanGroupedStep(Grouped(n / 1000, sep), n, sep);
    }
  }

  lemma CleanGroupedStep(hi: string, n: nat, sep: char)
    requires sep == NBSP || sep == ','
    requires n >= 1000
    requires IsDigits(CleanNumber(hi)) && DecimalValue(CleanNumber(hi)) == n / 1000
    ensures IsDigits(CleanNumber(hi + [sep] + Pad3(n % 1000)))
    ensures DecimalValue(CleanNumber(hi + [sep] + Pad3(n % 1000))) == n
  {
    var lo := Pad3(n % 1000);
    CleanConcat(hi + [sep], lo);
    CleanConcat(hi, [sep]);
    CleanSeparator(sep);
    NoSeparatorInDigits(lo, NBSP);
    NoSeparatorInDigits(lo, ',');
    var head := CleanNumber(hi);
    assert CleanNumber(hi + [sep] + lo) == head + lo;
    DecimalValueConcat(head, lo);
    AllAsciiDigitsConcat(head, lo);
    assert Pow10(|lo|) == 1000;
    assert DecimalValue(head + lo) == (n / 1000) * 1000 + n % 1000;
  }

  lemma CleanSeparator(sep: char)
    requires sep == NBSP || sep == ','
    ensures CleanNumber([sep]) == []
  {
    assert [sep][1..] == [];
    if sep == NBSP {
      assert Without([sep], NBSP) == [];
    } else {
      assert Without([sep], NBSP) == [sep];
      assert Without([sep], ',') == [];
    }
  }

  /** A cell written with thousands separators reads back as the number it shows: "1,234" gives 1234. */
  lemma ValueOfGroupedCell(page: Page, id: string, n: nat, sep: char)
    requires sep == NBSP || sep == ','
    requires FindCell(AllCells(page.rows), id).Some?
    requires AllCells(page.rows)[FindCell(AllCells(page.rows), id).value].text == Grouped(n, sep)
    ensures Value(page, id) == Ok(n)
  {
    CleanGrouped(n, sep);
    ParseIntOfDigits(CleanNumber(Grouped(n, sep)));
  }

  /** A cell holding plain digits reads as the number they denote. */
  lemma ValueOfDigitCell(page: Page, id: string, i: nat)
    requires FindCell(AllCells(page.rows), id) == Some(i)
    requires IsDigits(AllCells(page.rows)[i].text)
    ensures Value(page, id) == Ok(DecimalValue(AllCells(page.rows)[i].text))
  {
    var text := AllCells(page.rows)[i].text;
    NoSeparatorInDigits(text, NBSP);
    NoSeparatorInDigits(text, ',');
    ParseIntOfDigits(text);
  }

  /** The worked example: "1,234", "500" and "480" in the cells sa2, sa3 and sa6 give (1234, 500, 480). */
  lemma SummaryExample()
    ensures VoteSummary(Page([], [[Cell(["sa2"], "1,234"), Cell(["sa3"], "500"), Cell(["sa6"], "480")]]))
         == Ok(VoteCounts(1234, 500, 480))
  {
    ExampleValues(Page([], [[Cell(["sa2"], "1,234"), Cell(["sa3"], "500"), Cell(["sa6"], "480")]]));
  }

  lemma ExampleValues(page: Page)
    requires page == Page([], [[Cell(["sa2"], "1,234"), Cell(["sa3"], "500"), Cell(["sa6"], "480")]])
    ensures VoteSummary(page) == Ok(VoteCounts(1234, 500, 480))
  {
    ExampleCellsFound(page);
    ExampleValue(page, "sa2", 0, 1234);
    ExampleValue(page, "sa3", 1, 500);
    ExampleValue(page, "sa6", 2, 480);
    SummaryOfValues(page, 1234, 500, 480);
  }

  lemma ExampleValue(page: Page, id: string, i: nat, n: nat)
    requires i < |AllCells(page.rows)| && FindCell(AllCells(page.rows), id) == Some(i)
    requires (AllCells(page.rows)[i].text, n) in {("1,234", 1234), ("500", 500), ("480", 480)}
    ensures Value(page, id) == Ok(n)
  {
    var text := AllCells(page.rows)[i].text;
    if n == 1234 {
      GroupedExample();
      ValueOfGroupedCell(page, id, 1234, ',');
    } else {
      DigitsExample(text, n);
      ValueOfDigitCell(page, id, i);
    }
  }

  lemma SummaryOfValues(page: Page, registered: int, envelopes: int, valid: int)
    requires Value(page, "sa2") == Ok(registered)
    requires Value(page, "sa3") == Ok(envelopes)
    requires Value(page, "sa6") == Ok(valid)
    ensures VoteSummary(page) == Ok(VoteCounts(registered, envelopes, valid))
  {
  }

  lemma GroupedExample()
    ensures Grouped(1234, ',') == "1,234"
  {
    assert DecimalString(1) == "1";
    assert Pad3(234) == "234";
  }

  lemma ExampleCellsFound(page: Page)
    requires page == Page([], [[Cell(["sa2"], "1,234"), Cell(["sa3"], "500"), Cell(["sa6"], "480")]])
    ensures var cells := AllCells(page.rows);
      && cells == [Cell(["sa2"], "1,234"), Cell(["sa3"], "500"), Cell(["sa6"], "480")]
      && FindCell(cells, "sa2") == Some(0)
      && FindCell(cells, "sa3") == Some(1)
      && FindCell(cells, "sa6") == Some(2)
  {
    var c2, c3, c6 := Cell(["sa2"], "1,234"), Cell(["sa3"], "500"), Cell(["sa6"], "480");
    var cells := AllCells(page.rows);
    assert cells == [c2, c3, c6] by {
      assert page.rows[1..] == [];
      assert AllCells(page.rows) == page.rows[0] + AllCells(page.rows[1..]);
      assert AllCells([]) == [];
    }
    assert "sa3" != "sa2" by { assert "sa3"[2] != "sa2"[2]; }
    assert "sa6" != "sa2" by { assert "sa6"[2] != "sa2"[2]; }
    assert "sa6" != "sa3" by { assert "sa6"[2] != "sa3"[2]; }
    assert FindCell(cells, "sa2") == Some(0);
    assert cells[1..] == [c3, c6] && [c3, c6][1..] == [c6];
    assert FindCell([c3, c6], "sa3") == Some(0);
    assert FindCell([c6], "sa6") == Some(0);
    assert FindCell([c3, c6], "sa6") == Some(1);
  }

  lemma DigitsExample(s: string, n: nat)
    requires |s| == 3 && AllAsciiDigits(s)
    requires n == 100 * DigitValue(s[0]) + 10 * DigitValue(s[1]) + DigitValue(s[2])
    ensures IsDigits(s) && DecimalValue(s) == n
  {
    assert s[..2][..1] == [s[0]] && s[..2] == [s[0], s[1]];
    assert [s[0]][..0] == [];
    assert DecimalValue([s[0]]) == DigitValue(s[0]);
    assert DecimalValue(s[..2]) == 10 * DigitValue(s[0]) + DigitValue(s[1]);
  }
}
