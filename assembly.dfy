/**
 * The row assembler: one output row per municipality, with the party columns
 * fixed by the first municipality, and the whole run from arguments to table.
 */
module Assembly {
  import opened Results
  import opened PyText
  import opened OrderedMaps
  import opened Document
  import opened Arguments
  import opened Listing
  import opened Summaries
  import opened Tally

  /** A value in an output row: the code and the name are text, the counts are numbers. */
  datatype Field = Text(text: string) | Number(n: int)

  /** An output row: column name to value, in the order the columns were set. */
  type OutputRow = OrderedMap<string, Field>

  const FixedColumns: seq<string> := ["cislo", "nazev", "volici_v_seznamu", "vydane_obalky", "platne_hlasy"]

  /** The five columns every row starts with. */
  function FixedRow(code: string, name: string, counts: VoteCounts): (row: OutputRow)
    ensures Valid(row) && row.keys == FixedColumns
  {
    var row := OrderedMap(FixedColumns, map[
      "cislo" := Text(code),
      "nazev" := Text(name),
      "volici_v_seznamu" := Number(counts.registered),
      "vydane_obalky" := Number(counts.envelopes),
      "platne_hlasy" := Number(counts.valid)]);
    assert forall i, j :: 0 <= i < j < 5 ==> FixedColumns[i] != FixedColumns[j] by {
      forall i, j | 0 <= i < j < 5 ensures FixedColumns[i] != FixedColumns[j] {
        assert FixedColumns[i][|FixedColumns[i]| - 1] != FixedColumns[j][|FixedColumns[j]| - 1]
            || |FixedColumns[i]| != |FixedColumns[j]|;
      }
    }
    row
  }

  /** The row after its party columns have been set, one header party after another. */
  function WithParties(row: OutputRow, parties: seq<string>, tally: PartyTally): (r: OutputRow)
    ensures Valid(row) ==> Valid(r)
  {
    if |parties| == 0 then row
    else
      var p := parties[|parties| - 1];
      Put(WithParties(row, parties[..|parties| - 1], tally), p, Number(Get(tally, p, 0)))
  }

  /** The row `parse_municipality` builds for a municipality under the party header `parties`. */
  function MunicipalityRow(code: string, name: string, counts: VoteCounts, tally: PartyTally, parties: seq<string>): OutputRow {
    WithParties(FixedRow(code, name, counts), parties, tally)
  }

  /** The row-filling loop of `parse_municipality`. */
  method BuildRow(code: string, name: string, counts: VoteCounts, tally: PartyTally, parties: seq<string>)
    returns (row: OutputRow)
    ensures row == MunicipalityRow(code, name, counts, tally, parties)
  {
    row := FixedRow(code, name, counts);
    var i := 0;
    while i < |parties|
      invariant 0 <= i <= |parties|
      invariant row == WithParties(FixedRow(code, name, counts), parties[..i], tally)
    {
      var party := parties[i];
      assert parties[..i + 1][..i] == parties[..i];
      row := Put(row, party, Number(Get(tally, party, 0)));
      i := i + 1;
    }
    assert parties[..i] == parties;
  }

  /** The columns of a row are the five fixed ones, first, and the header parties. */
  lemma {:induction false} RowKeys(row: OutputRow, tally: PartyTally, parties: seq<string>)
    requires Valid(row)
    ensures var r := WithParties(row, parties, tally);
      && row.keys <= r.keys
      && (forall c :: c in r.entries <==> c in row.entries || c in parties)
  {
    if |parties| > 0 {
      var init := parties[..|parties| - 1];
      RowKeys(row, tally, init);
      assert forall p :: p in parties <==> p in init || p == parties[|parties| - 1];
    }
  }

  /** Each header party holds its tally count, or 0 when the tally lacks it. */
  lemma {:induction false} RowPartyValues(row: OutputRow, tally: PartyTally, parties: seq<string>)
    ensures forall p :: p in parties ==>
      var r := WithParties(row, parties, tally);
      p in r.entries && r.entries[p] == Number(Get(tally, p, 0))
  {
    if |parties| > 0 {
      var init := parties[..|parties| - 1];
      RowPartyValues(row, tally, init);
      assert forall p :: p in parties <==> p in init || p == parties[|parties| - 1];
    }
  }

  /** A column that is not a header party keeps the value it had before the parties were set. */
  lemma {:induction false} RowOtherValues(row: OutputRow, tally: PartyTally, parties: seq<string>)
    ensures forall c :: c in row.entries && c !in parties ==>
      var r := WithParties(row, parties, tally);
      c in r.entries && r.entries[c] == row.entries[c]
  {
    if |parties| > 0 {
      var init := parties[..|parties| - 1];
      RowOtherValues(row, tally, init);
      assert forall p :: p in parties <==> p in init || p == parties[|parties| - 1];
    }
  }

  /**
   * A municipality's row: the five fixed columns come first; its columns are
   * exactly those and the header parties; each header party holds its tally
   * count or 0; a fixed column not shadowed by a party name holds the code, the
   * name or the summary count; a tally party outside the header is left out.
   */
  lemma RowColumns(code: string, name: string, counts: VoteCounts, tally: PartyTally, parties: seq<string>)
    ensures var row := MunicipalityRow(code, name, counts, tally, parties);
      && Valid(row)
      && FixedColumns <= row.keys
      && (forall c :: c in row.entries <==> c in FixedColumns || c in parties)
      && (forall p :: p in tally.entries && p !in FixedColumns && p !in parties ==> p !in row.entries)
      && (forall p :: p in parties ==> row.entries[p] == Number(Get(tally, p, 0)))
      && (forall c :: c in FixedColumns && c !in parties ==>
            row.entries[c] == FixedRow(code, name, counts).entries[c])
  {
    var fixed := FixedRow(code, name, counts);
    RowKeys(fixed, tally, parties);
    RowPartyValues(fixed, tally, parties);
    RowOtherValues(fixed, tally, parties);
  }

  /** The fixed columns hold the code, the name and the three summary counts. */
  lemma FixedRowValues(code: string, name: string, counts: VoteCounts)
    ensures var e := FixedRow(code, name, counts).entries;
      && "cislo" in e && e["cislo"] == Text(code)
      && "nazev" in e && e["nazev"] == Text(name)
      && "volici_v_seznamu" in e && e["volici_v_seznamu"] == Number(counts.registered)
      && "vydane_obalky" in e && e["vydane_obalky"] == Number(counts.envelopes)
      && "platne_hlasy" in e && e["platne_hlasy"] == Number(counts.valid)
  {
    assert "cislo"[0] != "nazev"[0] && "cislo"[0] != "volici_v_seznamu"[0];
    assert "cislo"[0] != "vydane_obalky"[0] && "cislo"[0] != "platne_hlasy"[0];
    assert "nazev"[0] != "volici_v_seznamu"[0] && "nazev"[0] != "vydane_obalky"[0];
    assert "nazev"[0] != "platne_hlasy"[0] && "volici_v_seznamu"[1] != "vydane_obalky"[1];
    assert "volici_v_seznamu"[0] != "platne_hlasy"[0] && "vydane_obalky"[0] != "platne_hlasy"[0];
  }

  /** The header that leaves `parse_municipality`: the one it was given, or else the tally's parties. */
  function NextHeader(header: Option<seq<string>>, tally: PartyTally): seq<string> {
    match header
    case Some(h) => h
    case None => tally.keys
  }

  /** A fetcher: the page at a URL, or a transport failure. */
  type Fetcher = string -> Result<Page>

  /** What processing a municipality yields before its row is built: its summary and its tally. */
  type Reader = MunicipalityRef -> Result<(VoteCounts, PartyTally)>

  /** The summary and the tally of a municipality's page, or the first failure in getting them. */
  function MunicipalityData(m: MunicipalityRef, fetch: Fetcher): Result<(VoteCounts, PartyTally)> {
    match fetch(m.url)
    case Err(e) => Err(e)
    case Ok(page) =>
      match VoteSummary(page)
      case Err(e) => Err(e)
      case Ok(counts) =>
        match PartyVotes(page.rows)
        case Err(e) => Err(e)
        case Ok(tally) => Ok((counts, tally))
  }

  /** Reading municipalities by fetching and parsing their pages. */
  function PageReader(fetch: Fetcher): Reader {
    m => MunicipalityData(m, fetch)
  }

  /** What `parse_municipality` returns: the row and the header to use from now on. */
  function ParsedMunicipality(m: MunicipalityRef, read: Reader, header: Option<seq<string>>)
    : Result<(OutputRow, seq<string>)>
  {
    match read(m)
    case Err(e) => Err(e)
    case Ok((counts, tally)) =>
      var parties := NextHeader(header, tally);
      Ok((MunicipalityRow(m.code, m.name, counts, tally, parties), parties))
  }

  /** `parse_municipality`. */
  method ParseMunicipality(m: MunicipalityRef, fetch: Fetcher, header: Option<seq<string>>)
    returns (r: Result<(OutputRow, seq<string>)>)
    ensures r == ParsedMunicipality(m, PageReader(fetch), header)
  {
    var soup := fetch(m.url);
    if soup.Err? {
      return Err(soup.error);
    }
    var summary := VoteSummary(soup.value);
    if summary.Err? {
      return Err(summary.error);
    }
    var partyVotes := TotalVotesForParty(soup.value.rows);
    if partyVotes.Err? {
      return Err(partyVotes.error);
    }
    var parties := if header.None? then partyVotes.value.keys else header.value;
    var row := BuildRow(m.code, m.name, summary.value, partyVotes.value, parties);
    r := Ok((row, parties));
  }

  /** The rows and the header after the loop of `main` has processed these municipalities. */
  function AssembledRows(refs: seq<MunicipalityRef>, read: Reader): Result<(seq<OutputRow>, Option<seq<string>>)> {
    if |refs| == 0 then Ok(([], None))
    else
      match AssembledRows(refs[..|refs| - 1], read)
      case Err(e) => Err(e)
      case Ok((rows, header)) =>
        match ParsedMunicipality(refs[|refs| - 1], read, header)
        case Err(e) => Err(e)
        case Ok((row, parties)) => Ok((rows + [row], Some(parties)))
  }

  /** A failure stops the loop: once a prefix fails, every longer prefix fails the same way. */
  lemma {:induction false} FailureIsFinal(refs: seq<MunicipalityRef>, read: Reader, i: nat)
    requires i <= |refs| && AssembledRows(refs[..i], read).Err?
    ensures AssembledRows(refs, read) == AssembledRows(refs[..i], read)
    decreases |refs| - i
  {
    if i < |refs| {
      assert refs[..i + 1][..i] == refs[..i];
      FailureIsFinal(refs, read, i + 1);
    } else {
      assert refs[..i] == refs;
    }
  }

  /** One more municipality: its parsed row is appended, or its failure ends the loop. */
  lemma AssemblyStep(refs: seq<MunicipalityRef>, read: Reader, i: nat, rows: seq<OutputRow>, header: Option<seq<string>>)
    requires i < |refs| && AssembledRows(refs[..i], read) == Ok((rows, header))
    ensures AssembledRows(refs[..i + 1], read) ==
      match ParsedMunicipality(refs[i], read, header)
      case Err(e) => Err(e)
      case Ok((row, parties)) => Ok((rows + [row], Some(parties)))
  {
    assert refs[..i + 1][..i] == refs[..i];
  }

  /** The loop of `main`: each municipality in listing order, the header threaded through. */
  method AssembleRows(refs: seq<MunicipalityRef>, fetch: Fetcher)
    returns (r: Result<(seq<OutputRow>, Option<seq<string>>)>)
    ensures r == AssembledRows(refs, PageReader(fetch))
  {
    var rows: seq<OutputRow> := [];
    var partiesHeader: Option<seq<string>> := None;
    var i := 0;
    while i < |refs|
      invariant 0 <= i <= |refs|
      invariant AssembledRows(refs[..i], PageReader(fetch)) == Ok((rows, partiesHeader))
    {
      AssemblyStep(refs, PageReader(fetch), i, rows, partiesHeader);
      var parsed := ParseMunicipality(refs[i], fetch, partiesHeader);
      if parsed.Err? {
        FailureIsFinal(refs, PageReader(fetch), i + 1);
        return Err(parsed.error);
      }
      var (row, parties) := parsed.value;
      rows := rows + [row];
      partiesHeader := Some(parties);
      i := i + 1;
    }
    assert refs[..i] == refs;
    r := Ok((rows, partiesHeader));
  }

  /** The loop succeeds exactly when every municipality is read without failure. */
  lemma {:induction false} AssemblySucceedsExactly(refs: seq<MunicipalityRef>, read: Reader)
    ensures AssembledRows(refs, read).Ok? <==> forall i :: 0 <= i < |refs| ==> read(refs[i]).Ok?
  {
    if |refs| > 0 {
      var init := refs[..|refs| - 1];
      AssemblySucceedsExactly(init, read);
      assert forall i :: 0 <= i < |init| ==> init[i] == refs[i];
    }
  }

  /**
   * A successful loop gives one row per municipality, in listing order; the
   * header is the first municipality's tally parties, and every row, the first
   * included, is built under it.
   */
  lemma {:induction false} AssemblyRowsAndHeader(refs: seq<MunicipalityRef>, read: Reader)
    requires AssembledRows(refs, read).Ok?
    ensures var (rows, header) := AssembledRows(refs, read).value;
      && |rows| == |refs|
      && (|refs| == 0 <==> header.None?)
      && (|refs| > 0 ==> read(refs[0]).Ok? && header == Some(read(refs[0]).value.1.keys))
      && (forall i :: 0 <= i < |refs| ==>
            read(refs[i]).Ok? &&
            rows[i] == MunicipalityRow(refs[i].code, refs[i].name, read(refs[i]).value.0, read(refs[i]).value.1, header.value))
  {
    if |refs| > 0 {
      var n := |refs| - 1;
      var init := refs[..n];
      var (rows0, h0) := AssembledRows(init, read).value;
      AssemblyRowsAndHeader(init, read);
      assert forall i :: 0 <= i < n ==> init[i] == refs[i];
      var (counts, tally) := read(refs[n]).value;
      var parties := NextHeader(h0, tally);
      var row := MunicipalityRow(refs[n].code, refs[n].name, counts, tally, parties);
      assert AssembledRows(refs, read) == Ok((rows0 + [row], Some(parties)));
      if n == 0 {
        assert refs[0] == refs[n];
      } else {
        assert parties == h0.value;
      }
    }
  }

  /** The result of a run: the output file name, the header row and the data rows. */
  datatype Table = Table(fileName: string, header: seq<string>, rows: seq<OutputRow>)

  /**
   * `main` from arguments to the table it writes: normalise the arguments,
   * fetch the district page, list its municipalities (stopping when there are
   * none), assemble their rows and put the fixed columns before the parties.
   * `join` stands for `urljoin`.
   */
  function Scrape(url: string, output: string, fetch: Fetcher, join: (string, string) -> string): Result<Table> {
    match NormalisedArgs(url, output)
    case Err(e) => Err(e)
    case Ok((u, fileName)) => ScrapeDistrict(u, fileName, fetch, join)
  }

  /** The part of `main` after the arguments are accepted. */
  function ScrapeDistrict(url: string, fileName: string, fetch: Fetcher, join: (string, string) -> string): Result<Table> {
    match fetch(url)
    case Err(e) => Err(e)
    case Ok(district) =>
      TableOf(fileName, Municipalities(district.links, join(url, "."), join), PageReader(fetch))
  }

  /** The table for the listed municipalities `refs`, each read with `read`; no municipality is an error. */
  function TableOf(fileName: string, refs: seq<MunicipalityRef>, read: Reader): Result<Table> {
    if |refs| == 0 then Err(NoMunicipalities)
    else
      match AssembledRows(refs, read)
      case Err(e) => Err(e)
      case Ok((rows, header)) =>
        Ok(Table(fileName, FixedColumns + (if header.Some? then header.value else []), rows))
  }

  /** `main`. */
  method Run(url: string, output: string, fetch: Fetcher, join: (string, string) -> string)
    returns (r: Result<Table>)
    ensures r == Scrape(url, output, fetch, join)
  {
    var args := NormalisedArgs(url, output);
    if args.Err? {
      return Err(args.error);
    }
    var (u, outputFile) := args.value;
    assert Scrape(url, output, fetch, join) == ScrapeDistrict(u, outputFile, fetch, join);
    r := RunDistrict(u, outputFile, fetch, join);
  }

  method RunDistrict(url: string, outputFile: string, fetch: Fetcher, join: (string, string) -> string)
    returns (r: Result<Table>)
    ensures r == ScrapeDistrict(url, outputFile, fetch, join)
  {
    var districtSoup := fetch(url);
    if districtSoup.Err? {
      return Err(districtSoup.error);
    }
    var baseUrl := join(url, ".");
    var municipalities := GetMunicipalities(districtSoup.value.links, baseUrl, join);
    if |municipalities| == 0 {
      return Err(NoMunicipalities);
    }
    assert ScrapeDistrict(url, outputFile, fetch, join) == TableOf(outputFile, municipalities, PageReader(fetch));
    r := MunicipalitiesTable(outputFile, municipalities, fetch);
  }

  /** The rest of `main` once the district lists some municipalities: the loop, then the header. */
  method MunicipalitiesTable(outputFile: string, municipalities: seq<MunicipalityRef>, fetch: Fetcher)
    returns (r: Result<Table>)
    requires |municipalities| > 0
    ensures r == TableOf(outputFile, municipalities, PageReader(fetch))
  {
    var assembled := AssembleRows(municipalities, fetch);
    if assembled.Err? {
      return Err(assembled.error);
    }
    var (rows, partiesHeader) := assembled.value;
    var header := FixedColumns;
    if partiesHeader.Some? && |partiesHeader.value| > 0 {
      header := header + partiesHeader.value;
    }
    assert header == FixedColumns + (if partiesHeader.Some? then partiesHeader.value else []);
    r := Ok(Table(outputFile, header, rows));
  }

  /** The municipalities listed on the district page at `url`. */
  function DistrictRefs(url: string, fetch: Fetcher, join: (string, string) -> string): seq<MunicipalityRef>
    requires fetch(url).Ok?
  {
    Municipalities(fetch(url).value.links, join(url, "."), join)
  }

  /** Every column a row holds is a column of the header. */
  lemma RowFitsHeader(code: string, name: string, counts: VoteCounts, tally: PartyTally, parties: seq<string>)
    ensures forall c :: c in MunicipalityRow(code, name, counts, tally, parties).entries ==> c in FixedColumns + parties
  {
    RowColumns(code, name, counts, tally, parties);
  }

  /**
   * A successful run over a district: one row per listed municipality, in
   * listing order; the header is the five fixed columns followed by the first
   * municipality's parties; each row is that municipality's row under those
   * parties; and no row holds a column outside the header.
   */
  lemma DistrictTable(url: string, fileName: string, fetch: Fetcher, join: (string, string) -> string)
    requires ScrapeDistrict(url, fileName, fetch, join).Ok?
    ensures fetch(url).Ok?
    ensures var refs, t := DistrictRefs(url, fetch, join), ScrapeDistrict(url, fileName, fetch, join).value;
      && t.fileName == fileName
      && |refs| > 0 && |t.rows| == |refs|
      && PageReader(fetch)(refs[0]).Ok?
      && t.header == FixedColumns + PageReader(fetch)(refs[0]).value.1.keys
      && (forall i :: 0 <= i < |refs| ==>
            PageReader(fetch)(refs[i]).Ok? &&
            t.rows[i] == MunicipalityRow(refs[i].code, refs[i].name,
              PageReader(fetch)(refs[i]).value.0, PageReader(fetch)(refs[i]).value.1, t.header[|FixedColumns|..]))
      && (forall i, c :: 0 <= i < |t.rows| && c in t.rows[i].entries ==> c in t.header)
  {
    TableRows(fileName, DistrictRefs(url, fetch, join), PageReader(fetch));
  }

  /** `DistrictTable` for any way of reading the municipalities. */
  lemma TableRows(fileName: string, refs: seq<MunicipalityRef>, read: Reader)
    requires TableOf(fileName, refs, read).Ok?
    ensures var t := TableOf(fileName, refs, read).value;
      && t.fileName == fileName
      && |refs| > 0 && |t.rows| == |refs|
      && read(refs[0]).Ok?
      && t.header == FixedColumns + read(refs[0]).value.1.keys
      && (forall i :: 0 <= i < |refs| ==>
            read(refs[i]).Ok? &&
            t.rows[i] == MunicipalityRow(refs[i].code, refs[i].name,
              read(refs[i]).value.0, read(refs[i]).value.1, t.header[|FixedColumns|..]))
      && (forall i, c :: 0 <= i < |t.rows| && c in t.rows[i].entries ==> c in t.header)
  {
    AssemblyRowsAndHeader(refs, read);
    var (rows, header) := AssembledRows(refs, read).value;
    var t := TableOf(fileName, refs, read).value;
    assert t == Table(fileName, FixedColumns + header.value, rows);
    assert t.header[|FixedColumns|..] == header.value;
    forall i | 0 <= i < |rows|
      ensures forall c :: c in rows[i].entries ==> c in t.header
    {
      RowFitsHeader(refs[i].code, refs[i].name, read(refs[i]).value.0, read(refs[i]).value.1, header.value);
    }
  }

  /** A district page that lists no municipality stops the run. */
  lemma EmptyDistrictStops(url: string, fileName: string, fetch: Fetcher, join: (string, string) -> string)
    requires fetch(url).Ok? && |DistrictRefs(url, fetch, join)| == 0
    ensures ScrapeDistrict(url, fileName, fetch, join) == Err(NoMunicipalities)
  {
  }

  /** One municipality that cannot be fetched or parsed stops the whole run: no partial table. */
  lemma {:induction false} OneFailureStopsTheRun(url: string, fileName: string, fetch: Fetcher, join: (string, string) -> string, i: nat)
    requires fetch(url).Ok? && i < |DistrictRefs(url, fetch, join)|
    requires PageReader(fetch)(DistrictRefs(url, fetch, join)[i]).Err?
    ensures ScrapeDistrict(url, fileName, fetch, join).Err?
  {
    AssemblySucceedsExactly(DistrictRefs(url, fetch, join), PageReader(fetch));
  }

  /** A whole run: accepted arguments, a ".csv" file name, and the district table above. */
  lemma RunTable(url: string, output: string, fetch: Fetcher, join: (string, string) -> string)
    requires Scrape(url, output, fetch, join).Ok?
    ensures NormalisedArgs(url, output).Ok?
    ensures var (u, fileName) := NormalisedArgs(url, output).value;
      && Scrape(url, output, fetch, join) == ScrapeDistrict(u, fileName, fetch, join)
      && EndsWithCsv(Scrape(url, output, fetch, join).value.fileName)
      && Contains(u, "ps32")
  {
    var (u, fileName) := NormalisedArgs(url, output).value;
    DistrictTable(u, fileName, fetch, join);
  }

  /**
   * Header fixation: with the header fixed at [X, Y] by an earlier municipality,
   * a municipality whose tally is {Y: 5, Z: 7} gets X = 0, Y = 5 and no Z column.
   */
  lemma HeaderFixationExample(code: string, name: string, counts: VoteCounts)
    ensures var tally := OrderedMap(["Y", "Z"], map["Y" := 5, "Z" := 7]);
      var row := MunicipalityRow(code, name, counts, tally, ["X", "Y"]);
      && "X" in row.entries && row.entries["X"] == Number(0)
      && "Y" in row.entries && row.entries["Y"] == Number(5)
      && "Z" !in row.entries
  {
    var tally := OrderedMap(["Y", "Z"], map["Y" := 5, "Z" := 7]);
    var parties := ["X", "Y"];
    assert "X"[0] != "Y"[0] && "X"[0] != "Z"[0] && "Y"[0] != "Z"[0];
    assert "X" in parties && "Y" in parties && "Z" !in parties;
    assert "X" !in tally.entries && "Y" in tally.entries && tally.entries["Y"] == 5;
    FixedColumnNames();
    FixationFacts(code, name, counts, tally, parties);
  }

  /** The row facts behind `HeaderFixationExample`, for any tally and header of that shape. */
  lemma FixationFacts(code: string, name: string, counts: VoteCounts, tally: PartyTally, parties: seq<string>)
    requires "X" in parties && "Y" in parties && "Z" !in parties && "Z" !in FixedColumns
    requires "X" !in tally.entries && "Y" in tally.entries && tally.entries["Y"] == 5
    ensures var row := MunicipalityRow(code, name, counts, tally, parties);
      && "X" in row.entries && row.entries["X"] == Number(0)
      && "Y" in row.entries && row.entries["Y"] == Number(5)
      && "Z" !in row.entries
  {
    RowColumns(code, name, counts, tally, parties);
  }

  /** No fixed column is a one-letter name or starts with a capital P. */
  lemma FixedColumnNames()
    ensures forall c :: c in FixedColumns ==> |c| > 1 && c[0] != 'P'
  {
  }

  /**
   * Two municipalities: Alpha with {PartyA: 50, PartyB: 38}, then Beta with
   * {PartyA: 70, PartyC: 79}. The header is [PartyA, PartyB], and Beta's row
   * has PartyA = 70, PartyB = 0 and no PartyC.
   */
  lemma TwoMunicipalitiesExample(alpha: MunicipalityRef, beta: MunicipalityRef, read: Reader)
    requires read(alpha) == Ok((VoteCounts(100, 90, 88), OrderedMap(["PartyA", "PartyB"], map["PartyA" := 50, "PartyB" := 38])))
    requires read(beta) == Ok((VoteCounts(200, 150, 149), OrderedMap(["PartyA", "PartyC"], map["PartyA" := 70, "PartyC" := 79])))
    ensures var result := AssembledRows([alpha, beta], read);
      && result.Ok?
      && result.value.1 == Some(["PartyA", "PartyB"])
      && |result.value.0| == 2
      && "PartyA" in result.value.0[0].entries && result.value.0[0].entries["PartyA"] == Number(50)
      && "PartyB" in result.value.0[0].entries && result.value.0[0].entries["PartyB"] == Number(38)
      && "PartyA" in result.value.0[1].entries && result.value.0[1].entries["PartyA"] == Number(70)
      && "PartyB" in result.value.0[1].entries && result.value.0[1].entries["PartyB"] == Number(0)
      && "PartyC" !in result.value.0[1].entries
  {
    var tallyA, tallyB := read(alpha).value.1, read(beta).value.1;
    var header := ["PartyA", "PartyB"];
    ExampleAssembled(alpha, beta, read);
    ExampleRowValues(alpha.code, alpha.name, VoteCounts(100, 90, 88), tallyA, 50, 38);
    ExampleRowValues(beta.code, beta.name, VoteCounts(200, 150, 149), tallyB, 70, 0);
    ExampleDroppedParty(beta.code, beta.name, VoteCounts(200, 150, 149), tallyB);
  }

  lemma ExampleAssembled(alpha: MunicipalityRef, beta: MunicipalityRef, read: Reader)
    requires read(alpha).Ok? && read(alpha).value.1.keys == ["PartyA", "PartyB"]
    requires read(beta).Ok?
    ensures AssembledRows([alpha, beta], read) == Ok(([
        MunicipalityRow(alpha.code, alpha.name, read(alpha).value.0, read(alpha).value.1, ["PartyA", "PartyB"]),
        MunicipalityRow(beta.code, beta.name, read(beta).value.0, read(beta).value.1, ["PartyA", "PartyB"])],
      Some(["PartyA", "PartyB"])))
  {
    var header := ["PartyA", "PartyB"];
    var refs := [alpha, beta];
    assert refs[..1] == [alpha] && [alpha][..0] == [];
    var rowA := MunicipalityRow(alpha.code, alpha.name, read(alpha).value.0, read(alpha).value.1, header);
    var rowB := MunicipalityRow(beta.code, beta.name, read(beta).value.0, read(beta).value.1, header);
    var none: seq<OutputRow> := [];
    assert AssembledRows([alpha][..0], read) == Ok((none, None));
    assert ParsedMunicipality(alpha, read, None) == Ok((rowA, header));
    assert none + [rowA] == [rowA] && [rowA] + [rowB] == [rowA, rowB];
    assert AssembledRows([alpha], read) == Ok(([rowA], Some(header)));
    assert ParsedMunicipality(beta, read, Some(header)) == Ok((rowB, header));
  }

  lemma ExampleRowValues(code: string, name: string, counts: VoteCounts, tally: PartyTally, a: nat, b: nat)
    requires Get(tally, "PartyA", 0) == a && Get(tally, "PartyB", 0) == b
    ensures var row := MunicipalityRow(code, name, counts, tally, ["PartyA", "PartyB"]);
      && "PartyA" in row.entries && row.entries["PartyA"] == Number(a)
      && "PartyB" in row.entries && row.entries["PartyB"] == Number(b)
  {
    RowColumns(code, name, counts, tally, ["PartyA", "PartyB"]);
  }

  lemma ExampleDroppedParty(code: string, name: string, counts: VoteCounts, tally: PartyTally)
    ensures "PartyC" !in MunicipalityRow(code, name, counts, tally, ["PartyA", "PartyB"]).entries
  {
    var header := ["PartyA", "PartyB"];
    assert "PartyA"[5] != "PartyC"[5] && "PartyB"[5] != "PartyC"[5];
    assert "PartyC" !in header;
    FixedColumnNames();
    assert "PartyC"[0] == 'P';
    AbsentColumn(code, name, counts, tally, header, "PartyC");
  }

  /** A column that is neither fixed nor in the header is not in the row. */
  lemma AbsentColumn(code: string, name: string, counts: VoteCounts, tally: PartyTally, parties: seq<string>, c: string)
    requires c !in FixedColumns && c !in parties
    ensures c !in MunicipalityRow(code, name, counts, tally, parties).entries
  {
    RowColumns(code, name, counts, tally, parties);
  }
}
