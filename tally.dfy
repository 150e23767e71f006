/** The party tally extractor: votes per party from the result rows of a municipality page. */
module Tally {
  import opened Results
  import opened PyText
  import opened OrderedMaps
  import opened Document

  /** Party name to vote count, in the order the parties first appear. */
  type PartyTally = OrderedMap<string, nat>

  /** The third cell with non-breaking spaces and spaces taken out. */
  function VoteText(row: TableRow): string
    requires |row| >= 3
  {
    Without(Without(row[2].text, NBSP), ' ')
  }

  /** A party-result row: three cells or more, a numeric rank and a numeric vote count. */
  predicate IsPartyRow(row: TableRow) {
    |row| >= 3 && IsDigits(row[0].text) && IsDigits(VoteText(row))
  }

  function PartyOf(row: TableRow): string
    requires |row| >= 3
  {
    row[1].text
  }

  function VotesOf(row: TableRow): nat
    requires IsPartyRow(row)
  {
    DecimalValueNonNegative(VoteText(row));
    DecimalValue(VoteText(row))
  }

  /** The `votes` dictionary after the loop has seen these rows. */
  function TallyOf(rows: seq<TableRow>): (t: PartyTally)
    ensures Valid(t)
  {
    if |rows| == 0 then Empty()
    else
      var earlier := TallyOf(rows[..|rows| - 1]);
      var row := rows[|rows| - 1];
      if IsPartyRow(row) then Put(earlier, PartyOf(row), VotesOf(row)) else earlier
  }

  /** What `total_votes_for_party` returns: the tally, or a failure when it is empty. */
  function PartyVotes(rows: seq<TableRow>): Result<PartyTally> {
    var t := TallyOf(rows);
    if |t.keys| == 0 then Err(NoVotes) else Ok(t)
  }

  /** `total_votes_for_party`: one pass over the rows, recording each party row's votes. */
  method TotalVotesForParty(rows: seq<TableRow>) returns (r: Result<PartyTally>)
    ensures r == PartyVotes(rows)
  {
    var votes: PartyTally := Empty();
    var i := 0;
    while i < |rows|
      invariant 0 <= i <= |rows|
      invariant votes == TallyOf(rows[..i])
    {
      var cells := rows[i];
      TallyStep(rows, i);
      if |cells| >= 3 {
        var order := cells[0].text;
        if IsDigits(order) {
          var party := cells[1].text;
          var rawVotes := Without(Without(cells[2].text, NBSP), ' ');
          if IsDigits(rawVotes) {
            ParseIntOfDigits(rawVotes);
            DecimalValueNonNegative(rawVotes);
            var n := ParseInt(rawVotes).value;
            assert IsPartyRow(cells) && n == VotesOf(cells);
            votes := Put(votes, party, n);
          }
        }
      }
      i := i + 1;
    }
    assert rows[..i] == rows;
    if |votes.keys| == 0 {
      r := Err(NoVotes);
    } else {
      r := Ok(votes);
    }
  }

  lemma TallyStep(rows: seq<TableRow>, i: nat)
    requires i < |rows|
    ensures TallyOf(rows[..i + 1]) ==
      if IsPartyRow(rows[i]) then Put(TallyOf(rows[..i]), PartyOf(rows[i]), VotesOf(rows[i])) else TallyOf(rows[..i])
  {
    assert rows[..i + 1][..i] == rows[..i];
  }

  /**
   * Every party row's party is in the tally, and every party in the tally comes
   * from a party row, the last one of that party, whose vote count it holds.
   */
  lemma {:induction false} TallyEntries(rows: seq<TableRow>)
    ensures forall i :: 0 <= i < |rows| && IsPartyRow(rows[i]) ==> PartyOf(rows[i]) in TallyOf(rows).entries
    ensures forall p :: p in TallyOf(rows).entries ==>
      exists i :: 0 <= i < |rows| && IsPartyRow(rows[i]) && PartyOf(rows[i]) == p
        && TallyOf(rows).entries[p] == VotesOf(rows[i])
        && (forall j :: i < j < |rows| && IsPartyRow(rows[j]) ==> PartyOf(rows[j]) != p)
  {
    if |rows| > 0 {
      var init := rows[..|rows| - 1];
      TallyEntries(init);
      assert forall i :: 0 <= i < |init| ==> init[i] == rows[i];
    }
  }

  /** A party's count is the vote count of its last party row: a later row overwrites an earlier one. */
  lemma {:induction false} LastRowWins(rows: seq<TableRow>, i: nat)
    requires i < |rows| && IsPartyRow(rows[i])
    requires forall j :: i < j < |rows| && IsPartyRow(rows[j]) ==> PartyOf(rows[j]) != PartyOf(rows[i])
    ensures PartyOf(rows[i]) in TallyOf(rows).entries
    ensures TallyOf(rows).entries[PartyOf(rows[i])] == VotesOf(rows[i])
  {
    var init := rows[..|rows| - 1];
    if i < |rows| - 1 {
      assert init[i] == rows[i];
      assert forall j :: i < j < |init| ==> init[j] == rows[j];
      LastRowWins(init, i);
    }
  }

  /** The tally fails exactly when no row is a party row; otherwise it is not empty. */
  lemma FailsExactlyWithoutPartyRows(rows: seq<TableRow>)
    ensures PartyVotes(rows).Err? <==> forall i :: 0 <= i < |rows| ==> !IsPartyRow(rows[i])
    ensures PartyVotes(rows).Err? ==> PartyVotes(rows).error == NoVotes
    ensures PartyVotes(rows).Ok? ==> |PartyVotes(rows).value.keys| > 0
  {
    TallyEntries(rows);
    var t := TallyOf(rows);
    if |t.keys| == 0 {
      assert forall p :: p !in t.entries;
    } else {
      assert t.keys[0] in t.entries;
    }
  }

  /** The names of the party rows, in row order, repeats included. */
  function PartyNames(rows: seq<TableRow>): seq<string> {
    if |rows| == 0 then []
    else
      var row := rows[|rows| - 1];
      PartyNames(rows[..|rows| - 1]) + if IsPartyRow(row) then [PartyOf(row)] else []
  }

  /** The distinct elements of `s` in the order of their first occurrence. */
  function FirstSeen(s: seq<string>): seq<string> {
    if |s| == 0 then []
    else
      var earlier := FirstSeen(s[..|s| - 1]);
      if s[|s| - 1] in earlier then earlier else earlier + [s[|s| - 1]]
  }

  /** The tally lists its parties in the order each first appears among the party rows. */
  lemma {:induction false} TallyKeysInFirstSeenOrder(rows: seq<TableRow>)
    ensures TallyOf(rows).keys == FirstSeen(PartyNames(rows))
  {
    if |rows| > 0 {
      var init := rows[..|rows| - 1];
      var row := rows[|rows| - 1];
      TallyKeysInFirstSeenOrder(init);
      var names := PartyNames(rows);
      if IsPartyRow(row) {
        assert names[..|names| - 1] == PartyNames(init);
      } else {
        assert names == PartyNames(init);
      }
    }
  }
}
