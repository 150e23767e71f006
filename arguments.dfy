/** The checks and the file-name normalisation `parse_args` applies to its two arguments. */
module Arguments {
  import opened Results
  import opened PyText

  /** `name.lower().endswith(".csv")`. */
  predicate EndsWithCsv(name: string) {
    EndsWith(Lower(name), ".csv")
  }

  /**
   * The district URL and the output file name, both stripped; the URL must
   * reference a district page and the name must not be blank, and ".csv" is
   * appended to a name that does not already end in it in any letter case.
   */
  function NormalisedArgs(url: string, output: string): (r: Result<(string, string)>)
    ensures r.Ok? ==> Contains(r.value.0, "ps32") && |r.value.1| > 0 && EndsWithCsv(r.value.1)
    ensures Contains(Strip(url), "ps32") && Strip(output) != [] ==> r.Ok? && r.value.0 == Strip(url)
    ensures r == Err(InvalidUrl) <==> !Contains(Strip(url), "ps32")
    ensures r == Err(EmptyOutputName) <==> Contains(Strip(url), "ps32") && Strip(output) == []
  {
    var u := Strip(url);
    var o := Strip(output);
    if !Contains(u, "ps32") then Err(InvalidUrl)
    else if |o| == 0 then Err(EmptyOutputName)
    else
      CsvAppended(o);
      Ok((u, if EndsWithCsv(o) then o else o + ".csv"))
  }

  /** Appending ".csv" makes a name end in ".csv". */
  lemma CsvAppended(name: string)
    ensures EndsWithCsv(name + ".csv")
  {
    var l := Lower(name + ".csv");
    assert l[|l| - 4..] == ".csv" by {
      forall i | 0 <= i < 4
        ensures l[|l| - 4 + i] == ".csv"[i]
      {
        assert (name + ".csv")[|name| + i] == ".csv"[i];
      }
    }
  }

  /** A stripped name already ending in ".csv" or ".CSV" is kept as it is; any other gets ".csv" appended. */
  lemma FileNameSuffix(url: string, output: string)
    requires NormalisedArgs(url, output).Ok?
    ensures EndsWithCsv(Strip(output)) ==> NormalisedArgs(url, output).value.1 == Strip(output)
    ensures !EndsWithCsv(Strip(output)) ==> NormalisedArgs(url, output).value.1 == Strip(output) + ".csv"
  {
  }

  /** Normalising accepted arguments again changes nothing. */
  lemma NormalisationIdempotent(url: string, output: string)
    requires NormalisedArgs(url, output).Ok?
    ensures NormalisedArgs(NormalisedArgs(url, output).value.0, NormalisedArgs(url, output).value.1)
         == NormalisedArgs(url, output)
  {
    var o := Strip(output);
    var (u', o') := NormalisedArgs(url, output).value;
    StripIdempotent(url);
    StripIdempotent(output);
    if o' != o {
      assert o' == o + ".csv";
      assert o'[0] == o[0];
      assert o'[|o'| - 1] == 'v';
      StripOfTrimmed(o', IsSpace);
    }
  }
}
