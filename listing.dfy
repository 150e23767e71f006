/** The municipality lister: which links of a district page name a municipality. */
module Listing {
  import opened Results
  import opened PyText
  import opened Document

  /** A municipality found on a district page: its numeric code, its name and its absolute URL. */
  datatype MunicipalityRef = MunicipalityRef(code: string, name: string, url: string)

  /** `link.get("href", "")`. */
  function Href(l: Link): string {
    l.href.GetOr("")
  }

  /** A link whose text is a number and whose target is a results-detail page. */
  predicate IsMunicipalityLink(l: Link) {
    IsDigits(l.text) && Contains(Href(l), "ps311")
  }

  /** A municipality link that also has a following cell to take the name from. */
  predicate Listed(l: Link) {
    IsMunicipalityLink(l) && l.nextCell.Some?
  }

  /** The triple a listed link contributes; `join` stands for `urljoin`. */
  function RefOf(l: Link, base: string, join: (string, string) -> string): MunicipalityRef
    requires l.nextCell.Some?
  {
    MunicipalityRef(l.text, l.nextCell.value, join(base, Href(l)))
  }

  /** What `get_municipalities` returns for a district page with these links. */
  function Municipalities(links: seq<Link>, base: string, join: (string, string) -> string): (refs: seq<MunicipalityRef>)
    ensures |refs| <= |links|
    ensures forall m :: m in refs ==> IsDigits(m.code)
  {
    if |links| == 0 then []
    else
      var earlier := Municipalities(links[..|links| - 1], base, join);
      var l := links[|links| - 1];
      if Listed(l) then earlier + [RefOf(l, base, join)] else earlier
  }

  /** `get_municipalities`: one pass over the links, appending each listed one. */
  method GetMunicipalities(links: seq<Link>, base: string, join: (string, string) -> string)
    returns (municipalities: seq<MunicipalityRef>)
    ensures municipalities == Municipalities(links, base, join)
  {
    municipalities := [];
    var i := 0;
    while i < |links|
      invariant 0 <= i <= |links|
      invariant municipalities == Municipalities(links[..i], base, join)
    {
      var link := links[i];
      assert links[..i + 1][..i] == links[..i];
      var code := link.text;
      var href := Href(link);
      if IsDigits(code) && Contains(href, "ps311") {
        var nameCell := link.nextCell;
        if nameCell.Some? {
          var name := nameCell.value;
          var fullUrl := join(base, href);
          municipalities := municipalities + [MunicipalityRef(code, name, fullUrl)];
        }
      }
      i := i + 1;
    }
    assert links[..i] == links;
  }

  /** The positions of the listed links, in document order. */
  function ListedPositions(links: seq<Link>): seq<nat> {
    if |links| == 0 then []
    else
      var earlier := ListedPositions(links[..|links| - 1]);
      if Listed(links[|links| - 1]) then earlier + [|links| - 1] else earlier
  }

  /**
   * The k-th triple comes from the k-th listed link: the triples follow the
   * document order of the links, each comes from a numeric link to a "ps311"
   * page that has a following cell, and every such link contributes one.
   */
  lemma {:induction false} ListingFollowsDocumentOrder(links: seq<Link>, base: string, join: (string, string) -> string)
    ensures var refs, pos := Municipalities(links, base, join), ListedPositions(links);
      && |refs| == |pos|
      && (forall k :: 0 <= k < |pos| ==>
            pos[k] < |links| && Listed(links[pos[k]]) && refs[k] == RefOf(links[pos[k]], base, join))
      && (forall k, k' :: 0 <= k < k' < |pos| ==> pos[k] < pos[k'])
      && (forall i :: 0 <= i < |links| && Listed(links[i]) ==> i in pos)
  {
    if |links| > 0 {
      var n := |links| - 1;
      var init := links[..n];
      ListingFollowsDocumentOrder(init, base, join);
      var refs0, pos0 := Municipalities(init, base, join), ListedPositions(init);
      assert forall i :: 0 <= i < n ==> init[i] == links[i];
      assert forall k :: 0 <= k < |pos0| ==> pos0[k] < n;
      if Listed(links[n]) {
        assert ListedPositions(links) == pos0 + [n];
        assert Municipalities(links, base, join) == refs0 + [RefOf(links[n], base, join)];
      } else {
        assert ListedPositions(links) == pos0;
        assert Municipalities(links, base, join) == refs0;
      }
    }
  }

  /** Listing a concatenation of link sequences is concatenating their listings. */
  lemma {:induction false} MunicipalitiesConcat(a: seq<Link>, b: seq<Link>, base: string, join: (string, string) -> string)
    ensures Municipalities(a + b, base, join) == Municipalities(a, base, join) + Municipalities(b, base, join)
  {
    if |b| == 0 {
      assert a + b == a;
    } else {
      var b' := b[..|b| - 1];
      assert (a + b)[..|a + b| - 1] == a + b';
      MunicipalitiesConcat(a, b', base, join);
    }
  }

  /** A link that is not listed, for whatever reason, contributes nothing. */
  lemma SkippedLinkContributesNothing(a: seq<Link>, l: Link, b: seq<Link>, base: string, join: (string, string) -> string)
    requires !Listed(l)
    ensures Municipalities(a + [l] + b, base, join) == Municipalities(a + b, base, join)
  {
    MunicipalitiesConcat(a + [l], b, base, join);
    MunicipalitiesConcat(a, [l], base, join);
    MunicipalitiesConcat(a, b, base, join);
    assert [l][..0] == [];
  }
}
