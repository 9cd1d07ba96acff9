/** The final tidy-up of the declaration list (ccg.go:310-335): every
    declaration gets a Doc, so the printer separates declarations by a blank
    line, and the import declarations move to the front, each group in its
    original order. */
module Tidy {
  import opened Syntax

  /** A declaration with a nil Doc gets an empty comment group. */
  function WithDoc(d: Decl): (r: Decl)
    ensures r.doc != NoDoc
    ensures d.doc != NoDoc ==> r == d
    ensures r.(doc := d.doc) == d
  {
    if d.doc == NoDoc then d.(doc := Doc([])) else d
  }

  function Documented(ds: seq<Decl>): (r: seq<Decl>)
    ensures |r| == |ds|
  {
    seq(|ds|, i requires 0 <= i < |ds| => WithDoc(ds[i]))
  }

  /** The import declarations of ds, in order. */
  function ImportsOf(ds: seq<Decl>): seq<Decl> {
    if ds == [] then []
    else ImportsOf(ds[..|ds| - 1]) + if ds[|ds| - 1].ImportDecl? then [ds[|ds| - 1]] else []
  }

  /** The other declarations of ds, in order. */
  function OthersOf(ds: seq<Decl>): seq<Decl> {
    if ds == [] then []
    else OthersOf(ds[..|ds| - 1]) + if ds[|ds| - 1].ImportDecl? then [] else [ds[|ds| - 1]]
  }

  /** The tidy loop (ccg.go:313-335): one pass that gives each declaration
      a Doc and sends it to the imports or to the rest; the result is the
      imports followed by the rest. */
  method TidyDecls(ds: seq<Decl>) returns (r: seq<Decl>)
    ensures r == ImportsOf(Documented(ds)) + OthersOf(Documented(ds))
  {
    var importDecls: seq<Decl> := [];
    var rest: seq<Decl> := [];
    for i := 0 to |ds|
      invariant importDecls == ImportsOf(Documented(ds)[..i])
      invariant rest == OthersOf(Documented(ds)[..i])
    {
      assert Documented(ds)[..i + 1][..i] == Documented(ds)[..i];
      var d := ds[i];
      if d.doc == NoDoc {
        d := d.(doc := Doc([]));
      }
      if d.ImportDecl? {
        importDecls := importDecls + [d];
        continue;
      }
      rest := rest + [d];
    }
    assert Documented(ds)[..|ds|] == Documented(ds);
    r := importDecls + rest;
  }

  /** Splitting into imports and the rest loses and adds nothing. */
  lemma {:induction false} PartitionPermutes(ds: seq<Decl>)
    ensures multiset(ImportsOf(ds) + OthersOf(ds)) == multiset(ds)
    decreases |ds|
  {
    if ds != [] {
      var init := ds[..|ds| - 1];
      PartitionPermutes(init);
      assert ds == init + [ds[|ds| - 1]];
    }
  }

  lemma {:induction false} ImportsOfAreImports(ds: seq<Decl>)
    ensures forall d :: d in ImportsOf(ds) ==> d.ImportDecl? && d in ds
    ensures forall d :: d in OthersOf(ds) ==> !d.ImportDecl? && d in ds
    decreases |ds|
  {
    if ds != [] {
      ImportsOfAreImports(ds[..|ds| - 1]);
    }
  }

  /** The tidied list is a permutation of the documented declarations,
      holds the import declarations first, and has a Doc on every
      declaration. */
  lemma Tidied(ds: seq<Decl>)
    ensures var r := ImportsOf(Documented(ds)) + OthersOf(Documented(ds));
      && multiset(r) == multiset(Documented(ds))
      && (forall i, j :: 0 <= i < j < |r| && r[j].ImportDecl? ==> r[i].ImportDecl?)
      && (forall d :: d in r ==> d.doc != NoDoc)
  {
    var docs := Documented(ds);
    PartitionPermutes(docs);
    ImportsOfAreImports(docs);
    var imps, others := ImportsOf(docs), OthersOf(docs);
    var r := imps + others;
    forall i, j | 0 <= i < j < |r| && r[j].ImportDecl?
      ensures r[i].ImportDecl?
    {
      assert r[i] in imps;
    }
    forall d | d in r
      ensures d.doc != NoDoc
    {
      assert d in docs;
    }
  }

  /** Every declaration of ds appears in the tidied list, documented, and
      the list has as many declarations as ds. */
  lemma TidiedKeepsAll(ds: seq<Decl>)
    ensures var r := ImportsOf(Documented(ds)) + OthersOf(Documented(ds));
      |r| == |ds| && forall i :: 0 <= i < |ds| ==> WithDoc(ds[i]) in r
  {
    var docs := Documented(ds);
    var r := ImportsOf(docs) + OthersOf(docs);
    PartitionPermutes(docs);
    assert |r| == |multiset(r)| == |multiset(docs)| == |docs|;
    forall i | 0 <= i < |ds|
      ensures WithDoc(ds[i]) in r
    {
      assert docs[i] in multiset(r);
    }
  }

  /** Documenting changes nothing but nil Docs. */
  lemma DocumentedKeepsContent(ds: seq<Decl>)
    ensures forall i :: 0 <= i < |ds| ==> Documented(ds)[i].(doc := ds[i].doc) == ds[i]
    ensures forall i :: 0 <= i < |ds| && ds[i].doc != NoDoc ==> Documented(ds)[i] == ds[i]
  {
  }
}
