/** filterDecls (ccg.go:377-420): prune a declaration list node by node with a
    predicate, dropping a value spec left without names and a GenDecl left
    without specs. Copy calls it twice, with two predicates; both are given
    here as data (Criterion) rather than as closures. */
module Filter {
  import opened Syntax

  /** The valueInfo record handed to the predicate for each var/const name. */
  datatype ValueInfo = ValueInfo(name: IdentId, value: Option<Expr>, typ: Option<Expr>)

  /** What filterDecls shows its predicate: a function declaration, a type
      spec, one var/const name, or an import spec. */
  datatype Node =
    | FuncNode(decl: Decl)
    | TypeNode(spec: TypeSpec)
    | ValueNode(info: ValueInfo)
    | ImportNode(importSpec: ImportSpec)

  /** The two predicates Copy passes: NotPlaceholder removes the template's
      placeholder declarations (ccg.go:50-61), InUses keeps what the uses
      closure reached (ccg.go:297-307). */
  datatype Criterion =
    | NotPlaceholder(params: set<string>, spell: seq<string>)
    | InUses(uses: set<Object>, objectOf: seq<Object>)

  /** Whether a declared name passes: by spelling against the parameter names,
      or by object against the uses set. */
  predicate KeepsName(c: Criterion, id: IdentId) {
    match c
    case NotPlaceholder(params, spell) => SpellingOf(spell, id) !in params
    case InUses(uses, objectOf) => ObjectOf(objectOf, id) in uses
  }

  /** The predicate itself. The placeholder predicate keeps every function;
      both keep every import. */
  predicate Keeps(c: Criterion, node: Node) {
    match node
    case FuncNode(d) => if d.FuncDecl? && c.InUses? then KeepsName(c, d.name) else true
    case TypeNode(t) => KeepsName(c, t.name)
    case ValueNode(info) => KeepsName(c, info.name)
    case ImportNode(_) => true
  }

  /** Names and values kept from the first k names of a value spec. */
  function KeptNames(c: Criterion, s: ValueSpec, k: nat): (r: (seq<IdentId>, seq<Expr>))
    requires k <= |s.names|
    ensures |r.1| <= |r.0| <= k
  {
    if k == 0 then ([], [])
    else
      var (names, values) := KeptNames(c, s, k - 1);
      var i := k - 1;
      if Keeps(c, ValueNode(ValueInfo(s.names[i], ValueAt(s, i), s.typ))) then
        (names + [s.names[i]], AppendValue(values, s, i))
      else
        (names, values)
  }

  function FilteredValueSpec(c: Criterion, s: ValueSpec): ValueSpec {
    var (names, values) := KeptNames(c, s, |s.names|);
    ValueSpec(names, values, s.typ)
  }

  function FilteredValueSpecs(c: Criterion, specs: seq<ValueSpec>): seq<ValueSpec> {
    if specs == [] then []
    else
      var s := FilteredValueSpec(c, specs[|specs| - 1]);
      FilteredValueSpecs(c, specs[..|specs| - 1]) + if |s.names| > 0 then [s] else []
  }

  function FilteredTypeSpecs(c: Criterion, specs: seq<TypeSpec>): seq<TypeSpec> {
    if specs == [] then []
    else
      var s := specs[|specs| - 1];
      FilteredTypeSpecs(c, specs[..|specs| - 1]) + if Keeps(c, TypeNode(s)) then [s] else []
  }

  function FilteredImportSpecs(c: Criterion, specs: seq<ImportSpec>): seq<ImportSpec> {
    if specs == [] then []
    else
      var s := specs[|specs| - 1];
      FilteredImportSpecs(c, specs[..|specs| - 1]) + if Keeps(c, ImportNode(s)) then [s] else []
  }

  /** One declaration after filtering, or None when it is dropped. */
  function FilteredDecl(c: Criterion, d: Decl): Option<Decl> {
    match d
    case FuncDecl(_, _, _, _) => if Keeps(c, FuncNode(d)) then Some(d) else None
    case ValueDecl(tok, specs, doc) =>
      var kept := FilteredValueSpecs(c, specs);
      if |kept| > 0 then Some(ValueDecl(tok, kept, doc)) else None
    case TypeDecl(specs, doc) =>
      var kept := FilteredTypeSpecs(c, specs);
      if |kept| > 0 then Some(TypeDecl(kept, doc)) else None
    case ImportDecl(specs, doc) =>
      var kept := FilteredImportSpecs(c, specs);
      if |kept| > 0 then Some(ImportDecl(kept, doc)) else None
  }

  function FilteredDecls(c: Criterion, ds: seq<Decl>): seq<Decl> {
    if ds == [] then []
    else FilteredDecls(c, ds[..|ds| - 1]) + Present(FilteredDecl(c, ds[|ds| - 1]))
  }

  /** The names of ids that pass, in order. */
  function FilterIds(c: Criterion, ids: seq<IdentId>): seq<IdentId> {
    if ids == [] then []
    else FilterIds(c, ids[..|ids| - 1]) + if KeepsName(c, ids[|ids| - 1]) then [ids[|ids| - 1]] else []
  }

  /** The function declarations that pass, in order. */
  function FilterFuncs(c: Criterion, fs: seq<Decl>): seq<Decl> {
    if fs == [] then []
    else FilterFuncs(c, fs[..|fs| - 1]) + if Keeps(c, FuncNode(fs[|fs| - 1])) then [fs[|fs| - 1]] else []
  }

  // ---------------------------------------------------------------------
  // The loops of filterDecls

  /** The loop over one value spec's names (ccg.go:386-406). */
  method FilterValueSpec(c: Criterion, s: ValueSpec) returns (r: ValueSpec)
    ensures r == FilteredValueSpec(c, s)
  {
    var names: seq<IdentId> := [];
    var values: seq<Expr> := [];
    var i := 0;
    while i < |s.names|
      invariant i <= |s.names|
      invariant (names, values) == KeptNames(c, s, i)
    {
      var name := s.names[i];
      var value: Option<Expr> := None;
      if i < |s.values| {
        value := Some(s.values[i]);
      }
      assert value == ValueAt(s, i);
      assert KeptNames(c, s, i + 1) == if Keeps(c, ValueNode(ValueInfo(name, value, s.typ)))
        then (names + [name], AppendValue(values, s, i)) else (names, values);
      if Keeps(c, ValueNode(ValueInfo(name, value, s.typ))) {
        names := names + [name];
        if value.Some? {
          values := values + [value.value];
        }
      }
      assert (names, values) == KeptNames(c, s, i + 1);
      i := i + 1;
    }
    r := ValueSpec(names, values, s.typ);
  }

  /** AstSpecs.Filter over a var/const declaration's specs (ccg.go:385-408). */
  method FilterValueSpecs(c: Criterion, specs: seq<ValueSpec>) returns (r: seq<ValueSpec>)
    ensures r == FilteredValueSpecs(c, specs)
  {
    r := [];
    var i := 0;
    while i < |specs|
      invariant i <= |specs|
      invariant r == FilteredValueSpecs(c, specs[..i])
    {
      var s := FilterValueSpec(c, specs[i]);
      if |s.names| > 0 {
        r := r + [s];
      }
      assert specs[..i + 1][..i] == specs[..i];
      i := i + 1;
    }
    assert specs[..i] == specs;
  }

  /** AstSpecs.Filter over a type declaration's specs (ccg.go:411-413). */
  method FilterTypeSpecs(c: Criterion, specs: seq<TypeSpec>) returns (r: seq<TypeSpec>)
    ensures r == FilteredTypeSpecs(c, specs)
  {
    r := [];
    var i := 0;
    while i < |specs|
      invariant i <= |specs|
      invariant r == FilteredTypeSpecs(c, specs[..i])
    {
      if Keeps(c, TypeNode(specs[i])) {
        r := r + [specs[i]];
      }
      assert specs[..i + 1][..i] == specs[..i];
      i := i + 1;
    }
    assert specs[..i] == specs;
  }

  /** AstSpecs.Filter over an import declaration's specs (ccg.go:411-413). */
  method FilterImportSpecs(c: Criterion, specs: seq<ImportSpec>) returns (r: seq<ImportSpec>)
    ensures r == FilteredImportSpecs(c, specs)
  {
    r := [];
    var i := 0;
    while i < |specs|
      invariant i <= |specs|
      invariant r == FilteredImportSpecs(c, specs[..i])
    {
      if Keeps(c, ImportNode(specs[i])) {
        r := r + [specs[i]];
      }
      assert specs[..i + 1][..i] == specs[..i];
      i := i + 1;
    }
    assert specs[..i] == specs;
  }

  /** The body of filterDecls' loop for one declaration (ccg.go:379-417):
      the declaration as kept, or None when it is dropped. */
  method FilterDecl(c: Criterion, d: Decl) returns (kept: Option<Decl>)
    ensures kept == FilteredDecl(c, d)
  {
    kept := None;
    match d {
      case FuncDecl(_, _, _, _) =>
        if Keeps(c, FuncNode(d)) {
          kept := Some(d);
        }
      case ValueDecl(tok, specs, doc) =>
        var specs' := FilterValueSpecs(c, specs);
        if |specs'| > 0 {
          kept := Some(ValueDecl(tok, specs', doc));
        }
      case TypeDecl(specs, doc) =>
        var specs' := FilterTypeSpecs(c, specs);
        if |specs'| > 0 {
          kept := Some(TypeDecl(specs', doc));
        }
      case ImportDecl(specs, doc) =>
        var specs' := FilterImportSpecs(c, specs);
        if |specs'| > 0 {
          kept := Some(ImportDecl(specs', doc));
        }
    }
  }

  /** filterDecls (ccg.go:377-420). */
  method FilterDecls(c: Criterion, ds: seq<Decl>) returns (r: seq<Decl>)
    ensures r == FilteredDecls(c, ds)
  {
    r := [];
    var i := 0;
    while i < |ds|
      invariant i <= |ds|
      invariant r == FilteredDecls(c, ds[..i])
    {
      var kept := FilterDecl(c, ds[i]);
      r := r + Present(kept);
      assert ds[..i + 1][..i] == ds[..i];
      i := i + 1;
    }
    assert ds[..i] == ds;
  }

  // ---------------------------------------------------------------------
  // What filtering guarantees

  lemma {:induction false} FilterIdsAppend(c: Criterion, a: seq<IdentId>, b: seq<IdentId>)
    ensures FilterIds(c, a + b) == FilterIds(c, a) + FilterIds(c, b)
    decreases |b|
  {
    if b != [] {
      assert (a + b)[..|a + b| - 1] == a + b[..|b| - 1];
      FilterIdsAppend(c, a, b[..|b| - 1]);
    } else {
      assert a + b == a;
    }
  }

  lemma {:induction false} FilterIdsAccepted(c: Criterion, ids: seq<IdentId>)
    ensures forall id :: id in FilterIds(c, ids) ==> id in ids && KeepsName(c, id)
    decreases |ids|
  {
    if ids != [] {
      FilterIdsAccepted(c, ids[..|ids| - 1]);
    }
  }

  /** The names kept from a value spec are exactly the names that pass, in
      their original order. */
  lemma {:induction false} KeptNamesAreFiltered(c: Criterion, s: ValueSpec, k: nat)
    requires k <= |s.names|
    ensures KeptNames(c, s, k).0 == FilterIds(c, s.names[..k])
    decreases k
  {
    if k > 0 {
      KeptNamesAreFiltered(c, s, k - 1);
      assert s.names[..k][..k - 1] == s.names[..k - 1];
    }
  }

  /** The names of the surviving var/const specs are exactly the names that
      pass, in their original order. */
  lemma {:induction false} FilteredValueSpecsNames(c: Criterion, specs: seq<ValueSpec>)
    ensures Concat(FilteredValueSpecs(c, specs), SpecNames) == FilterIds(c, Concat(specs, SpecNames))
    decreases |specs|
  {
    if specs != [] {
      var init, s := specs[..|specs| - 1], specs[|specs| - 1];
      var fs := FilteredValueSpec(c, s);
      FilteredValueSpecsNames(c, init);
      KeptNamesAreFiltered(c, s, |s.names|);
      assert s.names[..|s.names|] == s.names;
      ConcatAppend(FilteredValueSpecs(c, init), if |fs.names| > 0 then [fs] else [], SpecNames);
      FilterIdsAppend(c, Concat(init, SpecNames), s.names);
      assert Concat([fs], SpecNames) == fs.names by {
        assert [fs][..0] == [];
      }
    }
  }

  lemma {:induction false} FilteredTypeSpecsNames(c: Criterion, specs: seq<TypeSpec>)
    ensures Concat(FilteredTypeSpecs(c, specs), TypeSpecName) == FilterIds(c, Concat(specs, TypeSpecName))
    decreases |specs|
  {
    if specs != [] {
      var init, s := specs[..|specs| - 1], specs[|specs| - 1];
      FilteredTypeSpecsNames(c, init);
      ConcatAppend(FilteredTypeSpecs(c, init), if Keeps(c, TypeNode(s)) then [s] else [], TypeSpecName);
      FilterIdsAppend(c, Concat(init, TypeSpecName), [s.name]);
      assert Concat([s], TypeSpecName) == [s.name] by {
        assert [s][..0] == [];
      }
      assert FilterIds(c, [s.name]) == if KeepsName(c, s.name) then [s.name] else [] by {
        assert [s.name][..0] == [];
      }
    }
  }

  lemma {:induction false} FilteredImportSpecsAll(c: Criterion, specs: seq<ImportSpec>)
    ensures FilteredImportSpecs(c, specs) == specs
    decreases |specs|
  {
    if specs != [] {
      FilteredImportSpecsAll(c, specs[..|specs| - 1]);
    }
  }

  /** Filtering keeps exactly the var/const names that pass, in their
      original order. */
  lemma {:induction false} FilteredValueNames(c: Criterion, ds: seq<Decl>)
    ensures ValueNames(FilteredDecls(c, ds)) == FilterIds(c, ValueNames(ds))
    decreases |ds|
  {
    if ds != [] {
      var init, d := ds[..|ds| - 1], ds[|ds| - 1];
      var kept := Present(FilteredDecl(c, d));
      calc {
        ValueNames(FilteredDecls(c, ds));
        ValueNames(FilteredDecls(c, init) + kept);
        { ConcatAppend(FilteredDecls(c, init), kept, DeclValueNames); }
        ValueNames(FilteredDecls(c, init)) + ValueNames(kept);
        { FilteredValueNames(c, init); FilteredDeclValueNames(c, d); }
        FilterIds(c, ValueNames(init)) + FilterIds(c, DeclValueNames(d));
        { FilterIdsAppend(c, ValueNames(init), DeclValueNames(d)); }
        FilterIds(c, ValueNames(init) + DeclValueNames(d));
      }
    }
  }

  lemma FilteredDeclValueNames(c: Criterion, d: Decl)
    ensures ValueNames(Present(FilteredDecl(c, d))) == FilterIds(c, DeclValueNames(d))
  {
    var kept := Present(FilteredDecl(c, d));
    SingleConcat(kept, DeclValueNames);
    if d.ValueDecl? {
      FilteredValueSpecsNames(c, d.valueSpecs);
    }
  }

  /** Filtering keeps exactly the type specs whose name passes, in their
      original order. */
  lemma {:induction false} FilteredTypeNames(c: Criterion, ds: seq<Decl>)
    ensures TypeNames(FilteredDecls(c, ds)) == FilterIds(c, TypeNames(ds))
    decreases |ds|
  {
    if ds != [] {
      var init, d := ds[..|ds| - 1], ds[|ds| - 1];
      var kept := Present(FilteredDecl(c, d));
      calc {
        TypeNames(FilteredDecls(c, ds));
        TypeNames(FilteredDecls(c, init) + kept);
        { ConcatAppend(FilteredDecls(c, init), kept, DeclTypeNames); }
        TypeNames(FilteredDecls(c, init)) + TypeNames(kept);
        { FilteredTypeNames(c, init); FilteredDeclTypeNames(c, d); }
        FilterIds(c, TypeNames(init)) + FilterIds(c, DeclTypeNames(d));
        { FilterIdsAppend(c, TypeNames(init), DeclTypeNames(d)); }
        FilterIds(c, TypeNames(init) + DeclTypeNames(d));
      }
    }
  }

  lemma FilteredDeclTypeNames(c: Criterion, d: Decl)
    ensures TypeNames(Present(FilteredDecl(c, d))) == FilterIds(c, DeclTypeNames(d))
  {
    var kept := Present(FilteredDecl(c, d));
    SingleConcat(kept, DeclTypeNames);
    if d.TypeDecl? {
      FilteredTypeSpecsNames(c, d.typeSpecs);
    }
  }

  /** Filtering keeps exactly the functions that pass, in their original
      order. */
  lemma {:induction false} FilteredFuncs(c: Criterion, ds: seq<Decl>)
    ensures Funcs(FilteredDecls(c, ds)) == FilterFuncs(c, Funcs(ds))
    decreases |ds|
  {
    if ds != [] {
      var init, d := ds[..|ds| - 1], ds[|ds| - 1];
      var kept := Present(FilteredDecl(c, d));
      calc {
        Funcs(FilteredDecls(c, ds));
        Funcs(FilteredDecls(c, init) + kept);
        { ConcatAppend(FilteredDecls(c, init), kept, DeclFuncs); }
        Funcs(FilteredDecls(c, init)) + Funcs(kept);
        { FilteredFuncs(c, init); FilteredDeclFuncs(c, d); }
        FilterFuncs(c, Funcs(init)) + FilterFuncs(c, DeclFuncs(d));
        { FilterFuncsAppend(c, Funcs(init), DeclFuncs(d)); }
        FilterFuncs(c, Funcs(init) + DeclFuncs(d));
      }
    }
  }

  lemma FilteredDeclFuncs(c: Criterion, d: Decl)
    ensures Funcs(Present(FilteredDecl(c, d))) == FilterFuncs(c, DeclFuncs(d))
  {
    SingleConcat(Present(FilteredDecl(c, d)), DeclFuncs);
    if d.FuncDecl? {
      assert [d][..0] == [];
    }
  }

  lemma {:induction false} FilterFuncsAppend(c: Criterion, a: seq<Decl>, b: seq<Decl>)
    ensures FilterFuncs(c, a + b) == FilterFuncs(c, a) + FilterFuncs(c, b)
    decreases |b|
  {
    if b != [] {
      assert (a + b)[..|a + b| - 1] == a + b[..|b| - 1];
      FilterFuncsAppend(c, a, b[..|b| - 1]);
    } else {
      assert a + b == a;
    }
  }

  /** Filtering keeps every import spec, in order; only an import
      declaration with no specs at all is dropped. */
  lemma {:induction false} FilteredImports(c: Criterion, ds: seq<Decl>)
    ensures Imports(FilteredDecls(c, ds)) == Imports(ds)
    decreases |ds|
  {
    if ds != [] {
      var init, d := ds[..|ds| - 1], ds[|ds| - 1];
      var kept := Present(FilteredDecl(c, d));
      calc {
        Imports(FilteredDecls(c, ds));
        Imports(FilteredDecls(c, init) + kept);
        { ConcatAppend(FilteredDecls(c, init), kept, DeclImports); }
        Imports(FilteredDecls(c, init)) + Imports(kept);
        { FilteredImports(c, init); FilteredDeclImports(c, d); }
        Imports(init) + DeclImports(d);
      }
    }
  }

  lemma FilteredDeclImports(c: Criterion, d: Decl)
    ensures Imports(Present(FilteredDecl(c, d))) == DeclImports(d)
  {
    SingleConcat(Present(FilteredDecl(c, d)), DeclImports);
    if d.ImportDecl? {
      FilteredImportSpecsAll(c, d.importSpecs);
    }
  }

  lemma SingleConcat<T, U>(xs: seq<T>, f: T -> seq<U>)
    requires |xs| <= 1
    ensures Concat(xs, f) == if xs == [] then [] else f(xs[0])
  {
    if xs != [] {
      assert xs[..0] == [];
    }
  }

  /** After filtering, every remaining function, type spec and var/const name
      passes, no value spec is left without names and no GenDecl without
      specs. */
  lemma {:induction false} FilteredDeclsAccepted(c: Criterion, ds: seq<Decl>)
    ensures forall d :: d in FilteredDecls(c, ds) ==> Accepted(c, d)
    decreases |ds|
  {
    if ds != [] {
      var init, d := ds[..|ds| - 1], ds[|ds| - 1];
      FilteredDeclsAccepted(c, init);
      var kept := FilteredDecl(c, d);
      if kept.Some? {
        match d {
          case FuncDecl(_, _, _, _) =>
          case ValueDecl(_, specs, _) => FilteredValueSpecsAccepted(c, specs);
          case TypeDecl(specs, _) => FilteredTypeSpecsAccepted(c, specs);
          case ImportDecl(specs, _) =>
        }
      }
    }
  }

  /** A declaration that filterDecls may return for criterion c. */
  predicate Accepted(c: Criterion, d: Decl) {
    match d
    case FuncDecl(_, _, _, _) => Keeps(c, FuncNode(d))
    case ValueDecl(_, specs, _) =>
      && |specs| > 0
      && forall s :: s in specs ==> |s.names| > 0 && forall n :: n in s.names ==> KeepsName(c, n)
    case TypeDecl(specs, _) => |specs| > 0 && forall s :: s in specs ==> KeepsName(c, s.name)
    case ImportDecl(specs, _) => |specs| > 0
  }

  lemma {:induction false} FilteredValueSpecsAccepted(c: Criterion, specs: seq<ValueSpec>)
    ensures forall s :: s in FilteredValueSpecs(c, specs) ==>
      |s.names| > 0 && forall n :: n in s.names ==> KeepsName(c, n)
    decreases |specs|
  {
    if specs != [] {
      var s := specs[|specs| - 1];
      FilteredValueSpecsAccepted(c, specs[..|specs| - 1]);
      KeptNamesAreFiltered(c, s, |s.names|);
      FilterIdsAccepted(c, s.names[..|s.names|]);
    }
  }

  lemma {:induction false} FilteredTypeSpecsAccepted(c: Criterion, specs: seq<TypeSpec>)
    ensures forall s :: s in FilteredTypeSpecs(c, specs) ==> KeepsName(c, s.name)
    decreases |specs|
  {
    if specs != [] {
      FilteredTypeSpecsAccepted(c, specs[..|specs| - 1]);
    }
  }

  /** Pairs each name with the value at the same position. */
  function Zip(names: seq<IdentId>, values: seq<Expr>): seq<(IdentId, Expr)>
    requires |names| == |values|
  {
    seq(|names|, i requires 0 <= i < |names| => (names[i], values[i]))
  }

  /** The pairs whose name passes, in order. */
  function FilterPairs(c: Criterion, ps: seq<(IdentId, Expr)>): seq<(IdentId, Expr)> {
    if ps == [] then []
    else FilterPairs(c, ps[..|ps| - 1]) + if KeepsName(c, ps[|ps| - 1].0) then [ps[|ps| - 1]] else []
  }

  /** When every name has its own value, each surviving name keeps its own
      value: filtering a value spec filters its (name, value) pairs. */
  lemma {:induction false} FilteredValueSpecPairs(c: Criterion, s: ValueSpec, k: nat)
    requires |s.values| == |s.names|
    requires k <= |s.names|
    ensures var (names, values) := KeptNames(c, s, k);
      |names| == |values| && Zip(names, values) == FilterPairs(c, Zip(s.names, s.values)[..k])
    decreases k
  {
    if k > 0 {
      FilteredValueSpecPairs(c, s, k - 1);
      var zs := Zip(s.names, s.values);
      var p := zs[..k];
      assert p[..k - 1] == zs[..k - 1];
      assert p[k - 1] == (s.names[k - 1], s.values[k - 1]);
      var (names, values) := KeptNames(c, s, k - 1);
      if KeepsName(c, s.names[k - 1]) {
        ZipSnoc(names, values, s.names[k - 1], s.values[k - 1]);
      }
    }
  }

  lemma ZipSnoc(names: seq<IdentId>, values: seq<Expr>, n: IdentId, v: Expr)
    requires |names| == |values|
    ensures Zip(names + [n], values + [v]) == Zip(names, values) + [(n, v)]
  {
  }

  /** Filtering a value spec twice is filtering it once, so a spec that
      occurs twice in one declaration list, as one Go node filtered in place
      twice, ends as two copies filtered once. */
  lemma {:induction false} FilterValueSpecIdempotent(c: Criterion, s: ValueSpec)
    ensures FilteredValueSpec(c, FilteredValueSpec(c, s)) == FilteredValueSpec(c, s)
  {
    var f := FilteredValueSpec(c, s);
    KeptNamesAreFiltered(c, s, |s.names|);
    FilterIdsAccepted(c, s.names[..|s.names|]);
    RefilterKeepsAll(c, f, |f.names|);
  }

  lemma {:induction false} RefilterKeepsAll(c: Criterion, s: ValueSpec, k: nat)
    requires k <= |s.names|
    requires |s.values| <= |s.names|
    requires forall n :: n in s.names ==> KeepsName(c, n)
    ensures KeptNames(c, s, k) == (s.names[..k], s.values[..if k < |s.values| then k else |s.values|])
    decreases k
  {
    if k > 0 {
      RefilterKeepsAll(c, s, k - 1);
      assert s.names[..k] == s.names[..k - 1] + [s.names[k - 1]];
      assert s.names[k - 1] in s.names;
      if k - 1 < |s.values| {
        assert ValueAt(s, k - 1) == Some(s.values[k - 1]);
        assert s.values[..k] == s.values[..k - 1] + [s.values[k - 1]];
      }
    }
  }
}
