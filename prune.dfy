/** Keeping only what the uses reach (ccg.go:228-308): the objects each new
    function refers to, the objects the use specs name, the closure of
    those under "refers to", and the filter of the new declarations by it. */
module Prune {
  import opened Syntax
  import opened Filter

  // ---------------------------------------------------------------------
  // Function dependencies (ccg.go:229-247)

  /** The objects of the identifiers ast.Walk visits in a function
      declaration (nil included, as ObjectSet.Add does not skip it). */
  function Refs(d: Decl, objectOf: seq<Object>): set<Object>
    requires d.FuncDecl?
  {
    set id | id in d.idents :: ObjectOf(objectOf, id)
  }

  /** deps after visiting ds: each function's object maps to its
      references, a later function with the same object replacing an
      earlier one. */
  function DepsOf(ds: seq<Decl>, objectOf: seq<Object>): map<Object, set<Object>> {
    if ds == [] then map[]
    else
      var d := ds[|ds| - 1];
      var deps := DepsOf(ds[..|ds| - 1], objectOf);
      if d.FuncDecl? then deps[ObjectOf(objectOf, d.name) := Refs(d, objectOf)] else deps
  }

  /** The dependency loop (ccg.go:229-247). */
  method CollectDeps(ds: seq<Decl>, objectOf: seq<Object>) returns (deps: map<Object, set<Object>>)
    ensures deps == DepsOf(ds, objectOf)
  {
    deps := map[];
    for i := 0 to |ds|
      invariant deps == DepsOf(ds[..i], objectOf)
    {
      assert ds[..i + 1][..i] == ds[..i];
      var d := ds[i];
      if d.FuncDecl? {
        var refs: set<Object> := {};
        for k := 0 to |d.idents|
          invariant refs == set id | id in d.idents[..k] :: ObjectOf(objectOf, id)
        {
          assert d.idents[..k + 1] == d.idents[..k] + [d.idents[k]];
          refs := refs + {ObjectOf(objectOf, d.idents[k])};
        }
        assert d.idents[..|d.idents|] == d.idents;
        deps := deps[ObjectOf(objectOf, d.name) := refs];
      }
    }
    assert ds[..|ds|] == ds;
  }

  /** deps has an entry for exactly the objects of the functions, and each
      entry is the references of a function with that object. */
  lemma {:induction false} DepsOfEntries(ds: seq<Decl>, objectOf: seq<Object>)
    ensures forall d :: d in ds && d.FuncDecl? ==> ObjectOf(objectOf, d.name) in DepsOf(ds, objectOf)
    ensures forall o :: o in DepsOf(ds, objectOf) ==>
      exists d :: d in ds && d.FuncDecl? && ObjectOf(objectOf, d.name) == o && DepsOf(ds, objectOf)[o] == Refs(d, objectOf)
    decreases |ds|
  {
    if ds != [] {
      var init := ds[..|ds| - 1];
      DepsOfEntries(init, objectOf);
      assert ds == init + [ds[|ds| - 1]];
    }
  }

  // ---------------------------------------------------------------------
  // Use specs (ccg.go:250-278)

  /** strings.Split(s, "."): the pieces between dots, at least one. */
  function Split(s: string): (r: seq<string>)
    ensures |r| >= 1
    decreases |s|
  {
    if s == [] then [""]
    else
      var p := Split(s[..|s| - 1]);
      var c := s[|s| - 1];
      if c == '.' then p + [""] else p[..|p| - 1] + [p[|p| - 1] + [c]]
  }

  /** strings.Join(parts, "."). */
  function Join(parts: seq<string>): string
    requires |parts| >= 1
  {
    if |parts| == 1 then parts[0] else Join(parts[..|parts| - 1]) + "." + parts[|parts| - 1]
  }

  /** The number of dots in s. */
  function Dots(s: string): nat {
    if s == [] then 0 else Dots(s[..|s| - 1]) + if s[|s| - 1] == '.' then 1 else 0
  }

  /** Splitting gives one piece more than there are dots, no piece holds a
      dot, and joining the pieces gives s back. */
  lemma SplitJoin(s: string)
    ensures |Split(s)| == Dots(s) + 1
    ensures forall i :: 0 <= i < |Split(s)| ==> '.' !in Split(s)[i]
    ensures Join(Split(s)) == s
  {
    SplitCount(s);
    SplitPieces(s);
    SplitRejoins(s);
  }

  lemma {:induction false} SplitCount(s: string)
    ensures |Split(s)| == Dots(s) + 1
    decreases |s|
  {
    if s != [] {
      SplitCount(s[..|s| - 1]);
    }
  }

  lemma {:induction false} SplitPieces(s: string)
    ensures forall i :: 0 <= i < |Split(s)| ==> '.' !in Split(s)[i]
    decreases |s|
  {
    if s != [] {
      var init, c := s[..|s| - 1], s[|s| - 1];
      var p := Split(init);
      SplitPieces(init);
      if c != '.' {
        var last := p[|p| - 1] + [c];
        assert '.' !in last;
        assert Split(s) == p[..|p| - 1] + [last];
      }
    }
  }

  lemma {:induction false} SplitRejoins(s: string)
    ensures Join(Split(s)) == s
    decreases |s|
  {
    if s != [] {
      var init, c := s[..|s| - 1], s[|s| - 1];
      SplitRejoins(init);
      assert s == init + [c];
      SplitSnoc(init, c);
      if c == '.' {
        JoinDot(Split(init));
      } else {
        JoinChar(Split(init), c);
      }
    }
  }

  /** Adding an empty last piece adds a dot. */
  lemma JoinDot(p: seq<string>)
    requires |p| >= 1
    ensures Join(p + [""]) == Join(p) + "."
  {
    assert (p + [""])[..|p|] == p;
  }

  /** Extending the last piece by a character extends the joined string. */
  lemma JoinChar(p: seq<string>, c: char)
    requires |p| >= 1
    ensures Join(p[..|p| - 1] + [p[|p| - 1] + [c]]) == Join(p) + [c]
  {
    var q := p[..|p| - 1] + [p[|p| - 1] + [c]];
    if |p| > 1 {
      assert q[..|q| - 1] == p[..|p| - 1];
    }
  }

  lemma SplitSnoc(s: string, c: char)
    ensures var p := Split(s);
      Split(s + [c]) == if c == '.' then p + [""] else p[..|p| - 1] + [p[|p| - 1] + [c]]
  {
    assert (s + [c])[..|s|] == s;
  }

  /** A word without dots splits into itself. */
  lemma {:induction false} SplitWord(w: string)
    requires '.' !in w
    ensures Split(w) == [w]
    decreases |w|
  {
    if w != [] {
      var init := w[..|w| - 1];
      assert '.' !in init by { assert forall ch :: ch in init ==> ch in w; }
      SplitWord(init);
      SplitSnoc(init, w[|w| - 1]);
      assert w == init + [w[|w| - 1]];
    }
  }

  /** Appending a dot and a word without dots adds that word as a piece. */
  lemma {:induction false} SplitDotWord(s: string, w: string)
    requires '.' !in w
    ensures Split(s + "." + w) == Split(s) + [w]
    decreases |w|
  {
    if w == [] {
      SplitSnoc(s, '.');
      assert s + "." + w == s + ['.'];
    } else {
      var init, c := w[..|w| - 1], w[|w| - 1];
      assert '.' !in init by { assert forall ch :: ch in init ==> ch in w; }
      assert c != '.' by { assert c in w; }
      SplitDotWord(s, init);
      SplitDotWordStep(s, init, c);
      assert w == init + [c];
    }
  }

  lemma SplitDotWordStep(s: string, init: string, c: char)
    requires c != '.' && Split(s + "." + init) == Split(s) + [init]
    ensures Split(s + "." + (init + [c])) == Split(s) + [init + [c]]
  {
    var u := s + "." + init;
    assert s + "." + (init + [c]) == u + [c];
    SplitSnoc(u, c);
    var p := Split(u);
    assert p[..|p| - 1] == Split(s);
  }

  /** Joining pieces without dots and splitting again gives the pieces. */
  lemma {:induction false} JoinSplit(parts: seq<string>)
    requires |parts| >= 1 && forall i :: 0 <= i < |parts| ==> '.' !in parts[i]
    ensures Split(Join(parts)) == parts
    decreases |parts|
  {
    if |parts| == 1 {
      SplitWord(parts[0]);
    } else {
      var init, last := parts[..|parts| - 1], parts[|parts| - 1];
      JoinSplit(init);
      SplitDotWord(Join(init), last);
      assert parts == init + [last];
    }
  }

  /** What a use spec resolves to (ccg.go:252-277). Only the first piece is
      mapped back through `renamed`; the method name is looked up as
      written. A missing plain name resolves to nil without an error. */
  function ResolveUse(use: string, renamed: map<string, string>, scope: map<string, Object>,
                      typeNames: set<Object>, members: map<(Object, string), Object>): Result<Object>
  {
    var parts := Split(use);
    var original := if parts[0] in renamed then renamed[parts[0]] else parts[0];
    if |parts| == 2 then
      var ty := Lookup(scope, original);
      if ty == Nil || ty !in typeNames then Err(NotAType(parts[0]))
      else Ok(if (ty, parts[1]) in members then members[(ty, parts[1])] else Nil)
    else if |parts| == 1 then
      Ok(Lookup(scope, original))
    else
      Err(InvalidUseSpec(use))
  }

  /** A use spec fails with "invalid use spec" exactly when it has two dots
      or more, and with "not a type" exactly when it has one dot and its
      first piece, mapped back through `renamed`, names no type. */
  lemma ResolveUseFails(use: string, renamed: map<string, string>, scope: map<string, Object>,
                        typeNames: set<Object>, members: map<(Object, string), Object>)
    ensures var r := ResolveUse(use, renamed, scope, typeNames, members);
      (r.Err? && r.error.InvalidUseSpec? <==> Dots(use) >= 2) &&
      (r.Err? && r.error.NotAType? <==>
         Dots(use) == 1 &&
         var first := Split(use)[0];
         var ty := Lookup(scope, if first in renamed then renamed[first] else first);
         ty == Nil || ty !in typeNames) &&
      (r.Err? ==> r.error.InvalidUseSpec? || r.error.NotAType?)
  {
    SplitJoin(use);
  }

  /** The uses set after the first n use specs. */
  function ResolvedUses(uses: seq<string>, renamed: map<string, string>, scope: map<string, Object>,
                        typeNames: set<Object>, members: map<(Object, string), Object>): Result<set<Object>>
    decreases |uses|
  {
    if uses == [] then Ok({})
    else
      match ResolvedUses(uses[..|uses| - 1], renamed, scope, typeNames, members)
      case Err(e) => Err(e)
      case Ok(set_) =>
        match ResolveUse(uses[|uses| - 1], renamed, scope, typeNames, members)
        case Err(e) => Err(e)
        case Ok(obj) => Ok(set_ + {obj})
  }

  /** The uses loop fails exactly when some use spec fails, and then with
      the error of the first one that does. */
  lemma {:induction false} ResolvedUsesFails(uses: seq<string>, renamed: map<string, string>, scope: map<string, Object>,
                                             typeNames: set<Object>, members: map<(Object, string), Object>)
    ensures var r := ResolvedUses(uses, renamed, scope, typeNames, members);
      (r.Err? <==> exists i :: 0 <= i < |uses| && ResolveUse(uses[i], renamed, scope, typeNames, members).Err?) &&
      (r.Err? ==> exists i :: 0 <= i < |uses| && ResolveUse(uses[i], renamed, scope, typeNames, members) == Err(r.error) &&
                    forall k :: 0 <= k < i ==> ResolveUse(uses[k], renamed, scope, typeNames, members).Ok?)
    decreases |uses|
  {
    if uses != [] {
      var init := uses[..|uses| - 1];
      ResolvedUsesFails(init, renamed, scope, typeNames, members);
      assert forall i :: 0 <= i < |init| ==> uses[i] == init[i];
    }
  }

  /** Otherwise the uses set holds the object of every use spec and nothing
      else. */
  lemma {:induction false} ResolvedUsesObjects(uses: seq<string>, renamed: map<string, string>, scope: map<string, Object>,
                                               typeNames: set<Object>, members: map<(Object, string), Object>)
    requires ResolvedUses(uses, renamed, scope, typeNames, members).Ok?
    ensures forall u :: u in uses ==> ResolveUse(u, renamed, scope, typeNames, members).Ok?
    ensures ResolvedUses(uses, renamed, scope, typeNames, members).value
         == set u | u in uses :: ResolveUse(u, renamed, scope, typeNames, members).value
    decreases |uses|
  {
    if uses != [] {
      var init := uses[..|uses| - 1];
      var last := uses[|uses| - 1];
      ResolvedUsesObjects(init, renamed, scope, typeNames, members);
      assert uses == init + [last];
      UseObjectsSnoc(init, last, renamed, scope, typeNames, members);
    }
  }

  lemma UseObjectsSnoc(init: seq<string>, last: string, renamed: map<string, string>, scope: map<string, Object>,
                       typeNames: set<Object>, members: map<(Object, string), Object>)
    requires forall u :: u in init + [last] ==> ResolveUse(u, renamed, scope, typeNames, members).Ok?
    ensures (set u | u in init + [last] :: ResolveUse(u, renamed, scope, typeNames, members).value)
         == (set u | u in init :: ResolveUse(u, renamed, scope, typeNames, members).value)
            + {ResolveUse(last, renamed, scope, typeNames, members).value}
  {
    var all := set u | u in init + [last] :: ResolveUse(u, renamed, scope, typeNames, members).value;
    var r1 := set u | u in init :: ResolveUse(u, renamed, scope, typeNames, members).value;
    forall o | o in all ensures o in r1 + {ResolveUse(last, renamed, scope, typeNames, members).value} {
      var u :| u in init + [last] && ResolveUse(u, renamed, scope, typeNames, members).value == o;
      if u != last {
        assert u in init;
      }
    }
    forall o | o in r1 ensures o in all {
      var u :| u in init && ResolveUse(u, renamed, scope, typeNames, members).value == o;
      assert u in init + [last];
    }
  }

  /** The uses loop (ccg.go:251-278). */
  method ResolveUses(uses: seq<string>, renamed: map<string, string>, scope: map<string, Object>,
                     typeNames: set<Object>, members: map<(Object, string), Object>)
    returns (r: Result<set<Object>>)
    ensures r == ResolvedUses(uses, renamed, scope, typeNames, members)
  {
    var objs: set<Object> := {};
    for i := 0 to |uses|
      invariant ResolvedUses(uses[..i], renamed, scope, typeNames, members) == Ok(objs)
    {
      assert uses[..i + 1][..i] == uses[..i];
      var obj := ResolveUse(uses[i], renamed, scope, typeNames, members);
      if obj.Err? {
        ResolvedUsesStaysFailed(uses, i + 1, |uses|, renamed, scope, typeNames, members);
        assert uses[..|uses|] == uses;
        return Err(obj.error);
      }
      objs := objs + {obj.value};
    }
    assert uses[..|uses|] == uses;
    return Ok(objs);
  }

  lemma {:induction false} ResolvedUsesStaysFailed(uses: seq<string>, m: nat, n: nat, renamed: map<string, string>,
                                                   scope: map<string, Object>, typeNames: set<Object>,
                                                   members: map<(Object, string), Object>)
    requires m <= n <= |uses| && ResolvedUses(uses[..m], renamed, scope, typeNames, members).Err?
    ensures ResolvedUses(uses[..n], renamed, scope, typeNames, members) == ResolvedUses(uses[..m], renamed, scope, typeNames, members)
    decreases n
  {
    if n > m {
      ResolvedUsesStaysFailed(uses, m, n - 1, renamed, scope, typeNames, members);
      assert uses[..n][..n - 1] == uses[..n - 1];
    }
  }

  // ---------------------------------------------------------------------
  // The closure of the uses under deps (ccg.go:282-295)

  /** Every object an object of s depends on. */
  function Step(s: set<Object>, deps: map<Object, set<Object>>): set<Object> {
    set o, d | o in s && o in deps && d in deps[o] :: d
  }

  /** No object of s depends on an object outside s. */
  predicate Closed(s: set<Object>, deps: map<Object, set<Object>>) {
    forall o :: o in s && o in deps ==> deps[o] <= s
  }

  /** Every object some object depends on. */
  function AllDeps(deps: map<Object, set<Object>>): set<Object> {
    set o, d | o in deps && d in deps[o] :: d
  }

  lemma StepAdd(s: set<Object>, u: Object, deps: map<Object, set<Object>>)
    ensures Step(s + {u}, deps) == Step(s, deps) + (if u in deps then deps[u] else {})
  {
  }

  /** One pass of the inner loop: every object of the snapshot adds its
      dependencies. */
  method Pass(uses: set<Object>, deps: map<Object, set<Object>>) returns (r: set<Object>)
    ensures r == uses + Step(uses, deps)
  {
    r := uses;
    var pending := uses;
    while pending != {}
      invariant pending <= uses
      invariant r == uses + Step(uses - pending, deps)
      decreases pending
    {
      var u :| u in pending;
      StepAdd(uses - pending, u, deps);
      assert uses - (pending - {u}) == (uses - pending) + {u};
      if u in deps {
        r := r + deps[u];
      }
      pending := pending - {u};
    }
    assert uses - pending == uses;
  }

  lemma ProperSubsetSmaller(a: set<Object>, b: set<Object>)
    requires a < b
    ensures |a| < |b|
  {
    var x :| x in b && x !in a;
    assert b == a + (b - a);
    assert x in b - a;
  }

  /** The dependencies of a part of a closed set stay in it. */
  lemma StepWithin(r: set<Object>, s: set<Object>, deps: map<Object, set<Object>>)
    requires r <= s && Closed(s, deps)
    ensures Step(r, deps) <= s
  {
  }

  /** The closure loop: repeat passes until the set stops growing. The
      result is the least set that holds the seeds and is closed under
      deps. */
  method Close(seeds: set<Object>, deps: map<Object, set<Object>>) returns (r: set<Object>)
    ensures seeds <= r && Closed(r, deps)
    ensures forall s :: seeds <= s && Closed(s, deps) ==> r <= s
  {
    ghost var universe := seeds + AllDeps(deps);
    r := seeds;
    while true
      invariant seeds <= r <= universe
      invariant forall s :: seeds <= s && Closed(s, deps) ==> r <= s
      decreases |universe - r|
    {
      var l := |r|;
      var next := Pass(r, deps);
      assert Step(r, deps) <= AllDeps(deps);
      if |next| == l {
        if r != next {
          ProperSubsetSmaller(r, next);
        }
        return;
      }
      assert r != next;
      ProperSubsetSmaller(universe - next, universe - r) by {
        var x :| x in next && x !in r;
        assert x in universe - r && x !in universe - next;
      }
      forall s | seeds <= s && Closed(s, deps)
        ensures next <= s
      {
        StepWithin(r, s, deps);
      }
      r := next;
    }
  }

  /** Filtering by a uses set keeps a new function, type spec or var/const
      name exactly when its object is in the set, in the original order
      (ccg.go:297-307). */
  lemma PrunedKeepsReached(uses: set<Object>, objectOf: seq<Object>, ds: seq<Decl>)
    ensures var c := InUses(uses, objectOf);
      var kept := FilteredDecls(c, ds);
      && Funcs(kept) == FilterFuncs(c, Funcs(ds))
      && ValueNames(kept) == FilterIds(c, ValueNames(ds))
      && TypeNames(kept) == FilterIds(c, TypeNames(ds))
      && Imports(kept) == Imports(ds)
  {
    var c := InUses(uses, objectOf);
    FilteredFuncs(c, ds);
    FilteredValueNames(c, ds);
    FilteredTypeNames(c, ds);
    FilteredImports(c, ds);
  }
}
