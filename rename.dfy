/** Resolving the Params and Renames tables to objects (ccg.go:64-83).

    Renaming is by identity: a name of the tables is looked up in the
    package scope once, and every identifier bound to the object found is
    renamed, whatever its spelling. `renamed` records the way back, from a
    new name to the name it replaced. */
module Rename {
  import opened Syntax

  /** The objects the keys of a table resolve to. */
  function ObjectsOf(scope: map<string, Object>, keys: set<string>): set<Object> {
    set from | from in keys :: Lookup(scope, from)
  }

  /** The new names a table introduces. */
  function TargetsOf(mapping: map<string, string>, keys: set<string>): set<string>
    requires keys <= mapping.Keys
  {
    set from | from in keys :: mapping[from]
  }

  /** No two names of the scope denote the same object, as in a Go package
      scope. */
  predicate Injective(scope: map<string, Object>) {
    forall a, b :: a in scope && b in scope && scope[a] == scope[b] ==> a == b
  }

  /** The objects table once the keys in done are handled: the keys'
      objects are added, the other entries are kept, and, for a scope
      without aliases, each key's object holds the key's new name. */
  predicate CollectedObjects(scope: map<string, Object>, mapping: map<string, string>, done: set<string>,
                             objects0: map<Object, string>, objects: map<Object, string>)
    requires done <= mapping.Keys
  {
    && objects.Keys == objects0.Keys + ObjectsOf(scope, done)
    && (forall o :: o in objects0 && o !in ObjectsOf(scope, done) ==> objects[o] == objects0[o])
    && (Injective(scope) ==> forall from :: from in done ==> objects[Lookup(scope, from)] == mapping[from])
  }

  /** The renamed table once the keys in done are handled: every new name
      leads back to a key that introduces it, and the other entries are
      kept. */
  predicate CollectedRenamed(mapping: map<string, string>, done: set<string>,
                             renamed0: map<string, string>, renamed: map<string, string>)
    requires done <= mapping.Keys
  {
    && renamed.Keys == renamed0.Keys + TargetsOf(mapping, done)
    && (forall to :: to in renamed0 && to !in TargetsOf(mapping, done) ==> renamed[to] == renamed0[to])
    && (forall to :: to in TargetsOf(mapping, done) ==> renamed[to] in done && mapping[renamed[to]] == to)
  }

  /** What collectObjects has done once the keys in done are handled. */
  predicate Collected(scope: map<string, Object>, mapping: map<string, string>, done: set<string>,
                      objects0: map<Object, string>, renamed0: map<string, string>,
                      objects: map<Object, string>, renamed: map<string, string>)
    requires done <= mapping.Keys
  {
    && (forall from :: from in done ==> Lookup(scope, from) != Nil)
    && CollectedObjects(scope, mapping, done, objects0, objects)
    && CollectedRenamed(mapping, done, renamed0, renamed)
  }

  lemma ObjectsOfAdd(scope: map<string, Object>, done: set<string>, from: string)
    ensures ObjectsOf(scope, done + {from}) == ObjectsOf(scope, done) + {Lookup(scope, from)}
  {
  }

  lemma TargetsOfAdd(mapping: map<string, string>, done: set<string>, from: string)
    requires done <= mapping.Keys && from in mapping
    ensures TargetsOf(mapping, done + {from}) == TargetsOf(mapping, done) + {mapping[from]}
  {
  }

  /** Handling one more key keeps the objects table up to date. */
  lemma CollectObjectStep(scope: map<string, Object>, mapping: map<string, string>, done: set<string>, from: string,
                          objects0: map<Object, string>, objects: map<Object, string>)
    requires done <= mapping.Keys && from in mapping && from !in done
    requires forall f :: f in done + {from} ==> Lookup(scope, f) != Nil
    requires CollectedObjects(scope, mapping, done, objects0, objects)
    ensures CollectedObjects(scope, mapping, done + {from}, objects0, objects[Lookup(scope, from) := mapping[from]])
  {
    var obj, to := Lookup(scope, from), mapping[from];
    ObjectsOfAdd(scope, done, from);
    if Injective(scope) {
      forall f | f in done + {from}
        ensures objects[obj := to][Lookup(scope, f)] == mapping[f]
      {
        if f != from {
          assert f in scope && from in scope;
        }
      }
    }
  }

  /** Handling one more key keeps the renamed table up to date. */
  lemma CollectRenamedStep(mapping: map<string, string>, done: set<string>, from: string,
                           renamed0: map<string, string>, renamed: map<string, string>)
    requires done <= mapping.Keys && from in mapping && from !in done
    requires CollectedRenamed(mapping, done, renamed0, renamed)
    ensures CollectedRenamed(mapping, done + {from}, renamed0, renamed[mapping[from] := from])
  {
    TargetsOfAdd(mapping, done, from);
  }

  /** Handling one more key keeps the record up to date. */
  lemma CollectStep(scope: map<string, Object>, mapping: map<string, string>, done: set<string>, from: string,
                    objects0: map<Object, string>, renamed0: map<string, string>,
                    objects: map<Object, string>, renamed: map<string, string>)
    requires done <= mapping.Keys && from in mapping && from !in done
    requires Lookup(scope, from) != Nil
    requires Collected(scope, mapping, done, objects0, renamed0, objects, renamed)
    ensures Collected(scope, mapping, done + {from}, objects0, renamed0,
                      objects[Lookup(scope, from) := mapping[from]], renamed[mapping[from] := from])
  {
    CollectObjectStep(scope, mapping, done, from, objects0, objects);
    CollectRenamedStep(mapping, done, from, renamed0, renamed);
  }

  /** collectObjects (ccg.go:66-77): visit the table in some order, failing
      on the first key the scope does not declare; otherwise record each
      key's object with its new name, and each new name with its key.
      Go's map iteration order is left open, so which missing key is
      reported, and which key a new name shared by two keys leads back to,
      are not determined. */
  method CollectObjects(scope: map<string, Object>, mapping: map<string, string>,
                        objects0: map<Object, string>, renamed0: map<string, string>)
    returns (r: Result<(map<Object, string>, map<string, string>)>)
    ensures r.Err? <==> exists from :: from in mapping && Lookup(scope, from) == Nil
    ensures r.Err? ==> r.error.NameNotFound? && r.error.name in mapping && Lookup(scope, r.error.name) == Nil
    ensures r.Ok? ==> Collected(scope, mapping, mapping.Keys, objects0, renamed0, r.value.0, r.value.1)
    ensures r.Ok? && Nil !in objects0 ==> Nil !in r.value.0
  {
    var objects, renamed := objects0, renamed0;
    var rest := mapping.Keys;
    assert mapping.Keys - rest == {};
    assert ObjectsOf(scope, {}) == {} && TargetsOf(mapping, {}) == {};
    while rest != {}
      invariant rest <= mapping.Keys
      invariant Collected(scope, mapping, mapping.Keys - rest, objects0, renamed0, objects, renamed)
      invariant Nil !in objects0 ==> Nil !in objects
      decreases rest
    {
      var from :| from in rest;
      var obj := Lookup(scope, from);
      if obj == Nil {
        return Err(NameNotFound(from));
      }
      CollectStep(scope, mapping, mapping.Keys - rest, from, objects0, renamed0, objects, renamed);
      assert mapping.Keys - (rest - {from}) == (mapping.Keys - rest) + {from};
      objects := objects[obj := mapping[from]];
      renamed := renamed[mapping[from] := from];
      rest := rest - {from};
    }
    assert mapping.Keys - rest == mapping.Keys;
    return Ok((objects, renamed));
  }
}
