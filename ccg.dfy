/** Copy (ccg.go:36-335, without loading and output): specialise a template
    package's declarations and merge them into a destination's. */
module Ccg {
  import opened Syntax
  import opened Filter
  import opened Rename
  import opened Info
  import opened Merge
  import opened Prune
  import opened Tidy

  /** The fields of Config that Copy acts on (ccg.go:25-34): the
      placeholder parameters and renames (old name to new name), the
      destination declarations, and the use specs. */
  datatype Config = Config(
    params: map<string, string>,
    renames: map<string, string>,
    decls: seq<Decl>,
    uses: seq<string>)

  /** c is the least set holding the seeds and closed under deps. */
  ghost predicate IsClosure(c: set<Object>, seeds: set<Object>, deps: map<Object, set<Object>>) {
    seeds <= c && Closed(c, deps) && forall s :: seeds <= s && Closed(s, deps) ==> c <= s
  }

  /** There is only one such set. */
  lemma ClosureUnique(a: set<Object>, b: set<Object>, seeds: set<Object>, deps: map<Object, set<Object>>)
    requires IsClosure(a, seeds, deps) && IsClosure(b, seeds, deps)
    ensures a == b
  {
  }

  /** What survives of the new declarations (ccg.go:281-308): all of them
      when the uses set is empty, otherwise those whose objects the closure
      of the uses reaches. */
  ghost predicate Pruned(news: seq<Decl>, kept: seq<Decl>, seeds: set<Object>, objectOf: seq<Object>) {
    if |seeds| == 0 then kept == news
    else exists c :: IsClosure(c, seeds, DepsOf(news, objectOf)) && kept == FilteredDecls(InUses(c, objectOf), news)
  }

  /** renamed leads every new name back to a key that introduces it, a
      Renames key when there is one. */
  ghost predicate InverseOf(renamed: map<string, string>, config: Config) {
    && renamed.Keys == config.params.Values + config.renames.Values
    && (forall to :: to in config.renames.Values ==>
          renamed[to] in config.renames && config.renames[renamed[to]] == to)
    && (forall to :: to in renamed && to !in config.renames.Values ==>
          renamed[to] in config.params && config.params[renamed[to]] == to)
  }

  /** Some key of Params or Renames is not declared in the package scope. */
  ghost predicate MissingKey(scope: map<string, Object>, config: Config) {
    exists from :: (from in config.params || from in config.renames) && Lookup(scope, from) == Nil
  }

  /** name is the key "name not found" reports (ccg.go:67-83): a key the
      scope lacks, taken from Params whenever Params has one, since Params is
      collected before Renames. */
  ghost predicate ReportedMissing(scope: map<string, Object>, config: Config, name: string) {
    && Lookup(scope, name) == Nil
    && if exists from :: from in config.params && Lookup(scope, from) == Nil
       then name in config.params
       else name in config.renames
  }

  /** out is what Copy produces from the renamed package (ccg.go:96-335):
      the destination declarations are indexed and the files merged into
      them, the use specs resolve to seeds, and out is the tidied list of
      the merged destination declarations followed by what survives of the
      new ones. */
  ghost predicate Assembled(pkg: Package, config: Config, spell: seq<string>, files: seq<seq<Decl>>,
                            renamed: map<string, string>, out: seq<Decl>) {
    && IndexOf(config.decls, spell).Ok?
    && var idx := IndexOf(config.decls, spell).value;
    && AllIn(idx, config.decls)
    && MergedDecls(config.decls, Flatten(files), idx, spell).Ok?
    && var (decls, news) := MergedDecls(config.decls, Flatten(files), idx, spell).value;
    && Evolves(idx, config.decls, decls)
    && ResolvedUses(config.uses, renamed, pkg.scope, pkg.typeNames, pkg.members).Ok?
    && var seeds := ResolvedUses(config.uses, renamed, pkg.scope, pkg.typeNames, pkg.members).value;
    && exists kept ::
         && Pruned(news, kept, seeds, pkg.objectOf)
         && out == ImportsOf(Documented(decls + kept)) + OthersOf(Documented(decls + kept))
  }

  /** The error Copy returns once renaming has succeeded (ccg.go:96-335):
      that of the first stage that fails, among indexing the destination
      declarations (a method whose receiver is not a plain identifier
      panics), merging the template's declarations (a closure's type
      assertion or index panics) and resolving the use specs ("invalid use
      spec", "is not a type"); none when all three succeed. */
  function Failure(pkg: Package, config: Config, spell: seq<string>, files: seq<seq<Decl>>,
                   renamed: map<string, string>): Option<Error>
  {
    match IndexOf(config.decls, spell)
    case Err(e) => Some(e)
    case Ok(idx) =>
      IndexOfSound(config.decls, spell);
      match MergedDecls(config.decls, Flatten(files), idx, spell)
      case Err(e) => Some(e)
      case Ok(_) =>
        match ResolvedUses(config.uses, renamed, pkg.scope, pkg.typeNames, pkg.members)
        case Err(e) => Some(e)
        case Ok(_) => None
  }

  /** The in-place passes of Copy (ccg.go:48-94). The package's files lose
      their placeholder declarations first; if a Params or Renames key is not
      in scope, the result is "name not found", naming such a key (one of
      Params whenever Params has one), and no identifier is renamed.
      Otherwise every identifier bound to the object of a key takes the
      key's new name (Renames over Params), every other identifier keeps its
      own, and the result is the table from new names back to old ones. */
  method Specialise(pkg: Package, config: Config) returns (r: Result<map<string, string>>)
    requires pkg.Valid()
    modifies pkg, pkg.names
    ensures |pkg.files| == |old(pkg.files)|
    ensures forall i :: 0 <= i < |pkg.files| ==>
      pkg.files[i] == FilteredDecls(NotPlaceholder(config.params.Keys, old(pkg.names[..])), old(pkg.files)[i])
    ensures r.Err? <==> MissingKey(pkg.scope, config)
    ensures r.Err? ==> r.error.NameNotFound? && pkg.names[..] == old(pkg.names[..])
    ensures r.Err? ==> ReportedMissing(pkg.scope, config, r.error.name)
    ensures r.Ok? ==> InverseOf(r.value, config)
    ensures !MissingKey(pkg.scope, config) ==>
      forall i :: (0 <= i < pkg.names.Length &&
                   ObjectOf(pkg.objectOf, i) !in ObjectsOf(pkg.scope, config.params.Keys + config.renames.Keys)) ==>
        pkg.names[i] == old(pkg.names[i])
    ensures !MissingKey(pkg.scope, config) ==>
      forall from, i :: (from in config.renames && 0 <= i < pkg.names.Length &&
                         ObjectOf(pkg.objectOf, i) == Lookup(pkg.scope, from)) ==>
        pkg.names[i] == config.renames[from]
    ensures !MissingKey(pkg.scope, config) ==>
      forall from, i :: (from in config.params && 0 <= i < pkg.names.Length &&
                         Lookup(pkg.scope, from) !in ObjectsOf(pkg.scope, config.renames.Keys) &&
                         ObjectOf(pkg.objectOf, i) == Lookup(pkg.scope, from)) ==>
        pkg.names[i] == config.params[from]
  {
    // remove param declarations (ccg.go:49-61)
    pkg.StripPlaceholders(config.params.Keys);

    // collect objects to rename (ccg.go:64-83)
    var first := CollectObjects(pkg.scope, config.params, map[], map[]);
    if first.Err? {
      return Err(first.error);
    }
    var second := CollectObjects(pkg.scope, config.renames, first.value.0, first.value.1);
    if second.Err? {
      return Err(second.error);
    }
    var (objects, renamed) := second.value;
    CollectedBoth(pkg.scope, config, first.value.0, first.value.1, objects, renamed);

    // rename (ccg.go:86-94)
    pkg.Rename(objects);
    return Ok(renamed);
  }

  /** The passes of Copy after renaming (ccg.go:96-335), on the renamed
      spellings and the stripped files. Failures here are the panics of
      indexing and merging and the errors of resolving the use specs, never
      "name not found". */
  method Assemble(pkg: Package, config: Config, spell: seq<string>, files: seq<seq<Decl>>,
                  renamed: map<string, string>) returns (r: Result<seq<Decl>>)
    ensures r.Ok? <==> Failure(pkg, config, spell, files, renamed).None?
    ensures r.Err? ==> Failure(pkg, config, spell, files, renamed) == Some(r.error)
    ensures r.Ok? ==> Assembled(pkg, config, spell, files, renamed, r.value)
    ensures r.Err? ==> !r.error.NameNotFound?
  {
    // collect existing decls (ccg.go:96-150)
    var index := BuildIndex(config.decls, spell);
    if index.Err? {
      IndexOfFails(config.decls, spell);
      return Err(index.error);
    }
    var idx := index.value;
    IndexOfSound(config.decls, spell);

    // collect output declarations (ccg.go:152-226)
    var merged := MergeFiles(config.decls, files, idx, spell);
    if merged.Err? {
      return Err(merged.error);
    }
    var (decls, news) := merged.value;

    // get function dependencies (ccg.go:228-247)
    var deps := CollectDeps(news, pkg.objectOf);

    // get uses objects (ccg.go:249-278)
    var resolved := ResolveUses(config.uses, renamed, pkg.scope, pkg.typeNames, pkg.members);
    if resolved.Err? {
      ResolvedUsesFails(config.uses, renamed, pkg.scope, pkg.typeNames, pkg.members);
      var i :| 0 <= i < |config.uses| &&
        ResolveUse(config.uses[i], renamed, pkg.scope, pkg.typeNames, pkg.members) == Err(resolved.error);
      ResolveUseFails(config.uses[i], renamed, pkg.scope, pkg.typeNames, pkg.members);
      return Err(resolved.error);
    }
    var seeds := resolved.value;

    // filter by uses (ccg.go:280-308)
    var kept := news;
    if |seeds| > 0 {
      var closure := Close(seeds, deps);
      kept := FilterDecls(InUses(closure, pkg.objectOf), news);
      assert IsClosure(closure, seeds, DepsOf(news, pkg.objectOf));
    }
    assert Pruned(news, kept, seeds, pkg.objectOf);

    // merge new and existing decls, and tidy up (ccg.go:310-335)
    var tidied := TidyDecls(decls + kept);
    return Ok(tidied);
  }

  /** Copy (ccg.go:48-335): specialise the package in place, then assemble
      the output from it. "name not found" is reported exactly when a key
      of Params or Renames is not in scope, and then no identifier has been
      renamed. Otherwise the identifiers are renamed as Specialise says,
      and Copy fails exactly when a later stage does, with that stage's
      error, and otherwise returns the assembled declarations. */
  method Copy(pkg: Package, config: Config) returns (r: Result<seq<Decl>>)
    requires pkg.Valid()
    modifies pkg, pkg.names
    ensures |pkg.files| == |old(pkg.files)|
    ensures forall i :: 0 <= i < |pkg.files| ==>
      pkg.files[i] == FilteredDecls(NotPlaceholder(config.params.Keys, old(pkg.names[..])), old(pkg.files)[i])
    ensures r.Err? && r.error.NameNotFound? <==> MissingKey(pkg.scope, config)
    ensures r.Err? && r.error.NameNotFound? ==> pkg.names[..] == old(pkg.names[..])
    ensures r.Err? && r.error.NameNotFound? ==> ReportedMissing(pkg.scope, config, r.error.name)
    ensures !MissingKey(pkg.scope, config) ==>
      forall i :: (0 <= i < pkg.names.Length &&
                   ObjectOf(pkg.objectOf, i) !in ObjectsOf(pkg.scope, config.params.Keys + config.renames.Keys)) ==>
        pkg.names[i] == old(pkg.names[i])
    ensures !MissingKey(pkg.scope, config) ==>
      forall from, i :: (from in config.renames && 0 <= i < pkg.names.Length &&
                         ObjectOf(pkg.objectOf, i) == Lookup(pkg.scope, from)) ==>
        pkg.names[i] == config.renames[from]
    ensures !MissingKey(pkg.scope, config) ==>
      forall from, i :: (from in config.params && 0 <= i < pkg.names.Length &&
                         Lookup(pkg.scope, from) !in ObjectsOf(pkg.scope, config.renames.Keys) &&
                         ObjectOf(pkg.objectOf, i) == Lookup(pkg.scope, from)) ==>
        pkg.names[i] == config.params[from]
    ensures !MissingKey(pkg.scope, config) ==>
      exists renamed ::
        && InverseOf(renamed, config)
        && (r.Ok? <==> Failure(pkg, config, pkg.names[..], pkg.files, renamed).None?)
        && (r.Err? ==> Failure(pkg, config, pkg.names[..], pkg.files, renamed) == Some(r.error))
        && (r.Ok? ==> Assembled(pkg, config, pkg.names[..], pkg.files, renamed, r.value))
  {
    var renamed := Specialise(pkg, config);
    if renamed.Err? {
      return Err(renamed.error);
    }
    r := Assemble(pkg, config, pkg.names[..], pkg.files, renamed.value);
    assert InverseOf(renamed.value, config);
  }

  /** Copy's output holds the import declarations first and a Doc on every
      declaration, is at least as long as the destination's declarations,
      and holds, documented, every destination declaration no slot of the
      index points into. */
  lemma AssembledShape(pkg: Package, config: Config, spell: seq<string>, files: seq<seq<Decl>>,
                       renamed: map<string, string>, out: seq<Decl>)
    requires Assembled(pkg, config, spell, files, renamed, out)
    ensures forall i, j :: 0 <= i < j < |out| && out[j].ImportDecl? ==> out[i].ImportDecl?
    ensures forall d :: d in out ==> d.doc != NoDoc
    ensures |out| >= |config.decls|
    ensures forall i :: 0 <= i < |config.decls| && i !in Targets(IndexOf(config.decls, spell).value) ==>
      WithDoc(config.decls[i]) in out
  {
    var idx := IndexOf(config.decls, spell).value;
    var (decls, news) := MergedDecls(config.decls, Flatten(files), idx, spell).value;
    var seeds := ResolvedUses(config.uses, renamed, pkg.scope, pkg.typeNames, pkg.members).value;
    var kept :| Pruned(news, kept, seeds, pkg.objectOf) &&
      out == ImportsOf(Documented(decls + kept)) + OthersOf(Documented(decls + kept));
    TidiedMerge(idx, config.decls, decls, kept);
  }

  /** The tidied list of evolved destination declarations followed by new
      ones. */
  lemma TidiedMerge(idx: Index, base: seq<Decl>, decls: seq<Decl>, kept: seq<Decl>)
    requires Evolves(idx, base, decls)
    ensures var out := ImportsOf(Documented(decls + kept)) + OthersOf(Documented(decls + kept));
      && (forall i, j :: 0 <= i < j < |out| && out[j].ImportDecl? ==> out[i].ImportDecl?)
      && (forall d :: d in out ==> d.doc != NoDoc)
      && |out| >= |base|
      && (forall i :: 0 <= i < |base| && i !in Targets(idx) ==> WithDoc(base[i]) in out)
  {
    assert |base| == |decls|;
    Tidied(decls + kept);
    TidiedKeepsAll(decls + kept);
    forall i | 0 <= i < |base| && i !in Targets(idx)
      ensures (decls + kept)[i] == base[i]
    {
    }
  }

  /** What the two collectObjects calls together record. */
  lemma CollectedBoth(scope: map<string, Object>, config: Config,
                      objects1: map<Object, string>, renamed1: map<string, string>,
                      objects: map<Object, string>, renamed: map<string, string>)
    requires Collected(scope, config.params, config.params.Keys, map[], map[], objects1, renamed1)
    requires Collected(scope, config.renames, config.renames.Keys, objects1, renamed1, objects, renamed)
    ensures !MissingKey(scope, config)
    ensures objects.Keys == ObjectsOf(scope, config.params.Keys + config.renames.Keys)
    ensures Injective(scope) ==> forall from :: from in config.renames ==> objects[Lookup(scope, from)] == config.renames[from]
    ensures Injective(scope) ==> forall from :: from in config.params && Lookup(scope, from) !in ObjectsOf(scope, config.renames.Keys) ==>
      objects[Lookup(scope, from)] == config.params[from]
    ensures InverseOf(renamed, config)
  {
    CollectedBothObjects(scope, config, objects1, objects);
    CollectedBothRenamed(config, renamed1, renamed);
  }

  lemma CollectedBothObjects(scope: map<string, Object>, config: Config,
                             objects1: map<Object, string>, objects: map<Object, string>)
    requires CollectedObjects(scope, config.params, config.params.Keys, map[], objects1)
    requires CollectedObjects(scope, config.renames, config.renames.Keys, objects1, objects)
    ensures objects.Keys == ObjectsOf(scope, config.params.Keys + config.renames.Keys)
    ensures Injective(scope) ==> forall from :: from in config.params && Lookup(scope, from) !in ObjectsOf(scope, config.renames.Keys) ==>
      objects[Lookup(scope, from)] == config.params[from]
  {
  }

  lemma CollectedBothRenamed(config: Config, renamed1: map<string, string>, renamed: map<string, string>)
    requires CollectedRenamed(config.params, config.params.Keys, map[], renamed1)
    requires CollectedRenamed(config.renames, config.renames.Keys, renamed1, renamed)
    ensures InverseOf(renamed, config)
  {
    assert TargetsOf(config.params, config.params.Keys) == config.params.Values;
    assert TargetsOf(config.renames, config.renames.Keys) == config.renames.Values;
  }
}
