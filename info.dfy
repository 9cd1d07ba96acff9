/** The loaded template package (a loader.PackageInfo), and the two passes
    of Copy that change it in place: stripping the placeholder declarations
    from its files (ccg.go:49-61) and renaming its identifiers
    (ccg.go:86-94). */
module Info {
  import opened Syntax
  import opened Filter
  import opened Rename

  class Package {
    /** info.ObjectOf for every identifier node: Defs and Uses together,
        Nil for an identifier in neither (those of the destination
        declarations among them). */
    const objectOf: seq<Object>
    /** info.Pkg.Scope(). */
    const scope: map<string, Object>
    /** The objects that are type names (*types.TypeName). */
    const typeNames: set<Object>
    /** types.LookupFieldOrMethod on a type name's type: the method or field
        a name selects, absent where the lookup gives nil. */
    const members: map<(Object, string), Object>
    /** Ident.Name of every identifier node. */
    const names: array<string>
    /** The declarations of each file (f.Decls). */
    var files: seq<seq<Decl>>

    /** A scope holds each object under the object's own name, so no two
        names of it denote the same object. */
    predicate Valid() {
      Injective(scope)
    }

    constructor(objectOf: seq<Object>, scope: map<string, Object>, typeNames: set<Object>,
                members: map<(Object, string), Object>, spellings: seq<string>, files: seq<seq<Decl>>)
      requires Injective(scope)
      ensures Valid()
      ensures this.objectOf == objectOf && this.scope == scope && this.typeNames == typeNames
      ensures this.members == members && this.files == files
      ensures names[..] == spellings && fresh(names)
    {
      this.objectOf := objectOf;
      this.scope := scope;
      this.typeNames := typeNames;
      this.members := members;
      this.files := files;
      names := new string[|spellings|](i requires 0 <= i < |spellings| => spellings[i]);
    }

    /** Remove the placeholder declarations from every file (ccg.go:49-61):
        each file's declarations become what filterDecls keeps of them under
        the parameter names. */
    method StripPlaceholders(params: set<string>)
      modifies this
      ensures |files| == |old(files)|
      ensures forall i :: 0 <= i < |files| ==>
        files[i] == FilteredDecls(NotPlaceholder(params, names[..]), old(files)[i])
    {
      var c := NotPlaceholder(params, names[..]);
      for i := 0 to |files|
        invariant |files| == |old(files)|
        invariant forall k :: 0 <= k < i ==> files[k] == FilteredDecls(c, old(files)[k])
        invariant forall k :: i <= k < |files| ==> files[k] == old(files)[k]
      {
        var kept := FilterDecls(c, files[i]);
        files := files[i := kept];
      }
    }

    /** Rename by object (ccg.go:86-94): every identifier bound to an object
        of the table takes that object's new name, and every other
        identifier, whatever its spelling, keeps its own. */
    method Rename(objects: map<Object, string>)
      modifies names
      ensures forall i :: 0 <= i < names.Length && ObjectOf(objectOf, i) in objects ==>
        names[i] == objects[ObjectOf(objectOf, i)]
      ensures forall i :: 0 <= i < names.Length && ObjectOf(objectOf, i) !in objects ==>
        names[i] == old(names[i])
    {
      for i := 0 to names.Length
        invariant forall k :: 0 <= k < i && ObjectOf(objectOf, k) in objects ==>
          names[k] == objects[ObjectOf(objectOf, k)]
        invariant forall k :: 0 <= k < names.Length && (i <= k || ObjectOf(objectOf, k) !in objects) ==>
          names[k] == old(names[k])
      {
        var obj := ObjectOf(objectOf, i);
        if obj in objects {
          names[i] := objects[obj];
        }
      }
    }
  }

  /** After stripping, no type spec and no var/const name spelt as a
      parameter is left, no value spec is without names and no GenDecl is
      without specs. */
  lemma StrippedHasNoPlaceholders(params: set<string>, spell: seq<string>, ds: seq<Decl>)
    ensures forall d :: d in FilteredDecls(NotPlaceholder(params, spell), ds) ==>
      match d
      case FuncDecl(_, _, _, _) => true
      case ValueDecl(_, specs, _) =>
        |specs| > 0 && forall s :: s in specs ==>
          |s.names| > 0 && forall n :: n in s.names ==> SpellingOf(spell, n) !in params
      case TypeDecl(specs, _) => |specs| > 0 && forall s :: s in specs ==> SpellingOf(spell, s.name) !in params
      case ImportDecl(specs, _) => |specs| > 0
  {
    FilteredDeclsAccepted(NotPlaceholder(params, spell), ds);
  }
}
