/** The part of Go's syntax trees (go/ast) and of the type checker's results
    (go/types) that the ccg Copy pipeline reads and rewrites.

    Identifier nodes (*ast.Ident) are shared between the declaration trees and
    the type checker's Defs/Uses maps, and renaming overwrites their spelling in
    place. The model therefore keeps every identifier node in one table: a
    declaration holds the index (IdentId) of each identifier it contains, the
    spellings are a sequence indexed by IdentId, and so is the object each
    identifier resolves to. */
module Syntax {

  datatype Option<+T> = None | Some(value: T)

  /** Every way Copy stops early. The first three are the errors ccg.go
      returns; Panic stands for a failed type assertion or slice index, which
      aborts the Go program instead of returning. */
  datatype Error =
    | NameNotFound(name: string)
    | NotAType(name: string)
    | InvalidUseSpec(use: string)
    | Panic(reason: string)

  datatype Result<+T> = Ok(value: T) | Err(error: Error)

  /** A types.Object, compared by identity; Nil is Go's nil interface value. */
  datatype Object = Nil | Obj(id: nat)

  /** An *ast.Ident node, as its index in the identifier table. */
  type IdentId = nat

  /** An expression node. Only basic literals are told apart: an import path is
      one, and an import slot accepts nothing else. */
  datatype Expr = BasicLit(text: string) | Composite(node: nat)

  /** A declaration's Doc field: nil, or a comment group. */
  datatype Doc = NoDoc | Doc(lines: seq<string>)

  datatype ValueSpec = ValueSpec(names: seq<IdentId>, values: seq<Expr>, typ: Option<Expr>)
  datatype TypeSpec = TypeSpec(name: IdentId, typ: Expr)
  /** An import; `path` is the literal's text, quotes included, as in
      BasicLit.Value. */
  datatype ImportSpec = ImportSpec(alias: Option<IdentId>, path: string)

  /** The type expression of a method receiver: a plain identifier, or any
      other expression (a star expression `*T`, a generic instance ...). */
  datatype RecvType = RecvIdent(id: IdentId) | RecvOther

  datatype ValueTok = Var | Const

  /** A top-level declaration. A *ast.GenDecl is split by its token, since the
      parser gives a var/const declaration only ValueSpecs, a type declaration
      only TypeSpecs and an import declaration only ImportSpecs. A FuncDecl
      carries, in walk order, every identifier that ast.Walk visits in it. */
  datatype Decl =
    | FuncDecl(name: IdentId, recv: Option<RecvType>, idents: seq<IdentId>, doc: Doc)
    | ValueDecl(tok: ValueTok, valueSpecs: seq<ValueSpec>, doc: Doc)
    | TypeDecl(typeSpecs: seq<TypeSpec>, doc: Doc)
    | ImportDecl(importSpecs: seq<ImportSpec>, doc: Doc)

  /** The value paired with a spec's i-th name, or nil past the end of
      Values. */
  function ValueAt(s: ValueSpec, i: nat): Option<Expr> {
    if i < |s.values| then Some(s.values[i]) else None
  }

  /** values followed by the value paired with the spec's i-th name, if it
      has one. */
  function AppendValue(values: seq<Expr>, s: ValueSpec, i: nat): seq<Expr> {
    if i < |s.values| then values + [s.values[i]] else values
  }

  /** Ident.Name of an identifier node. */
  function SpellingOf(spell: seq<string>, id: IdentId): string {
    if id < |spell| then spell[id] else ""
  }

  /** info.ObjectOf: the object an identifier defines or uses, or nil. */
  function ObjectOf(objectOf: seq<Object>, id: IdentId): Object {
    if id < |objectOf| then objectOf[id] else Nil
  }

  /** Scope.Lookup: the object declared under a name, or nil. */
  function Lookup(scope: map<string, Object>, name: string): Object {
    if name in scope then scope[name] else Nil
  }

  /** The merge key of an import: its alias or, without one, its path. */
  function ImportName(s: ImportSpec, spell: seq<string>): string {
    if s.alias.Some? then SpellingOf(spell, s.alias.value) else s.path
  }

  /** The merge key of a function, `Recv.Name` for a method. The type
      assertion `.(*ast.Ident)` on the receiver panics when the receiver type
      is not a plain identifier. */
  function FuncName(d: Decl, spell: seq<string>): (r: Result<string>)
    requires d.FuncDecl?
    ensures r.Err? <==> d.recv.Some? && d.recv.value.RecvOther?
    ensures r.Err? ==> r.error.Panic?
  {
    match d.recv
    case None => Ok(SpellingOf(spell, d.name))
    case Some(RecvIdent(t)) => Ok(SpellingOf(spell, t) + "." + SpellingOf(spell, d.name))
    case Some(RecvOther) => Err(Panic("interface conversion: receiver type is not *ast.Ident"))
  }

  /** The elements of a sequence that are present. */
  function Present<T>(o: Option<T>): (r: seq<T>)
    ensures |r| <= 1
  {
    if o.Some? then [o.value] else []
  }

  /** The concatenation of f applied to each element, in order. */
  function Concat<T, U>(xs: seq<T>, f: T -> seq<U>): seq<U> {
    if xs == [] then [] else Concat(xs[..|xs| - 1], f) + f(xs[|xs| - 1])
  }

  lemma {:induction false} ConcatAppend<T, U>(xs: seq<T>, ys: seq<T>, f: T -> seq<U>)
    ensures Concat(xs + ys, f) == Concat(xs, f) + Concat(ys, f)
    decreases |ys|
  {
    if ys == [] {
      assert xs + ys == xs;
    } else {
      var ys', y := ys[..|ys| - 1], ys[|ys| - 1];
      assert (xs + ys)[..|xs + ys| - 1] == xs + ys';
      ConcatAppend(xs, ys', f);
    }
  }

  // Views of a declaration list, used to state order properties.

  function SpecNames(s: ValueSpec): seq<IdentId> { s.names }

  function DeclValueNames(d: Decl): seq<IdentId> {
    if d.ValueDecl? then Concat(d.valueSpecs, SpecNames) else []
  }

  function TypeSpecName(s: TypeSpec): seq<IdentId> { [s.name] }

  function DeclTypeNames(d: Decl): seq<IdentId> {
    if d.TypeDecl? then Concat(d.typeSpecs, TypeSpecName) else []
  }

  function DeclFuncs(d: Decl): seq<Decl> {
    if d.FuncDecl? then [d] else []
  }

  function DeclImports(d: Decl): seq<ImportSpec> {
    if d.ImportDecl? then d.importSpecs else []
  }

  /** Every var/const name, in order. */
  function ValueNames(ds: seq<Decl>): seq<IdentId> { Concat(ds, DeclValueNames) }

  /** Every type spec's name, in order. */
  function TypeNames(ds: seq<Decl>): seq<IdentId> { Concat(ds, DeclTypeNames) }

  /** Every function declaration, in order. */
  function Funcs(ds: seq<Decl>): seq<Decl> { Concat(ds, DeclFuncs) }

  /** Every import spec, in order. */
  function Imports(ds: seq<Decl>): seq<ImportSpec> { Concat(ds, DeclImports) }
}
