/** Merging the generated declarations into the destination's (ccg.go:96-226).

    Copy first indexes the destination declarations by merge key, each key
    holding a closure that overwrites one part of one declaration. Here the
    closure is a Slot naming that part by position, and Apply performs the
    overwrite. Then each generated declaration is either absorbed into the
    slot of its key or collected into the list of new declarations. */
module Merge {
  import opened Syntax
  import opened Filter

  /** What an existing-declaration closure overwrites. */
  datatype Slot =
    | ValueSlot(decl: nat, spec: nat, name: nat)  // spec.Values[i] (ccg.go:110-112)
    | TypeSlot(decl: nat, spec: nat)              // decl.Specs[i].Type (ccg.go:120-122)
    | ImportSlot(decl: nat, spec: nat)            // decl.Specs[i].Path (ccg.go:135-137)
    | FuncSlot(decl: nat)                         // decls[i] (ccg.go:146-148)

  /** The argument a closure receives: an expression, or a declaration. */
  datatype Payload = ExprPayload(expr: Expr) | DeclPayload(decl: Decl)

  /** existingDecls: merge key to slot. */
  type Index = map<string, Slot>

  /** The slot names a part that exists in ds. */
  predicate SlotIn(ds: seq<Decl>, slot: Slot) {
    slot.decl < |ds| &&
    match slot
    case ValueSlot(i, j, k) =>
      ds[i].ValueDecl? && j < |ds[i].valueSpecs| && k < |ds[i].valueSpecs[j].names|
    case TypeSlot(i, j) => ds[i].TypeDecl? && j < |ds[i].typeSpecs|
    case ImportSlot(i, j) => ds[i].ImportDecl? && j < |ds[i].importSpecs|
    case FuncSlot(i) => ds[i].FuncDecl?
  }

  predicate AllIn(idx: Index, ds: seq<Decl>) {
    forall key :: key in idx ==> SlotIn(ds, idx[key])
  }

  /** The merge key of the name at a slot. */
  function KeyAt(ds: seq<Decl>, slot: Slot, spell: seq<string>): Result<string>
    requires SlotIn(ds, slot)
  {
    match slot
    case ValueSlot(i, j, k) => Ok(SpellingOf(spell, ds[i].valueSpecs[j].names[k]))
    case TypeSlot(i, j) => Ok(SpellingOf(spell, ds[i].typeSpecs[j].name))
    case ImportSlot(i, j) => Ok(ImportName(ds[i].importSpecs[j], spell))
    case FuncSlot(i) => FuncName(ds[i], spell)
  }

  /** Every key of the index leads to a slot that carries that key. */
  predicate Sound(idx: Index, ds: seq<Decl>, spell: seq<string>) {
    forall key :: key in idx ==> SlotIn(ds, idx[key]) && KeyAt(ds, idx[key], spell) == Ok(key)
  }

  /** The slot's key is a key of the index. */
  predicate Keyed(idx: Index, ds: seq<Decl>, slot: Slot, spell: seq<string>)
    requires SlotIn(ds, slot)
  {
    KeyAt(ds, slot, spell).Ok? && KeyAt(ds, slot, spell).value in idx
  }

  // ---------------------------------------------------------------------
  // Building the index (ccg.go:97-150). A later slot with the same key
  // replaces an earlier one, as a later map assignment does.

  function IndexValueNames(idx: Index, ds: seq<Decl>, i: nat, j: nat, n: nat, spell: seq<string>): Index
    requires i < |ds| && ds[i].ValueDecl? && j < |ds[i].valueSpecs|
    requires n <= |ds[i].valueSpecs[j].names|
  {
    if n == 0 then idx
    else
      IndexValueNames(idx, ds, i, j, n - 1, spell)[
        SpellingOf(spell, ds[i].valueSpecs[j].names[n - 1]) := ValueSlot(i, j, n - 1)]
  }

  function IndexValueSpecs(idx: Index, ds: seq<Decl>, i: nat, n: nat, spell: seq<string>): Index
    requires i < |ds| && ds[i].ValueDecl? && n <= |ds[i].valueSpecs|
  {
    if n == 0 then idx
    else
      IndexValueNames(IndexValueSpecs(idx, ds, i, n - 1, spell), ds, i, n - 1,
                      |ds[i].valueSpecs[n - 1].names|, spell)
  }

  function IndexTypeSpecs(idx: Index, ds: seq<Decl>, i: nat, n: nat, spell: seq<string>): Index
    requires i < |ds| && ds[i].TypeDecl? && n <= |ds[i].typeSpecs|
  {
    if n == 0 then idx
    else IndexTypeSpecs(idx, ds, i, n - 1, spell)[SpellingOf(spell, ds[i].typeSpecs[n - 1].name) := TypeSlot(i, n - 1)]
  }

  function IndexImportSpecs(idx: Index, ds: seq<Decl>, i: nat, n: nat, spell: seq<string>): Index
    requires i < |ds| && ds[i].ImportDecl? && n <= |ds[i].importSpecs|
  {
    if n == 0 then idx
    else IndexImportSpecs(idx, ds, i, n - 1, spell)[ImportName(ds[i].importSpecs[n - 1], spell) := ImportSlot(i, n - 1)]
  }

  function IndexDecl(idx: Index, ds: seq<Decl>, i: nat, spell: seq<string>): Result<Index>
    requires i < |ds|
  {
    match ds[i]
    case ValueDecl(_, specs, _) => Ok(IndexValueSpecs(idx, ds, i, |specs|, spell))
    case TypeDecl(specs, _) => Ok(IndexTypeSpecs(idx, ds, i, |specs|, spell))
    case ImportDecl(specs, _) => Ok(IndexImportSpecs(idx, ds, i, |specs|, spell))
    case FuncDecl(_, _, _, _) =>
      match FuncName(ds[i], spell)
      case Err(e) => Err(e)
      case Ok(key) => Ok(idx[key := FuncSlot(i)])
  }

  /** The index over the first m declarations. */
  function IndexUpTo(ds: seq<Decl>, m: nat, spell: seq<string>): Result<Index>
    requires m <= |ds|
  {
    if m == 0 then Ok(map[])
    else
      match IndexUpTo(ds, m - 1, spell)
      case Err(e) => Err(e)
      case Ok(idx) => IndexDecl(idx, ds, m - 1, spell)
  }

  function IndexOf(ds: seq<Decl>, spell: seq<string>): Result<Index> {
    IndexUpTo(ds, |ds|, spell)
  }

  /** The index loop (ccg.go:99-150). */
  method BuildIndex(ds: seq<Decl>, spell: seq<string>) returns (r: Result<Index>)
    ensures r == IndexOf(ds, spell)
  {
    var idx: Index := map[];
    for i := 0 to |ds|
      invariant IndexUpTo(ds, i, spell) == Ok(idx)
    {
      match ds[i] {
        case ValueDecl(_, specs, _) =>
          ghost var idx0 := idx;
          for j := 0 to |specs|
            invariant idx == IndexValueSpecs(idx0, ds, i, j, spell)
          {
            ghost var idx1 := idx;
            for k := 0 to |specs[j].names|
              invariant idx == IndexValueNames(idx1, ds, i, j, k, spell)
            {
              idx := idx[SpellingOf(spell, specs[j].names[k]) := ValueSlot(i, j, k)];
            }
          }
        case TypeDecl(specs, _) =>
          ghost var idx0 := idx;
          for j := 0 to |specs|
            invariant idx == IndexTypeSpecs(idx0, ds, i, j, spell)
          {
            idx := idx[SpellingOf(spell, specs[j].name) := TypeSlot(i, j)];
          }
        case ImportDecl(specs, _) =>
          ghost var idx0 := idx;
          for j := 0 to |specs|
            invariant idx == IndexImportSpecs(idx0, ds, i, j, spell)
          {
            var spec := specs[j];
            var name: string;
            if spec.alias.None? {
              name := spec.path;
            } else {
              name := SpellingOf(spell, spec.alias.value);
            }
            idx := idx[name := ImportSlot(i, j)];
          }
        case FuncDecl(_, _, _, _) =>
          var name := FuncName(ds[i], spell);
          if name.Err? {
            IndexUpToStaysFailed(ds, i + 1, |ds|, spell);
            return Err(name.error);
          }
          idx := idx[name.value := FuncSlot(i)];
      }
    }
    r := Ok(idx);
  }

  lemma {:induction false} IndexUpToStaysFailed(ds: seq<Decl>, m: nat, n: nat, spell: seq<string>)
    requires m <= n <= |ds| && IndexUpTo(ds, m, spell).Err?
    ensures IndexUpTo(ds, n, spell) == IndexUpTo(ds, m, spell)
    decreases n
  {
    if n > m {
      IndexUpToStaysFailed(ds, m, n - 1, spell);
    }
  }

  // Soundness: every key leads to a slot carrying it.

  lemma {:induction false} IndexValueNamesSound(idx: Index, ds: seq<Decl>, i: nat, j: nat, n: nat, spell: seq<string>)
    requires i < |ds| && ds[i].ValueDecl? && j < |ds[i].valueSpecs|
    requires n <= |ds[i].valueSpecs[j].names|
    requires Sound(idx, ds, spell)
    ensures Sound(IndexValueNames(idx, ds, i, j, n, spell), ds, spell)
  {
    if n > 0 {
      IndexValueNamesSound(idx, ds, i, j, n - 1, spell);
    }
  }

  lemma {:induction false} IndexValueSpecsSound(idx: Index, ds: seq<Decl>, i: nat, n: nat, spell: seq<string>)
    requires i < |ds| && ds[i].ValueDecl? && n <= |ds[i].valueSpecs|
    requires Sound(idx, ds, spell)
    ensures Sound(IndexValueSpecs(idx, ds, i, n, spell), ds, spell)
  {
    if n > 0 {
      IndexValueSpecsSound(idx, ds, i, n - 1, spell);
      IndexValueNamesSound(IndexValueSpecs(idx, ds, i, n - 1, spell), ds, i, n - 1,
                           |ds[i].valueSpecs[n - 1].names|, spell);
    }
  }

  lemma {:induction false} IndexTypeSpecsSound(idx: Index, ds: seq<Decl>, i: nat, n: nat, spell: seq<string>)
    requires i < |ds| && ds[i].TypeDecl? && n <= |ds[i].typeSpecs|
    requires Sound(idx, ds, spell)
    ensures Sound(IndexTypeSpecs(idx, ds, i, n, spell), ds, spell)
  {
    if n > 0 {
      IndexTypeSpecsSound(idx, ds, i, n - 1, spell);
    }
  }

  lemma {:induction false} IndexImportSpecsSound(idx: Index, ds: seq<Decl>, i: nat, n: nat, spell: seq<string>)
    requires i < |ds| && ds[i].ImportDecl? && n <= |ds[i].importSpecs|
    requires Sound(idx, ds, spell)
    ensures Sound(IndexImportSpecs(idx, ds, i, n, spell), ds, spell)
  {
    if n > 0 {
      IndexImportSpecsSound(idx, ds, i, n - 1, spell);
    }
  }

  lemma {:induction false} IndexUpToSound(ds: seq<Decl>, m: nat, spell: seq<string>)
    requires m <= |ds| && IndexUpTo(ds, m, spell).Ok?
    ensures Sound(IndexUpTo(ds, m, spell).value, ds, spell)
  {
    if m > 0 {
      IndexUpToSound(ds, m - 1, spell);
      var idx := IndexUpTo(ds, m - 1, spell).value;
      match ds[m - 1]
      case ValueDecl(_, specs, _) => IndexValueSpecsSound(idx, ds, m - 1, |specs|, spell);
      case TypeDecl(specs, _) => IndexTypeSpecsSound(idx, ds, m - 1, |specs|, spell);
      case ImportDecl(specs, _) => IndexImportSpecsSound(idx, ds, m - 1, |specs|, spell);
      case FuncDecl(_, _, _, _) =>
    }
  }

  /** Every key of the index of the destination declarations leads to a part
      of them that carries that key (ccg.go:97-150). */
  lemma IndexOfSound(ds: seq<Decl>, spell: seq<string>)
    requires IndexOf(ds, spell).Ok?
    ensures Sound(IndexOf(ds, spell).value, ds, spell)
  {
    IndexUpToSound(ds, |ds|, spell);
  }

  // Completeness: every name of the destination declarations is a key.

  lemma {:induction false} IndexValueNamesComplete(idx: Index, ds: seq<Decl>, i: nat, j: nat, n: nat, spell: seq<string>)
    requires i < |ds| && ds[i].ValueDecl? && j < |ds[i].valueSpecs|
    requires n <= |ds[i].valueSpecs[j].names|
    ensures idx.Keys <= IndexValueNames(idx, ds, i, j, n, spell).Keys
    ensures forall k :: 0 <= k < n ==>
      SpellingOf(spell, ds[i].valueSpecs[j].names[k]) in IndexValueNames(idx, ds, i, j, n, spell)
  {
    if n > 0 {
      IndexValueNamesComplete(idx, ds, i, j, n - 1, spell);
    }
  }

  lemma {:induction false} IndexValueSpecsComplete(idx: Index, ds: seq<Decl>, i: nat, n: nat, spell: seq<string>)
    requires i < |ds| && ds[i].ValueDecl? && n <= |ds[i].valueSpecs|
    ensures idx.Keys <= IndexValueSpecs(idx, ds, i, n, spell).Keys
    ensures forall slot :: SlotIn(ds, slot) && slot.ValueSlot? && slot.decl == i && slot.spec < n ==>
      Keyed(IndexValueSpecs(idx, ds, i, n, spell), ds, slot, spell)
  {
    if n > 0 {
      var prev := IndexValueSpecs(idx, ds, i, n - 1, spell);
      IndexValueSpecsComplete(idx, ds, i, n - 1, spell);
      IndexValueNamesComplete(prev, ds, i, n - 1, |ds[i].valueSpecs[n - 1].names|, spell);
    }
  }

  lemma {:induction false} IndexTypeSpecsComplete(idx: Index, ds: seq<Decl>, i: nat, n: nat, spell: seq<string>)
    requires i < |ds| && ds[i].TypeDecl? && n <= |ds[i].typeSpecs|
    ensures idx.Keys <= IndexTypeSpecs(idx, ds, i, n, spell).Keys
    ensures forall slot :: SlotIn(ds, slot) && slot.TypeSlot? && slot.decl == i && slot.spec < n ==>
      Keyed(IndexTypeSpecs(idx, ds, i, n, spell), ds, slot, spell)
  {
    if n > 0 {
      IndexTypeSpecsComplete(idx, ds, i, n - 1, spell);
    }
  }

  lemma {:induction false} IndexImportSpecsComplete(idx: Index, ds: seq<Decl>, i: nat, n: nat, spell: seq<string>)
    requires i < |ds| && ds[i].ImportDecl? && n <= |ds[i].importSpecs|
    ensures idx.Keys <= IndexImportSpecs(idx, ds, i, n, spell).Keys
    ensures forall slot :: SlotIn(ds, slot) && slot.ImportSlot? && slot.decl == i && slot.spec < n ==>
      Keyed(IndexImportSpecs(idx, ds, i, n, spell), ds, slot, spell)
  {
    if n > 0 {
      IndexImportSpecsComplete(idx, ds, i, n - 1, spell);
    }
  }

  /** Indexing one declaration keeps the earlier keys and adds the key of
      each of its parts. */
  lemma IndexDeclComplete(idx: Index, ds: seq<Decl>, i: nat, spell: seq<string>)
    requires i < |ds| && IndexDecl(idx, ds, i, spell).Ok?
    ensures idx.Keys <= IndexDecl(idx, ds, i, spell).value.Keys
    ensures forall slot :: SlotIn(ds, slot) && slot.decl == i ==>
      Keyed(IndexDecl(idx, ds, i, spell).value, ds, slot, spell)
  {
    match ds[i]
    case ValueDecl(_, specs, _) => IndexValueSpecsComplete(idx, ds, i, |specs|, spell);
    case TypeDecl(specs, _) => IndexTypeSpecsComplete(idx, ds, i, |specs|, spell);
    case ImportDecl(specs, _) => IndexImportSpecsComplete(idx, ds, i, |specs|, spell);
    case FuncDecl(_, _, _, _) =>
  }

  lemma {:induction false} IndexUpToComplete(ds: seq<Decl>, m: nat, spell: seq<string>)
    requires m <= |ds| && IndexUpTo(ds, m, spell).Ok?
    ensures forall slot :: SlotIn(ds, slot) && slot.decl < m ==>
      Keyed(IndexUpTo(ds, m, spell).value, ds, slot, spell)
  {
    if m > 0 {
      IndexUpToComplete(ds, m - 1, spell);
      var idx := IndexUpTo(ds, m - 1, spell).value;
      var r := IndexUpTo(ds, m, spell).value;
      IndexDeclComplete(idx, ds, m - 1, spell);
      forall slot | SlotIn(ds, slot) && slot.decl < m
        ensures Keyed(r, ds, slot, spell)
      {
        if slot.decl < m - 1 {
          assert Keyed(idx, ds, slot, spell);
        }
      }
    }
  }

  /** Every name of the destination declarations is a key of their index. */
  lemma IndexOfComplete(ds: seq<Decl>, spell: seq<string>)
    requires IndexOf(ds, spell).Ok?
    ensures forall slot :: SlotIn(ds, slot) ==> Keyed(IndexOf(ds, spell).value, ds, slot, spell)
  {
    IndexUpToComplete(ds, |ds|, spell);
  }

  /** The destination method whose receiver type is not a plain identifier. */
  predicate BadRecvAt(ds: seq<Decl>, i: int) {
    0 <= i < |ds| && ds[i].FuncDecl? && ds[i].recv.Some? && ds[i].recv.value.RecvOther?
  }

  lemma {:induction false} IndexUpToFails(ds: seq<Decl>, m: nat, spell: seq<string>)
    requires m <= |ds|
    ensures IndexUpTo(ds, m, spell).Err? <==> exists i :: 0 <= i < m && BadRecvAt(ds, i)
    ensures IndexUpTo(ds, m, spell).Err? ==> IndexUpTo(ds, m, spell).error.Panic?
  {
    if m > 0 {
      IndexUpToFails(ds, m - 1, spell);
      if BadRecvAt(ds, m - 1) {
        assert IndexUpTo(ds, m, spell).Err?;
      }
    }
  }

  /** Indexing fails exactly when some destination method has a receiver
      type other than a plain identifier, and then by a panic. */
  lemma IndexOfFails(ds: seq<Decl>, spell: seq<string>)
    ensures IndexOf(ds, spell).Err? <==> exists i :: BadRecvAt(ds, i)
    ensures IndexOf(ds, spell).Err? ==> IndexOf(ds, spell).error.Panic?
  {
    IndexUpToFails(ds, |ds|, spell);
  }

  // ---------------------------------------------------------------------
  // Overwriting a slot: what a closure of existingDecls does when called.

  /** e agrees with d on everything a slot depends on: its kind, token and
      doc, and per spec its names and number of values, its type name, or
      its import alias. */
  predicate SameShape(d: Decl, e: Decl) {
    match d
    case FuncDecl(_, _, _, _) => e.FuncDecl?
    case ValueDecl(tok, specs, doc) =>
      && e.ValueDecl? && e.tok == tok && e.doc == doc && |e.valueSpecs| == |specs|
      && forall j :: 0 <= j < |specs| ==>
           e.valueSpecs[j].names == specs[j].names && |e.valueSpecs[j].values| == |specs[j].values|
    case TypeDecl(specs, doc) =>
      && e.TypeDecl? && e.doc == doc && |e.typeSpecs| == |specs|
      && forall j :: 0 <= j < |specs| ==> e.typeSpecs[j].name == specs[j].name
    case ImportDecl(specs, doc) =>
      && e.ImportDecl? && e.doc == doc && |e.importSpecs| == |specs|
      && forall j :: 0 <= j < |specs| ==> e.importSpecs[j].alias == specs[j].alias
  }

  /** Two declaration lists agree on every slot's position: same length,
      and declarations at the same position have the same shape. */
  predicate SameShapes(a: seq<Decl>, b: seq<Decl>) {
    |a| == |b| &&
    (a == [] || (SameShapes(a[..|a| - 1], b[..|b| - 1]) && SameShape(a[|a| - 1], b[|b| - 1])))
  }

  lemma {:induction false} SameShapesAt(a: seq<Decl>, b: seq<Decl>, i: nat)
    requires SameShapes(a, b) && i < |a|
    ensures SameShape(a[i], b[i])
  {
    if i < |a| - 1 {
      SameShapesAt(a[..|a| - 1], b[..|b| - 1], i);
    }
  }

  lemma {:induction false} SameShapesPointwise(a: seq<Decl>, b: seq<Decl>)
    requires |a| == |b| && forall i :: 0 <= i < |a| ==> SameShape(a[i], b[i])
    ensures SameShapes(a, b)
  {
    if a != [] {
      SameShapesPointwise(a[..|a| - 1], b[..|b| - 1]);
    }
  }

  lemma {:induction false} SameShapesTrans(a: seq<Decl>, b: seq<Decl>, c: seq<Decl>)
    requires SameShapes(a, b) && SameShapes(b, c)
    ensures SameShapes(a, c)
  {
    if a != [] {
      SameShapesTrans(a[..|a| - 1], b[..|b| - 1], c[..|c| - 1]);
    }
  }

  /** The declarations some slot of the index points into. */
  function Targets(idx: Index): set<nat> {
    set key | key in idx :: idx[key].decl
  }

  /** b is a after overwriting slots of idx: same shape, and every
      declaration no slot points into is unchanged. */
  predicate Evolves(idx: Index, a: seq<Decl>, b: seq<Decl>) {
    SameShapes(a, b) &&
    forall i :: 0 <= i < |a| && i !in Targets(idx) ==> b[i] == a[i]
  }

  lemma EvolvesTrans(idx: Index, a: seq<Decl>, b: seq<Decl>, c: seq<Decl>)
    requires Evolves(idx, a, b) && Evolves(idx, b, c)
    ensures Evolves(idx, a, c)
  {
    SameShapesTrans(a, b, c);
  }

  lemma EvolvesRefl(idx: Index, a: seq<Decl>)
    ensures Evolves(idx, a, a)
  {
    SameShapesPointwise(a, a);
  }

  /** Slots stay valid while the declarations keep their shape. */
  lemma AllInKept(idx: Index, a: seq<Decl>, b: seq<Decl>)
    requires AllIn(idx, a) && SameShapes(a, b)
    ensures AllIn(idx, b)
  {
    forall key | key in idx
      ensures SlotIn(b, idx[key])
    {
      var slot := idx[key];
      SameShapesAt(a, b, slot.decl);
      match slot
      case ValueSlot(i, j, k) =>
        assert b[i].valueSpecs[j].names == a[i].valueSpecs[j].names;
      case TypeSlot(i, _) =>
      case ImportSlot(i, _) =>
      case FuncSlot(_) =>
    }
  }

  /** The closure's type assertion (and, for a var/const name, its index)
      succeeds on this payload. */
  predicate Fits(ds: seq<Decl>, slot: Slot, p: Payload)
    requires SlotIn(ds, slot)
  {
    match slot
    case ValueSlot(i, j, k) => p.ExprPayload? && k < |ds[i].valueSpecs[j].values|
    case TypeSlot(_, _) => p.ExprPayload?
    case ImportSlot(_, _) => p.ExprPayload? && p.expr.BasicLit?
    case FuncSlot(_) => p.DeclPayload? && p.decl.FuncDecl?
  }

  /** What the part a slot names currently holds, as a closure argument:
      None for a var/const name that has no value. */
  function Part(ds: seq<Decl>, slot: Slot): Option<Payload>
    requires SlotIn(ds, slot)
  {
    match slot
    case ValueSlot(i, j, k) =>
      if k < |ds[i].valueSpecs[j].values| then Some(ExprPayload(ds[i].valueSpecs[j].values[k])) else None
    case TypeSlot(i, j) => Some(ExprPayload(ds[i].typeSpecs[j].typ))
    case ImportSlot(i, j) => Some(ExprPayload(BasicLit(ds[i].importSpecs[j].path)))
    case FuncSlot(i) => Some(DeclPayload(ds[i]))
  }

  /** The slot holds the payload. */
  predicate Holds(ds: seq<Decl>, slot: Slot, p: Payload)
    requires SlotIn(ds, slot)
  {
    Part(ds, slot) == Some(p)
  }

  /** b is the declaration a with nothing changed but the one field the
      slot names: a value of one spec, the type of one type spec, the path
      of one import spec, or, for a function, the whole declaration. */
  predicate OnlyPart(a: Decl, b: Decl, slot: Slot) {
    match slot
    case ValueSlot(_, j, k) =>
      && a.ValueDecl? && b.ValueDecl? && b.tok == a.tok && b.doc == a.doc
      && j < |a.valueSpecs| == |b.valueSpecs|
      && (forall m :: 0 <= m < |a.valueSpecs| && m != j ==> b.valueSpecs[m] == a.valueSpecs[m])
      && b.valueSpecs[j].names == a.valueSpecs[j].names && b.valueSpecs[j].typ == a.valueSpecs[j].typ
      && |b.valueSpecs[j].values| == |a.valueSpecs[j].values|
      && (forall m :: 0 <= m < |a.valueSpecs[j].values| && m != k ==>
            b.valueSpecs[j].values[m] == a.valueSpecs[j].values[m])
    case TypeSlot(_, j) =>
      && a.TypeDecl? && b.TypeDecl? && b.doc == a.doc
      && j < |a.typeSpecs| == |b.typeSpecs|
      && (forall m :: 0 <= m < |a.typeSpecs| && m != j ==> b.typeSpecs[m] == a.typeSpecs[m])
      && b.typeSpecs[j].name == a.typeSpecs[j].name
    case ImportSlot(_, j) =>
      && a.ImportDecl? && b.ImportDecl? && b.doc == a.doc
      && j < |a.importSpecs| == |b.importSpecs|
      && (forall m :: 0 <= m < |a.importSpecs| && m != j ==> b.importSpecs[m] == a.importSpecs[m])
      && b.importSpecs[j].alias == a.importSpecs[j].alias
    case FuncSlot(_) => true
  }

  /** Call the closure of a slot (ccg.go:110-112, 120-122, 135-137, 146-148):
      it panics unless the payload fits, and otherwise puts the payload in the
      slot and changes no other declaration (ApplyOnlyPart: nor the rest of
      the slot's own declaration). */
  function Apply(ds: seq<Decl>, slot: Slot, p: Payload): (r: Result<seq<Decl>>)
    requires SlotIn(ds, slot)
    ensures r.Ok? <==> Fits(ds, slot, p)
    ensures r.Err? ==> r.error.Panic?
    ensures r.Ok? ==> SameShapes(ds, r.value) && SlotIn(r.value, slot) && Holds(r.value, slot, p)
    ensures r.Ok? ==> forall i :: 0 <= i < |ds| && i != slot.decl ==> r.value[i] == ds[i]
  {
    if !Fits(ds, slot, p) then
      Err(Panic(if slot.ValueSlot? && p.ExprPayload? then "index out of range" else "interface conversion"))
    else
      var d := ds[slot.decl];
      var d' :=
        match slot
        case ValueSlot(_, j, k) =>
          var s := d.valueSpecs[j];
          d.(valueSpecs := d.valueSpecs[j := s.(values := s.values[k := p.expr])])
        case TypeSlot(_, j) => d.(typeSpecs := d.typeSpecs[j := d.typeSpecs[j].(typ := p.expr)])
        case ImportSlot(_, j) => d.(importSpecs := d.importSpecs[j := d.importSpecs[j].(path := p.expr.text)])
        case FuncSlot(_) => p.decl;
      var r := ds[slot.decl := d'];
      assert SameShape(d, d');
      SameShapesPointwise(ds, r);
      Ok(r)
  }

  /** A closure writes the one field its slot names and nothing else of
      that declaration (ccg.go:112, 122, 137, 148). */
  lemma ApplyOnlyPart(ds: seq<Decl>, slot: Slot, p: Payload)
    requires SlotIn(ds, slot) && Apply(ds, slot, p).Ok?
    ensures |Apply(ds, slot, p).value| == |ds|
    ensures OnlyPart(ds[slot.decl], Apply(ds, slot, p).value[slot.decl], slot)
  {
  }

  /** Calling the closure of a key of the index. */
  lemma ApplyEvolves(idx: Index, ds: seq<Decl>, key: string, p: Payload)
    requires AllIn(idx, ds) && key in idx && Apply(ds, idx[key], p).Ok?
    ensures Evolves(idx, ds, Apply(ds, idx[key], p).value)
  {
    assert idx[key].decl in Targets(idx);
  }

  /** One call of the closure of key on payload. */
  datatype Write = Write(key: string, payload: Payload)

  /** Call the closure of the write's key, or nothing when the index lacks
      the key. */
  function ReplayStep(ds: seq<Decl>, idx: Index, w: Write): (r: Result<seq<Decl>>)
    requires AllIn(idx, ds)
    ensures r.Ok? ==> AllIn(idx, r.value) && Evolves(idx, ds, r.value)
    ensures r.Err? ==> r.error.Panic?
  {
    if w.key !in idx then EvolvesRefl(idx, ds); Ok(ds)
    else
      match Apply(ds, idx[w.key], w.payload)
      case Err(e) => Err(e)
      case Ok(ds1) =>
        ApplyEvolves(idx, ds, w.key, w.payload);
        AllInKept(idx, ds, ds1);
        Ok(ds1)
  }

  /** Call the closures of the writes in order, stopping at the first
      panic. */
  function Replay(ds: seq<Decl>, idx: Index, ws: seq<Write>): (r: Result<seq<Decl>>)
    requires AllIn(idx, ds)
    ensures r.Ok? ==> AllIn(idx, r.value) && Evolves(idx, ds, r.value)
    ensures r.Err? ==> r.error.Panic?
    decreases |ws|
  {
    if ws == [] then EvolvesRefl(idx, ds); Ok(ds)
    else
      match Replay(ds, idx, ws[..|ws| - 1])
      case Err(e) => Err(e)
      case Ok(ds1) =>
        var r := ReplayStep(ds1, idx, ws[|ws| - 1]);
        if r.Ok? then EvolvesTrans(idx, ds, ds1, r.value); r else r
  }

  lemma ReplayOne(ds: seq<Decl>, idx: Index, w: Write)
    requires AllIn(idx, ds)
    ensures Replay(ds, idx, [w]) == ReplayStep(ds, idx, w)
  {
    assert [w][..0] == [];
  }

  /** Replaying ws then one more write. */
  lemma ReplaySnoc(ds: seq<Decl>, idx: Index, ws: seq<Write>, w: Write)
    requires AllIn(idx, ds)
    ensures Replay(ds, idx, ws + [w]) ==
      match Replay(ds, idx, ws)
      case Err(e) => Err(e)
      case Ok(ds1) => ReplayStep(ds1, idx, w)
  {
    assert (ws + [w])[..|ws|] == ws;
  }

  /** Replaying a + b is replaying a, then b. */
  lemma {:induction false} ReplayAppend(ds: seq<Decl>, idx: Index, a: seq<Write>, b: seq<Write>)
    requires AllIn(idx, ds) && Replay(ds, idx, a).Ok?
    ensures Replay(ds, idx, a + b) == Replay(Replay(ds, idx, a).value, idx, b)
    decreases |b|
  {
    if b == [] {
      assert a + b == a;
    } else {
      var init, w := b[..|b| - 1], b[|b| - 1];
      assert a + b == (a + init) + [w];
      assert b == init + [w];
      ReplayAppend(ds, idx, a, init);
      ReplaySnoc(ds, idx, a + init, w);
      ReplaySnoc(Replay(ds, idx, a).value, idx, init, w);
    }
  }

  /** The key's last write in ws, if any. */
  function LastWrite(ws: seq<Write>, key: string): Option<Payload> {
    if ws == [] then None
    else if ws[|ws| - 1].key == key then Some(ws[|ws| - 1].payload)
    else LastWrite(ws[..|ws| - 1], key)
  }

  lemma {:induction false} LastWriteAppend(a: seq<Write>, b: seq<Write>, key: string)
    ensures LastWrite(a + b, key) == if LastWrite(b, key).Some? then LastWrite(b, key) else LastWrite(a, key)
    decreases |b|
  {
    if b == [] {
      assert a + b == a;
    } else {
      assert (a + b)[..|a + b| - 1] == a + b[..|b| - 1];
      LastWriteAppend(a, b[..|b| - 1], key);
    }
  }

  /** No two keys of the index share a slot. */
  predicate Distinct(idx: Index) {
    forall a, b :: a in idx && b in idx && a != b ==> idx[a] != idx[b]
  }

  /** A key of the destination names one part only. */
  lemma IndexOfDistinct(ds: seq<Decl>, spell: seq<string>)
    requires IndexOf(ds, spell).Ok?
    ensures Distinct(IndexOf(ds, spell).value)
  {
    var idx := IndexOf(ds, spell).value;
    IndexOfSound(ds, spell);
    forall a, b | a in idx && b in idx && idx[a] == idx[b]
      ensures a == b
    {
      assert KeyAt(ds, idx[a], spell) == Ok(a);
    }
  }

  /** A closure leaves the part of every other slot as it was. */
  lemma ApplyKeepsOther(ds: seq<Decl>, slot: Slot, p: Payload, other: Slot)
    requires SlotIn(ds, slot) && SlotIn(ds, other) && other != slot && Apply(ds, slot, p).Ok?
    ensures SlotIn(Apply(ds, slot, p).value, other)
    ensures Part(Apply(ds, slot, p).value, other) == Part(ds, other)
  {
    ApplyOnlyPart(ds, slot, p);
  }

  /** After replaying, the slot of each key holds the payload of the key's
      last write, or, with no write to the key, what it held before. */
  lemma {:induction false} ReplayLands(ds: seq<Decl>, idx: Index, ws: seq<Write>, key: string)
    requires AllIn(idx, ds) && Distinct(idx) && key in idx && Replay(ds, idx, ws).Ok?
    ensures SlotIn(Replay(ds, idx, ws).value, idx[key])
    ensures Part(Replay(ds, idx, ws).value, idx[key]) ==
      if LastWrite(ws, key).Some? then LastWrite(ws, key) else Part(ds, idx[key])
    decreases |ws|
  {
    if ws != [] {
      var w := ws[|ws| - 1];
      ReplayLands(ds, idx, ws[..|ws| - 1], key);
      var ds1 := Replay(ds, idx, ws[..|ws| - 1]).value;
      if w.key in idx && w.key != key {
        ApplyKeepsOther(ds1, idx[w.key], w.payload, idx[key]);
      }
    }
  }

  // ---------------------------------------------------------------------
  // The closure calls each template declaration makes, in order.

  /** The k-th name of a template value spec writes its value to its key;
      a name without a value writes nothing (and merging panics on it when
      the index holds its key). */
  function NameWrite(s: ValueSpec, k: nat, spell: seq<string>): seq<Write>
    requires k < |s.names|
  {
    if k < |s.values| then [Write(SpellingOf(spell, s.names[k]), ExprPayload(s.values[k]))] else []
  }

  function NameWrites(s: ValueSpec, n: nat, spell: seq<string>): seq<Write>
    requires n <= |s.names|
  {
    if n == 0 then []
    else if n - 1 < |s.values| then
      NameWrites(s, n - 1, spell) + [Write(SpellingOf(spell, s.names[n - 1]), ExprPayload(s.values[n - 1]))]
    else NameWrites(s, n - 1, spell)
  }

  function ValueWrites(specs: seq<ValueSpec>, spell: seq<string>): seq<Write> {
    if specs == [] then []
    else
      var s := specs[|specs| - 1];
      ValueWrites(specs[..|specs| - 1], spell) + NameWrites(s, |s.names|, spell)
  }

  /** A template type spec writes its type to its name. */
  function TypeWrites(specs: seq<TypeSpec>, spell: seq<string>): seq<Write> {
    if specs == [] then []
    else
      var s := specs[|specs| - 1];
      TypeWrites(specs[..|specs| - 1], spell) + [Write(SpellingOf(spell, s.name), ExprPayload(s.typ))]
  }

  /** A template import spec writes its path to its alias-or-path. */
  function ImportWrites(specs: seq<ImportSpec>, spell: seq<string>): seq<Write> {
    if specs == [] then []
    else
      var s := specs[|specs| - 1];
      ImportWrites(specs[..|specs| - 1], spell) + [Write(ImportName(s, spell), ExprPayload(BasicLit(s.path)))]
  }

  /** A template function writes itself, whole, to its key. */
  function DeclWrites(d: Decl, spell: seq<string>): seq<Write> {
    match d
    case ValueDecl(_, specs, _) => ValueWrites(specs, spell)
    case TypeDecl(specs, _) => TypeWrites(specs, spell)
    case ImportDecl(specs, _) => ImportWrites(specs, spell)
    case FuncDecl(_, _, _, _) =>
      match FuncName(d, spell)
      case Ok(key) => [Write(key, DeclPayload(d))]
      case Err(_) => []
  }

  /** The writes of the template declarations, declaration after
      declaration. */
  function Writes(tds: seq<Decl>, spell: seq<string>): seq<Write> {
    Concat(tds, d => DeclWrites(d, spell))
  }

  // ---------------------------------------------------------------------
  // Merging the template declarations (ccg.go:153-226).

  /** The criterion "not absorbed": a name whose key the index lacks. */
  function Unabsorbed(idx: Index, spell: seq<string>): Criterion {
    NotPlaceholder(idx.Keys, spell)
  }

  /** One name of a template value spec (ccg.go:166-170, corrected): an
      absorbed name's value goes to its slot, any other name is kept with
      its value. */
  function MergedName(ds: seq<Decl>, names: seq<IdentId>, values: seq<Expr>, s: ValueSpec, k: nat,
                      idx: Index, spell: seq<string>)
    : (r: Result<(seq<Decl>, seq<IdentId>, seq<Expr>)>)
    requires k < |s.names| && AllIn(idx, ds)
    ensures r.Ok? ==> Evolves(idx, ds, r.value.0)
    ensures r.Err? ==> r.error.Panic?
  {
    var key := SpellingOf(spell, s.names[k]);
    if key !in idx then
      EvolvesRefl(idx, ds);
      Ok((ds, names + [s.names[k]], AppendValue(values, s, k)))
    else if k >= |s.values| then
      Err(Panic("index out of range"))
    else
      var p := ExprPayload(s.values[k]);
      match Apply(ds, idx[key], p)
      case Err(e) => Err(e)
      case Ok(ds1) =>
        ApplyEvolves(idx, ds, key, p);
        Ok((ds1, names, values))
  }

  /** The names and values a name step keeps: the name with its value
      when the index lacks its key, nothing otherwise. */
  lemma MergedNameKeeps(ds: seq<Decl>, names: seq<IdentId>, values: seq<Expr>, s: ValueSpec, k: nat,
                        idx: Index, spell: seq<string>)
    requires k < |s.names| && AllIn(idx, ds) && MergedName(ds, names, values, s, k, idx, spell).Ok?
    ensures var r := MergedName(ds, names, values, s, k, idx, spell).value;
      (r.1, r.2) ==
        if SpellingOf(spell, s.names[k]) in idx then (names, values)
        else (names + [s.names[k]], AppendValue(values, s, k))
  {
  }

  /** An absorbed name's value lands in its slot, and a name the index
      lacks leaves the destination as it was (ccg.go:166-168). */
  lemma MergedNameAbsorbs(ds: seq<Decl>, names: seq<IdentId>, values: seq<Expr>, s: ValueSpec, k: nat,
                          idx: Index, spell: seq<string>)
    requires k < |s.names| && AllIn(idx, ds) && MergedName(ds, names, values, s, k, idx, spell).Ok?
    ensures var r := MergedName(ds, names, values, s, k, idx, spell).value;
      var key := SpellingOf(spell, s.names[k]);
      && (key in idx ==> k < |s.values| && SlotIn(r.0, idx[key]) && Holds(r.0, idx[key], ExprPayload(s.values[k])))
      && (key !in idx ==> r.0 == ds)
  {
  }

  lemma NameWriteSkipped(ds: seq<Decl>, idx: Index, s: ValueSpec, k: nat, spell: seq<string>)
    requires k < |s.names| && AllIn(idx, ds) && SpellingOf(spell, s.names[k]) !in idx
    ensures Replay(ds, idx, NameWrite(s, k, spell)) == Ok(ds)
  {
    if k < |s.values| {
      ReplayOne(ds, idx, Write(SpellingOf(spell, s.names[k]), ExprPayload(s.values[k])));
    }
  }

  /** The first n names of a template value spec. */
  function MergedNames(ds: seq<Decl>, s: ValueSpec, n: nat, idx: Index, spell: seq<string>)
    : (r: Result<(seq<Decl>, seq<IdentId>, seq<Expr>)>)
    requires n <= |s.names| && AllIn(idx, ds)
    ensures r.Ok? ==> Evolves(idx, ds, r.value.0)
    ensures r.Err? ==> r.error.Panic?
  {
    if n == 0 then EvolvesRefl(idx, ds); Ok((ds, [], []))
    else
      match MergedNames(ds, s, n - 1, idx, spell)
      case Err(e) => Err(e)
      case Ok(prev) =>
        AllInKept(idx, ds, prev.0);
        var r := MergedName(prev.0, prev.1, prev.2, s, n - 1, idx, spell);
        if r.Ok? then EvolvesTrans(idx, ds, prev.0, r.value.0); r else r
  }

  /** What is left of a template value spec once its absorbed names are
      gone, if anything. */
  function Remainder(s: ValueSpec, names: seq<IdentId>, values: seq<Expr>): seq<ValueSpec> {
    if |names| > 0 then [ValueSpec(names, values, s.typ)] else []
  }

  function MergedValueSpecs(ds: seq<Decl>, specs: seq<ValueSpec>, idx: Index, spell: seq<string>)
    : (r: Result<(seq<Decl>, seq<ValueSpec>)>)
    requires AllIn(idx, ds)
    ensures r.Ok? ==> Evolves(idx, ds, r.value.0)
    ensures r.Err? ==> r.error.Panic?
    decreases |specs|
  {
    if specs == [] then EvolvesRefl(idx, ds); Ok((ds, []))
    else
      match MergedValueSpecs(ds, specs[..|specs| - 1], idx, spell)
      case Err(e) => Err(e)
      case Ok((ds1, out)) =>
        var s := specs[|specs| - 1];
        AllInKept(idx, ds, ds1);
        match MergedNames(ds1, s, |s.names|, idx, spell)
        case Err(e) => Err(e)
        case Ok((ds2, names, values)) =>
          EvolvesTrans(idx, ds, ds1, ds2);
          Ok((ds2, out + Remainder(s, names, values)))
  }

  /** One template type spec (ccg.go:181-187): absorbed into its slot, or
      kept. */
  function MergedTypeSpec(ds: seq<Decl>, out: seq<TypeSpec>, s: TypeSpec, idx: Index, spell: seq<string>)
    : (r: Result<(seq<Decl>, seq<TypeSpec>)>)
    requires AllIn(idx, ds)
    ensures r.Ok? ==> Evolves(idx, ds, r.value.0)
    ensures r.Ok? ==> r.value.1 == out + if SpellingOf(spell, s.name) in idx then [] else [s]
    ensures r.Err? ==> r.error.Panic? && SpellingOf(spell, s.name) in idx
  {
    var key := SpellingOf(spell, s.name);
    if key !in idx then EvolvesRefl(idx, ds); Ok((ds, out + [s]))
    else
      match Apply(ds, idx[key], ExprPayload(s.typ))
      case Err(e) => Err(e)
      case Ok(ds1) =>
        ApplyEvolves(idx, ds, key, ExprPayload(s.typ));
        Ok((ds1, out))
  }

  function MergedTypeSpecs(ds: seq<Decl>, specs: seq<TypeSpec>, idx: Index, spell: seq<string>)
    : (r: Result<(seq<Decl>, seq<TypeSpec>)>)
    requires AllIn(idx, ds)
    ensures r.Ok? ==> Evolves(idx, ds, r.value.0)
    ensures r.Err? ==> r.error.Panic?
    decreases |specs|
  {
    if specs == [] then EvolvesRefl(idx, ds); Ok((ds, []))
    else
      match MergedTypeSpecs(ds, specs[..|specs| - 1], idx, spell)
      case Err(e) => Err(e)
      case Ok((ds1, out)) =>
        AllInKept(idx, ds, ds1);
        match MergedTypeSpec(ds1, out, specs[|specs| - 1], idx, spell)
        case Err(e) => Err(e)
        case Ok((ds2, out2)) =>
          EvolvesTrans(idx, ds, ds1, ds2);
          Ok((ds2, out2))
  }

  /** One template import spec (ccg.go:197-207): absorbed into the slot of
      its alias-or-path, or kept. */
  function MergedImportSpec(ds: seq<Decl>, out: seq<ImportSpec>, s: ImportSpec, idx: Index, spell: seq<string>)
    : (r: Result<(seq<Decl>, seq<ImportSpec>)>)
    requires AllIn(idx, ds)
    ensures r.Ok? ==> Evolves(idx, ds, r.value.0)
    ensures r.Ok? ==> r.value.1 == out + if ImportName(s, spell) in idx then [] else [s]
    ensures r.Err? ==> r.error.Panic? && ImportName(s, spell) in idx
  {
    var key := ImportName(s, spell);
    if key !in idx then EvolvesRefl(idx, ds); Ok((ds, out + [s]))
    else
      match Apply(ds, idx[key], ExprPayload(BasicLit(s.path)))
      case Err(e) => Err(e)
      case Ok(ds1) =>
        ApplyEvolves(idx, ds, key, ExprPayload(BasicLit(s.path)));
        Ok((ds1, out))
  }

  function MergedImportSpecs(ds: seq<Decl>, specs: seq<ImportSpec>, idx: Index, spell: seq<string>)
    : (r: Result<(seq<Decl>, seq<ImportSpec>)>)
    requires AllIn(idx, ds)
    ensures r.Ok? ==> Evolves(idx, ds, r.value.0)
    ensures r.Err? ==> r.error.Panic?
    decreases |specs|
  {
    if specs == [] then EvolvesRefl(idx, ds); Ok((ds, []))
    else
      match MergedImportSpecs(ds, specs[..|specs| - 1], idx, spell)
      case Err(e) => Err(e)
      case Ok((ds1, out)) =>
        AllInKept(idx, ds, ds1);
        match MergedImportSpec(ds1, out, specs[|specs| - 1], idx, spell)
        case Err(e) => Err(e)
        case Ok((ds2, out2)) =>
          EvolvesTrans(idx, ds, ds1, ds2);
          Ok((ds2, out2))
  }

  /** One template declaration: the updated destination declarations and
      the new declarations it contributes (none, or one). */
  function MergedDecl(ds: seq<Decl>, d: Decl, idx: Index, spell: seq<string>)
    : (r: Result<(seq<Decl>, seq<Decl>)>)
    requires AllIn(idx, ds)
    ensures r.Ok? ==> Evolves(idx, ds, r.value.0) && |r.value.1| <= 1
    ensures r.Err? ==> r.error.Panic?
  {
    match d
    case ValueDecl(tok, specs, _) =>
      (match MergedValueSpecs(ds, specs, idx, spell)
       case Err(e) => Err(e)
       case Ok((ds1, out)) => Ok((ds1, if |out| > 0 then [ValueDecl(tok, out, NoDoc)] else [])))
    case TypeDecl(specs, _) =>
      (match MergedTypeSpecs(ds, specs, idx, spell)
       case Err(e) => Err(e)
       case Ok((ds1, out)) => Ok((ds1, if |out| > 0 then [TypeDecl(out, NoDoc)] else [])))
    case ImportDecl(specs, _) =>
      (match MergedImportSpecs(ds, specs, idx, spell)
       case Err(e) => Err(e)
       case Ok((ds1, out)) => Ok((ds1, if |out| > 0 then [ImportDecl(out, NoDoc)] else [])))
    case FuncDecl(_, _, _, _) => MergedFunc(ds, d, idx, spell)
  }

  /** One template function (ccg.go:212-224): absorbed into the slot of its
      key, or kept. A method whose receiver is not a plain identifier
      panics. */
  function MergedFunc(ds: seq<Decl>, d: Decl, idx: Index, spell: seq<string>)
    : (r: Result<(seq<Decl>, seq<Decl>)>)
    requires d.FuncDecl? && AllIn(idx, ds)
    ensures r.Ok? ==> Evolves(idx, ds, r.value.0)
    ensures r.Ok? ==> r.value.1 == if AbsorbedFunc(idx, spell, d) then [] else [d]
    ensures r.Err? ==> r.error.Panic?
    ensures FuncName(d, spell).Err? ==> r.Err?
  {
    match FuncName(d, spell)
    case Err(e) => Err(e)
    case Ok(key) =>
      if key !in idx then EvolvesRefl(idx, ds); Ok((ds, [d]))
      else
        match Apply(ds, idx[key], DeclPayload(d))
        case Err(e) => Err(e)
        case Ok(ds1) => ApplyEvolves(idx, ds, key, DeclPayload(d)); Ok((ds1, []))
  }

  /** The template declarations in order, threading the destination
      declarations through and collecting the new ones. */
  function MergedDecls(ds: seq<Decl>, tds: seq<Decl>, idx: Index, spell: seq<string>)
    : (r: Result<(seq<Decl>, seq<Decl>)>)
    requires AllIn(idx, ds)
    ensures r.Ok? ==> Evolves(idx, ds, r.value.0)
    ensures r.Err? ==> r.error.Panic?
    decreases |tds|
  {
    if tds == [] then EvolvesRefl(idx, ds); Ok((ds, []))
    else
      match MergedDecls(ds, tds[..|tds| - 1], idx, spell)
      case Err(e) => Err(e)
      case Ok((ds1, news)) =>
        AllInKept(idx, ds, ds1);
        match MergedDecl(ds1, tds[|tds| - 1], idx, spell)
        case Err(e) => Err(e)
        case Ok((ds2, more)) =>
          EvolvesTrans(idx, ds, ds1, ds2);
          Ok((ds2, news + more))
  }

  // ---------------------------------------------------------------------
  // What merging writes: merging calls the closures of the template's
  // writes in template order, so each indexed slot ends up holding what the
  // last write to its key carried.

  lemma MergedNameReplays(ds: seq<Decl>, names: seq<IdentId>, values: seq<Expr>, s: ValueSpec, k: nat,
                          idx: Index, spell: seq<string>)
    requires k < |s.names| && AllIn(idx, ds) && MergedName(ds, names, values, s, k, idx, spell).Ok?
    ensures Replay(ds, idx, NameWrite(s, k, spell)) == Ok(MergedName(ds, names, values, s, k, idx, spell).value.0)
  {
    var key := SpellingOf(spell, s.names[k]);
    if key !in idx {
      NameWriteSkipped(ds, idx, s, k, spell);
    } else {
      ReplayOne(ds, idx, Write(key, ExprPayload(s.values[k])));
    }
  }

  /** An absorbed type lands in its slot, and a type spec the index lacks
      leaves the destination as it was (ccg.go:184-186). */
  lemma MergedTypeSpecAbsorbs(ds: seq<Decl>, out: seq<TypeSpec>, s: TypeSpec, idx: Index, spell: seq<string>)
    requires AllIn(idx, ds) && MergedTypeSpec(ds, out, s, idx, spell).Ok?
    ensures var r := MergedTypeSpec(ds, out, s, idx, spell).value;
      var key := SpellingOf(spell, s.name);
      && (key in idx ==> SlotIn(r.0, idx[key]) && Holds(r.0, idx[key], ExprPayload(s.typ)))
      && (key !in idx ==> r.0 == ds)
  {
  }

  /** An absorbed import's path lands in its slot, and an import the index
      lacks leaves the destination as it was (ccg.go:202-204). */
  lemma MergedImportSpecAbsorbs(ds: seq<Decl>, out: seq<ImportSpec>, s: ImportSpec, idx: Index, spell: seq<string>)
    requires AllIn(idx, ds) && MergedImportSpec(ds, out, s, idx, spell).Ok?
    ensures var r := MergedImportSpec(ds, out, s, idx, spell).value;
      var key := ImportName(s, spell);
      && (key in idx ==> SlotIn(r.0, idx[key]) && Holds(r.0, idx[key], ExprPayload(BasicLit(s.path))))
      && (key !in idx ==> r.0 == ds)
  {
  }

  /** An absorbed function replaces, whole, the declaration of its slot,
      which is a function; any other function leaves the destination as it
      was (ccg.go:146-148, 217-219). */
  lemma MergedFuncAbsorbs(ds: seq<Decl>, d: Decl, idx: Index, spell: seq<string>)
    requires d.FuncDecl? && AllIn(idx, ds) && MergedFunc(ds, d, idx, spell).Ok?
    ensures var r := MergedFunc(ds, d, idx, spell).value;
      && (AbsorbedFunc(idx, spell, d) ==>
            var slot := idx[FuncName(d, spell).value];
            slot.FuncSlot? && slot.decl < |r.0| && r.0[slot.decl] == d)
      && (!AbsorbedFunc(idx, spell, d) ==> r.0 == ds)
  {
  }

  lemma {:induction false} MergedNamesReplays(ds: seq<Decl>, s: ValueSpec, n: nat, idx: Index, spell: seq<string>)
    requires n <= |s.names| && AllIn(idx, ds) && MergedNames(ds, s, n, idx, spell).Ok?
    ensures Replay(ds, idx, NameWrites(s, n, spell)) == Ok(MergedNames(ds, s, n, idx, spell).value.0)
  {
    if n > 0 {
      MergedNamesPrefixOk(ds, s, n - 1, n, idx, spell);
      MergedNamesReplays(ds, s, n - 1, idx, spell);
      MergedNamesReplaysNext(ds, s, n - 1, idx, spell);
    }
  }

  /** The induction step, from the first k names to the first k + 1. */
  lemma MergedNamesReplaysNext(ds: seq<Decl>, s: ValueSpec, k: nat, idx: Index, spell: seq<string>)
    requires k < |s.names| && AllIn(idx, ds) && MergedNames(ds, s, k, idx, spell).Ok?
    requires Replay(ds, idx, NameWrites(s, k, spell)) == Ok(MergedNames(ds, s, k, idx, spell).value.0)
    requires MergedNames(ds, s, k + 1, idx, spell).Ok?
    ensures Replay(ds, idx, NameWrites(s, k + 1, spell)) == Ok(MergedNames(ds, s, k + 1, idx, spell).value.0)
  {
    var prev := MergedNames(ds, s, k, idx, spell).value;
    MergedNamesStep(ds, s, k, idx, spell, prev);
    MergedNameReplaysAfter(ds, prev, s, k, idx, spell);
  }

  /** The induction step: one more name after the writes of the names
      before it. */
  lemma MergedNameReplaysAfter(ds: seq<Decl>, prev: (seq<Decl>, seq<IdentId>, seq<Expr>), s: ValueSpec, k: nat,
                               idx: Index, spell: seq<string>)
    requires k < |s.names| && AllIn(idx, ds) && AllIn(idx, prev.0)
    requires Replay(ds, idx, NameWrites(s, k, spell)) == Ok(prev.0)
    requires MergedName(prev.0, prev.1, prev.2, s, k, idx, spell).Ok?
    ensures Replay(ds, idx, NameWrites(s, k + 1, spell)) == Ok(MergedName(prev.0, prev.1, prev.2, s, k, idx, spell).value.0)
  {
    NameWritesNext(ds, s, k + 1, idx, spell);
    MergedNameReplays(prev.0, prev.1, prev.2, s, k, idx, spell);
  }

  lemma NameWritesNext(ds: seq<Decl>, s: ValueSpec, n: nat, idx: Index, spell: seq<string>)
    requires 0 < n <= |s.names| && AllIn(idx, ds) && Replay(ds, idx, NameWrites(s, n - 1, spell)).Ok?
    ensures Replay(ds, idx, NameWrites(s, n, spell)) ==
      Replay(Replay(ds, idx, NameWrites(s, n - 1, spell)).value, idx, NameWrite(s, n - 1, spell))
  {
    if n - 1 < |s.values| {
      ReplayAppend(ds, idx, NameWrites(s, n - 1, spell), NameWrite(s, n - 1, spell));
    }
  }

  lemma {:induction false} MergedValueSpecsReplays(ds: seq<Decl>, specs: seq<ValueSpec>, idx: Index, spell: seq<string>)
    requires AllIn(idx, ds) && MergedValueSpecs(ds, specs, idx, spell).Ok?
    ensures Replay(ds, idx, ValueWrites(specs, spell)) == Ok(MergedValueSpecs(ds, specs, idx, spell).value.0)
    decreases |specs|
  {
    if specs != [] {
      var init, s := specs[..|specs| - 1], specs[|specs| - 1];
      MergedValueSpecsReplays(ds, init, idx, spell);
      var ds1 := MergedValueSpecs(ds, init, idx, spell).value.0;
      AllInKept(idx, ds, ds1);
      MergedNamesReplays(ds1, s, |s.names|, idx, spell);
      ReplayAppend(ds, idx, ValueWrites(init, spell), NameWrites(s, |s.names|, spell));
    }
  }

  lemma {:induction false} MergedTypeSpecsReplays(ds: seq<Decl>, specs: seq<TypeSpec>, idx: Index, spell: seq<string>)
    requires AllIn(idx, ds) && MergedTypeSpecs(ds, specs, idx, spell).Ok?
    ensures Replay(ds, idx, TypeWrites(specs, spell)) == Ok(MergedTypeSpecs(ds, specs, idx, spell).value.0)
    decreases |specs|
  {
    if specs != [] {
      var init, s := specs[..|specs| - 1], specs[|specs| - 1];
      MergedTypeSpecsReplays(ds, init, idx, spell);
      var ds1 := MergedTypeSpecs(ds, init, idx, spell).value.0;
      AllInKept(idx, ds, ds1);
      var w := Write(SpellingOf(spell, s.name), ExprPayload(s.typ));
      ReplayOne(ds1, idx, w);
      ReplayAppend(ds, idx, TypeWrites(init, spell), [w]);
    }
  }

  lemma {:induction false} MergedImportSpecsReplays(ds: seq<Decl>, specs: seq<ImportSpec>, idx: Index, spell: seq<string>)
    requires AllIn(idx, ds) && MergedImportSpecs(ds, specs, idx, spell).Ok?
    ensures Replay(ds, idx, ImportWrites(specs, spell)) == Ok(MergedImportSpecs(ds, specs, idx, spell).value.0)
    decreases |specs|
  {
    if specs != [] {
      var init, s := specs[..|specs| - 1], specs[|specs| - 1];
      MergedImportSpecsReplays(ds, init, idx, spell);
      var ds1 := MergedImportSpecs(ds, init, idx, spell).value.0;
      AllInKept(idx, ds, ds1);
      var w := Write(ImportName(s, spell), ExprPayload(BasicLit(s.path)));
      ReplayOne(ds1, idx, w);
      ReplayAppend(ds, idx, ImportWrites(init, spell), [w]);
    }
  }

  /** One template declaration: merging it is replaying its writes. */
  lemma MergedDeclReplays(ds: seq<Decl>, d: Decl, idx: Index, spell: seq<string>)
    requires AllIn(idx, ds) && MergedDecl(ds, d, idx, spell).Ok?
    ensures Replay(ds, idx, DeclWrites(d, spell)) == Ok(MergedDecl(ds, d, idx, spell).value.0)
  {
    match d
    case ValueDecl(_, specs, _) => MergedValueSpecsReplays(ds, specs, idx, spell);
    case TypeDecl(specs, _) => MergedTypeSpecsReplays(ds, specs, idx, spell);
    case ImportDecl(specs, _) => MergedImportSpecsReplays(ds, specs, idx, spell);
    case FuncDecl(_, _, _, _) => ReplayOne(ds, idx, Write(FuncName(d, spell).value, DeclPayload(d)));
  }

  /** The whole merge leaves the destination declarations as replaying
      the template's writes, in template order, leaves them. */
  lemma {:induction false} MergedDeclsReplays(ds: seq<Decl>, tds: seq<Decl>, idx: Index, spell: seq<string>)
    requires AllIn(idx, ds) && MergedDecls(ds, tds, idx, spell).Ok?
    ensures Replay(ds, idx, Writes(tds, spell)) == Ok(MergedDecls(ds, tds, idx, spell).value.0)
    decreases |tds|
  {
    if tds != [] {
      var init, d := tds[..|tds| - 1], tds[|tds| - 1];
      MergedDeclsReplays(ds, init, idx, spell);
      var ds1 := MergedDecls(ds, init, idx, spell).value.0;
      AllInKept(idx, ds, ds1);
      MergedDeclReplays(ds1, d, idx, spell);
      ReplayAppend(ds, idx, Writes(init, spell), DeclWrites(d, spell));
    }
  }

  /** After merging, the slot of every key of the index holds what the
      template's last write to that key carried, or, when no template name
      has that key, what it held before. */
  lemma MergedDeclsLand(ds: seq<Decl>, tds: seq<Decl>, idx: Index, spell: seq<string>, key: string)
    requires AllIn(idx, ds) && Distinct(idx) && key in idx && MergedDecls(ds, tds, idx, spell).Ok?
    ensures SlotIn(MergedDecls(ds, tds, idx, spell).value.0, idx[key])
    ensures Part(MergedDecls(ds, tds, idx, spell).value.0, idx[key]) ==
      if LastWrite(Writes(tds, spell), key).Some? then LastWrite(Writes(tds, spell), key) else Part(ds, idx[key])
  {
    MergedDeclsReplays(ds, tds, idx, spell);
    ReplayLands(ds, idx, Writes(tds, spell), key);
  }

  /** The last write to the key of the t-th template declaration, a
      function, is that function when no later declaration writes to the
      key. */
  lemma LastWriteOfFunc(tds: seq<Decl>, t: nat, spell: seq<string>)
    requires t < |tds| && tds[t].FuncDecl? && FuncName(tds[t], spell).Ok?
    requires LastWrite(Writes(tds[t + 1..], spell), FuncName(tds[t], spell).value).None?
    ensures LastWrite(Writes(tds, spell), FuncName(tds[t], spell).value) == Some(DeclPayload(tds[t]))
  {
    var key := FuncName(tds[t], spell).value;
    var f := d => DeclWrites(d, spell);
    assert tds == tds[..t + 1] + tds[t + 1..];
    ConcatAppend(tds[..t + 1], tds[t + 1..], f);
    assert tds[..t + 1][..t] == tds[..t];
    assert Writes(tds[..t + 1], spell) == Writes(tds[..t], spell) + [Write(key, DeclPayload(tds[t]))];
    LastWriteAppend(Writes(tds[..t], spell), [Write(key, DeclPayload(tds[t]))], key);
    LastWriteAppend(Writes(tds[..t + 1], spell), Writes(tds[t + 1..], spell), key);
  }

  /** A matched template function replaces the destination function of its
      key at the same position, unless a later template declaration writes
      to the same key (ccg.go:146-148, 213-219). */
  lemma MergedFuncReplaces(ds: seq<Decl>, tds: seq<Decl>, idx: Index, spell: seq<string>, t: nat)
    requires AllIn(idx, ds) && Distinct(idx) && MergedDecls(ds, tds, idx, spell).Ok?
    requires t < |tds| && AbsorbedFunc(idx, spell, tds[t])
    requires LastWrite(Writes(tds[t + 1..], spell), FuncName(tds[t], spell).value).None?
    ensures idx[FuncName(tds[t], spell).value].FuncSlot?
    ensures var i := idx[FuncName(tds[t], spell).value].decl;
      i < |ds| && MergedDecls(ds, tds, idx, spell).value.0[i] == tds[t]
  {
    var key := FuncName(tds[t], spell).value;
    LastWriteOfFunc(tds, t, spell);
    MergedDeclsLand(ds, tds, idx, spell, key);
    assert SameShapes(ds, MergedDecls(ds, tds, idx, spell).value.0);
  }

  // ---------------------------------------------------------------------
  // What merging guarantees: the new declarations hold exactly the
  // template's names that the index lacks, in the template's order.

  /** Import specs whose key the index lacks, in order. */
  function UnabsorbedImports(idx: Index, spell: seq<string>, specs: seq<ImportSpec>): seq<ImportSpec> {
    if specs == [] then []
    else
      var s := specs[|specs| - 1];
      UnabsorbedImports(idx, spell, specs[..|specs| - 1]) + if ImportName(s, spell) !in idx then [s] else []
  }

  /** A template function whose key the index holds. */
  predicate AbsorbedFunc(idx: Index, spell: seq<string>, d: Decl) {
    d.FuncDecl? && FuncName(d, spell).Ok? && FuncName(d, spell).value in idx
  }

  /** Function declarations whose key the index lacks, in order. */
  function UnabsorbedFuncs(idx: Index, spell: seq<string>, fs: seq<Decl>): seq<Decl> {
    if fs == [] then []
    else
      var f := fs[|fs| - 1];
      UnabsorbedFuncs(idx, spell, fs[..|fs| - 1]) + if AbsorbedFunc(idx, spell, f) then [] else [f]
  }

  lemma {:induction false} UnabsorbedImportsAppend(idx: Index, spell: seq<string>, a: seq<ImportSpec>, b: seq<ImportSpec>)
    ensures UnabsorbedImports(idx, spell, a + b) == UnabsorbedImports(idx, spell, a) + UnabsorbedImports(idx, spell, b)
    decreases |b|
  {
    if b != [] {
      assert (a + b)[..|a + b| - 1] == a + b[..|b| - 1];
      UnabsorbedImportsAppend(idx, spell, a, b[..|b| - 1]);
    } else {
      assert a + b == a;
    }
  }

  lemma {:induction false} UnabsorbedFuncsAppend(idx: Index, spell: seq<string>, a: seq<Decl>, b: seq<Decl>)
    ensures UnabsorbedFuncs(idx, spell, a + b) == UnabsorbedFuncs(idx, spell, a) + UnabsorbedFuncs(idx, spell, b)
    decreases |b|
  {
    if b != [] {
      assert (a + b)[..|a + b| - 1] == a + b[..|b| - 1];
      UnabsorbedFuncsAppend(idx, spell, a, b[..|b| - 1]);
    } else {
      assert a + b == a;
    }
  }

  /** The names a template value spec keeps are those filterDecls would keep
      under the criterion "not absorbed", values included. */
  lemma {:induction false} MergedNamesKept(ds: seq<Decl>, s: ValueSpec, n: nat, idx: Index, spell: seq<string>)
    requires n <= |s.names| && AllIn(idx, ds) && MergedNames(ds, s, n, idx, spell).Ok?
    ensures var r := MergedNames(ds, s, n, idx, spell).value;
      (r.1, r.2) == KeptNames(Unabsorbed(idx, spell), s, n)
  {
    if n > 0 {
      MergedNamesPrefixOk(ds, s, n - 1, n, idx, spell);
      MergedNamesKept(ds, s, n - 1, idx, spell);
      MergedNamesKeptNext(ds, s, n - 1, idx, spell);
    }
  }

  /** The induction step, from the first k names to the first k + 1. */
  lemma MergedNamesKeptNext(ds: seq<Decl>, s: ValueSpec, k: nat, idx: Index, spell: seq<string>)
    requires k < |s.names| && AllIn(idx, ds) && MergedNames(ds, s, k, idx, spell).Ok?
    requires var prev := MergedNames(ds, s, k, idx, spell).value;
      (prev.1, prev.2) == KeptNames(Unabsorbed(idx, spell), s, k)
    requires MergedNames(ds, s, k + 1, idx, spell).Ok?
    ensures var r := MergedNames(ds, s, k + 1, idx, spell).value;
      (r.1, r.2) == KeptNames(Unabsorbed(idx, spell), s, k + 1)
  {
    var prev := MergedNames(ds, s, k, idx, spell).value;
    MergedNamesStep(ds, s, k, idx, spell, prev);
    MergedNameKeptAfter(prev, s, k, idx, spell);
  }

  /** The induction step: one more name after those kept before it. */
  lemma MergedNameKeptAfter(prev: (seq<Decl>, seq<IdentId>, seq<Expr>), s: ValueSpec, k: nat,
                            idx: Index, spell: seq<string>)
    requires k < |s.names| && AllIn(idx, prev.0) && MergedName(prev.0, prev.1, prev.2, s, k, idx, spell).Ok?
    requires (prev.1, prev.2) == KeptNames(Unabsorbed(idx, spell), s, k)
    ensures var r := MergedName(prev.0, prev.1, prev.2, s, k, idx, spell).value;
      (r.1, r.2) == KeptNames(Unabsorbed(idx, spell), s, k + 1)
  {
    MergedNameKeeps(prev.0, prev.1, prev.2, s, k, idx, spell);
    var r := MergedName(prev.0, prev.1, prev.2, s, k, idx, spell).value;
    KeptNamesNext(s, k + 1, idx, spell, prev.1, prev.2, r.1, r.2);
  }

  /** One more name of KeptNames under "not absorbed". */
  lemma KeptNamesNext(s: ValueSpec, n: nat, idx: Index, spell: seq<string>,
                      names: seq<IdentId>, values: seq<Expr>, names': seq<IdentId>, values': seq<Expr>)
    requires 0 < n <= |s.names| && (names, values) == KeptNames(Unabsorbed(idx, spell), s, n - 1)
    requires (names', values') ==
      if SpellingOf(spell, s.names[n - 1]) in idx then (names, values)
      else (names + [s.names[n - 1]], AppendValue(values, s, n - 1))
    ensures (names', values') == KeptNames(Unabsorbed(idx, spell), s, n)
  {
    assert Keeps(Unabsorbed(idx, spell), ValueNode(ValueInfo(s.names[n - 1], ValueAt(s, n - 1), s.typ)))
      <==> SpellingOf(spell, s.names[n - 1]) !in idx;
  }

  lemma {:induction false} MergedValueSpecsNames(ds: seq<Decl>, specs: seq<ValueSpec>, idx: Index, spell: seq<string>)
    requires AllIn(idx, ds) && MergedValueSpecs(ds, specs, idx, spell).Ok?
    ensures Concat(MergedValueSpecs(ds, specs, idx, spell).value.1, SpecNames)
         == FilterIds(Unabsorbed(idx, spell), Concat(specs, SpecNames))
    decreases |specs|
  {
    if specs != [] {
      var c := Unabsorbed(idx, spell);
      var init, s := specs[..|specs| - 1], specs[|specs| - 1];
      var (ds1, out1) := MergedValueSpecs(ds, init, idx, spell).value;
      AllInKept(idx, ds, ds1);
      var (ds2, names, values) := MergedNames(ds1, s, |s.names|, idx, spell).value;
      var rest := Remainder(s, names, values);
      MergedValueSpecsNames(ds, init, idx, spell);
      MergedNamesKept(ds1, s, |s.names|, idx, spell);
      KeptNamesAreFiltered(c, s, |s.names|);
      assert s.names[..|s.names|] == s.names;
      ConcatAppend(out1, rest, SpecNames);
      FilterIdsAppend(c, Concat(init, SpecNames), s.names);
      SingleConcat(rest, SpecNames);
    }
  }

  lemma {:induction false} MergedTypeSpecsNames(ds: seq<Decl>, specs: seq<TypeSpec>, idx: Index, spell: seq<string>)
    requires AllIn(idx, ds) && MergedTypeSpecs(ds, specs, idx, spell).Ok?
    ensures Concat(MergedTypeSpecs(ds, specs, idx, spell).value.1, TypeSpecName)
         == FilterIds(Unabsorbed(idx, spell), Concat(specs, TypeSpecName))
    decreases |specs|
  {
    if specs != [] {
      var c := Unabsorbed(idx, spell);
      var init, s := specs[..|specs| - 1], specs[|specs| - 1];
      var out1 := MergedTypeSpecs(ds, init, idx, spell).value.1;
      var rest := if SpellingOf(spell, s.name) !in idx then [s] else [];
      MergedTypeSpecsNames(ds, init, idx, spell);
      ConcatAppend(out1, rest, TypeSpecName);
      FilterIdsAppend(c, Concat(init, TypeSpecName), [s.name]);
      SingleConcat(rest, TypeSpecName);
      SingleConcat([s], TypeSpecName);
      assert FilterIds(c, [s.name]) == if KeepsName(c, s.name) then [s.name] else [] by {
        assert [s.name][..0] == [];
      }
    }
  }

  lemma {:induction false} MergedImportSpecsKept(ds: seq<Decl>, specs: seq<ImportSpec>, idx: Index, spell: seq<string>)
    requires AllIn(idx, ds) && MergedImportSpecs(ds, specs, idx, spell).Ok?
    ensures MergedImportSpecs(ds, specs, idx, spell).value.1 == UnabsorbedImports(idx, spell, specs)
    decreases |specs|
  {
    if specs != [] {
      MergedImportSpecsKept(ds, specs[..|specs| - 1], idx, spell);
    }
  }

  /** A merged var/const declaration contributes exactly its unabsorbed
      names, and nothing else. */
  lemma MergedValueDeclViews(ds: seq<Decl>, d: Decl, idx: Index, spell: seq<string>)
    requires d.ValueDecl? && AllIn(idx, ds) && MergedDecl(ds, d, idx, spell).Ok?
    ensures var more := MergedDecl(ds, d, idx, spell).value.1;
      ValueNames(more) == FilterIds(Unabsorbed(idx, spell), DeclValueNames(d)) &&
      TypeNames(more) == [] && Imports(more) == [] && Funcs(more) == []
  {
    var more := MergedDecl(ds, d, idx, spell).value.1;
    SingleConcat(more, DeclValueNames);
    SingleConcat(more, DeclTypeNames);
    SingleConcat(more, DeclImports);
    SingleConcat(more, DeclFuncs);
    MergedValueSpecsNames(ds, d.valueSpecs, idx, spell);
  }

  lemma MergedTypeDeclViews(ds: seq<Decl>, d: Decl, idx: Index, spell: seq<string>)
    requires d.TypeDecl? && AllIn(idx, ds) && MergedDecl(ds, d, idx, spell).Ok?
    ensures var more := MergedDecl(ds, d, idx, spell).value.1;
      ValueNames(more) == [] && TypeNames(more) == FilterIds(Unabsorbed(idx, spell), DeclTypeNames(d)) &&
      Imports(more) == [] && Funcs(more) == []
  {
    var more := MergedDecl(ds, d, idx, spell).value.1;
    SingleConcat(more, DeclValueNames);
    SingleConcat(more, DeclTypeNames);
    SingleConcat(more, DeclImports);
    SingleConcat(more, DeclFuncs);
    MergedTypeSpecsNames(ds, d.typeSpecs, idx, spell);
  }

  lemma MergedImportDeclViews(ds: seq<Decl>, d: Decl, idx: Index, spell: seq<string>)
    requires d.ImportDecl? && AllIn(idx, ds) && MergedDecl(ds, d, idx, spell).Ok?
    ensures var more := MergedDecl(ds, d, idx, spell).value.1;
      ValueNames(more) == [] && TypeNames(more) == [] &&
      Imports(more) == UnabsorbedImports(idx, spell, DeclImports(d)) && Funcs(more) == []
  {
    var more := MergedDecl(ds, d, idx, spell).value.1;
    SingleConcat(more, DeclValueNames);
    SingleConcat(more, DeclTypeNames);
    SingleConcat(more, DeclImports);
    SingleConcat(more, DeclFuncs);
    MergedImportSpecsKept(ds, d.importSpecs, idx, spell);
  }

  lemma MergedFuncDeclViews(idx: Index, spell: seq<string>, d: Decl, more: seq<Decl>)
    requires d.FuncDecl? && more == if AbsorbedFunc(idx, spell, d) then [] else [d]
    ensures ValueNames(more) == [] && TypeNames(more) == [] && Imports(more) == [] &&
      Funcs(more) == UnabsorbedFuncs(idx, spell, DeclFuncs(d))
  {
    var absorbed := AbsorbedFunc(idx, spell, d);
    assert UnabsorbedFuncs(idx, spell, [d]) == if absorbed then [] else [d] by {
      assert [d][..0] == [];
    }
    if !absorbed {
      SingleConcat([d], DeclValueNames);
      SingleConcat([d], DeclTypeNames);
      SingleConcat([d], DeclImports);
      SingleConcat([d], DeclFuncs);
    }
  }

  lemma MergedDeclViews(ds: seq<Decl>, d: Decl, idx: Index, spell: seq<string>)
    requires AllIn(idx, ds) && MergedDecl(ds, d, idx, spell).Ok?
    ensures var more := MergedDecl(ds, d, idx, spell).value.1;
      ValueNames(more) == FilterIds(Unabsorbed(idx, spell), DeclValueNames(d)) &&
      TypeNames(more) == FilterIds(Unabsorbed(idx, spell), DeclTypeNames(d)) &&
      Imports(more) == UnabsorbedImports(idx, spell, DeclImports(d)) &&
      Funcs(more) == UnabsorbedFuncs(idx, spell, DeclFuncs(d))
  {
    assert FilterIds(Unabsorbed(idx, spell), []) == [];
    assert UnabsorbedImports(idx, spell, []) == [];
    assert UnabsorbedFuncs(idx, spell, []) == [];
    match d
    case ValueDecl(_, _, _) => MergedValueDeclViews(ds, d, idx, spell);
    case TypeDecl(_, _) => MergedTypeDeclViews(ds, d, idx, spell);
    case ImportDecl(_, _) => MergedImportDeclViews(ds, d, idx, spell);
    case FuncDecl(_, _, _, _) =>
      assert MergedDecl(ds, d, idx, spell) == MergedFunc(ds, d, idx, spell);
      MergedFuncDeclViews(idx, spell, d, MergedDecl(ds, d, idx, spell).value.1);
  }

  /** The new declarations hold exactly the template's var/const names, type
      names, import specs and functions that the destination lacks, each in
      the template's order (ccg.go:153-226). */
  lemma {:induction false} MergedDeclsViews(ds: seq<Decl>, tds: seq<Decl>, idx: Index, spell: seq<string>)
    requires AllIn(idx, ds) && MergedDecls(ds, tds, idx, spell).Ok?
    ensures var news := MergedDecls(ds, tds, idx, spell).value.1;
      ValueNames(news) == FilterIds(Unabsorbed(idx, spell), ValueNames(tds)) &&
      TypeNames(news) == FilterIds(Unabsorbed(idx, spell), TypeNames(tds)) &&
      Imports(news) == UnabsorbedImports(idx, spell, Imports(tds)) &&
      Funcs(news) == UnabsorbedFuncs(idx, spell, Funcs(tds))
    decreases |tds|
  {
    if tds != [] {
      var c := Unabsorbed(idx, spell);
      var init, d := tds[..|tds| - 1], tds[|tds| - 1];
      var (ds1, news1) := MergedDecls(ds, init, idx, spell).value;
      AllInKept(idx, ds, ds1);
      var more := MergedDecl(ds1, d, idx, spell).value.1;
      MergedDeclsViews(ds, init, idx, spell);
      MergedDeclViews(ds1, d, idx, spell);
      ConcatAppend(news1, more, DeclValueNames);
      ConcatAppend(news1, more, DeclTypeNames);
      ConcatAppend(news1, more, DeclImports);
      ConcatAppend(news1, more, DeclFuncs);
      FilterIdsAppend(c, ValueNames(init), DeclValueNames(d));
      FilterIdsAppend(c, TypeNames(init), DeclTypeNames(d));
      UnabsorbedImportsAppend(idx, spell, Imports(init), DeclImports(d));
      UnabsorbedFuncsAppend(idx, spell, Funcs(init), DeclFuncs(d));
    }
  }

  // ---------------------------------------------------------------------
  // The var/const loop as written (ccg.go:163-171) appends the whole
  // template spec once for every name the index lacks.

  /** The first n names of a template value spec, merged as ccg.go:163-171
      does: each name the index lacks appends the entire spec again. */
  function MergedNamesAsWritten(ds: seq<Decl>, s: ValueSpec, n: nat, idx: Index, spell: seq<string>)
    : (r: Result<(seq<Decl>, seq<ValueSpec>)>)
    requires n <= |s.names| && AllIn(idx, ds)
    ensures r.Ok? ==> Evolves(idx, ds, r.value.0)
    ensures r.Ok? ==> forall t :: t in r.value.1 ==> t == s
    ensures r.Err? ==> r.error.Panic?
  {
    if n == 0 then EvolvesRefl(idx, ds); Ok((ds, []))
    else
      match MergedNamesAsWritten(ds, s, n - 1, idx, spell)
      case Err(e) => Err(e)
      case Ok(prev) =>
        var key := SpellingOf(spell, s.names[n - 1]);
        if key !in idx then
          Ok((prev.0, prev.1 + [s]))
        else if n - 1 >= |s.values| then
          Err(Panic("index out of range"))
        else
          AllInKept(idx, ds, prev.0);
          var p := ExprPayload(s.values[n - 1]);
          match Apply(prev.0, idx[key], p)
          case Err(e) => Err(e)
          case Ok(ds2) =>
            ApplyEvolves(idx, prev.0, key, p);
            EvolvesTrans(idx, ds, prev.0, ds2);
            Ok((ds2, prev.1))
  }

  /** One more name appends one spec exactly when the index lacks it. */
  lemma AsWrittenStep(ds: seq<Decl>, s: ValueSpec, n: nat, idx: Index, spell: seq<string>)
    requires 0 < n <= |s.names| && AllIn(idx, ds) && MergedNamesAsWritten(ds, s, n, idx, spell).Ok?
    ensures MergedNamesAsWritten(ds, s, n - 1, idx, spell).Ok?
    ensures |MergedNamesAsWritten(ds, s, n, idx, spell).value.1|
         == |MergedNamesAsWritten(ds, s, n - 1, idx, spell).value.1|
            + if SpellingOf(spell, s.names[n - 1]) in idx then 0 else 1
  {
  }

  /** As written, the spec is emitted once per name the index lacks, so a
      spec with two such names is emitted twice. */
  lemma {:induction false} AsWrittenRepeatsSpec(ds: seq<Decl>, s: ValueSpec, n: nat, idx: Index, spell: seq<string>)
    requires n <= |s.names| && AllIn(idx, ds) && MergedNamesAsWritten(ds, s, n, idx, spell).Ok?
    ensures |MergedNamesAsWritten(ds, s, n, idx, spell).value.1|
         == |FilterIds(Unabsorbed(idx, spell), s.names[..n])|
  {
    if n > 0 {
      AsWrittenStep(ds, s, n, idx, spell);
      AsWrittenRepeatsSpec(ds, s, n - 1, idx, spell);
      assert s.names[..n][..n - 1] == s.names[..n - 1];
    }
  }

  /** With no destination declarations, `var a, b = 1, 2` comes out twice
      as written, declaring a and b twice; the corrected merge emits it
      once. */
  lemma AsWrittenEmitsTwice()
    ensures var s := ValueSpec([0, 1], [BasicLit("1"), BasicLit("2")], None);
      MergedNamesAsWritten([], s, 2, map[], ["a", "b"]) == Ok(([], [s, s])) &&
      MergedNames([], s, 2, map[], ["a", "b"]) == Ok(([], [0, 1], [BasicLit("1"), BasicLit("2")]))
  {
    var spell := ["a", "b"];
    var s := ValueSpec([0, 1], [BasicLit("1"), BasicLit("2")], None);
    var none: Index := map[];
    assert SpellingOf(spell, 0) == "a" && SpellingOf(spell, 1) == "b";
    assert ValueAt(s, 0) == Some(BasicLit("1")) && ValueAt(s, 1) == Some(BasicLit("2"));
    var w1 := MergedNamesAsWritten([], s, 1, none, spell);
    assert w1.Ok? && w1.value.0 == [] && w1.value.1 == [s];
    var w2 := MergedNamesAsWritten([], s, 2, none, spell);
    assert w2.Ok? && w2.value.0 == [] && w2.value.1 == [s, s];
    var c1 := MergedNames([], s, 1, none, spell);
    assert c1.Ok? && c1.value.0 == [] && c1.value.1 == [0] && c1.value.2 == [BasicLit("1")];
    var c2 := MergedNames([], s, 2, none, spell);
    assert c2.Ok? && c2.value.0 == [] && c2.value.1 == [0, 1] && c2.value.2 == [BasicLit("1"), BasicLit("2")];
  }

  /** With a destination `var a = 0`, the template's `var a, b = 1, 2`
      overwrites a's value, and as written the spec still declaring a is
      emitted too; the corrected merge emits `var b = 2`. */
  lemma AsWrittenEmitsAbsorbed()
    ensures var s := ValueSpec([0, 1], [BasicLit("1"), BasicLit("2")], None);
      var dst := [ValueDecl(Var, [ValueSpec([2], [BasicLit("0")], None)], NoDoc)];
      var dst' := [ValueDecl(Var, [ValueSpec([2], [BasicLit("1")], None)], NoDoc)];
      var idx := map["a" := ValueSlot(0, 0, 0)];
      MergedNamesAsWritten(dst, s, 2, idx, ["a", "b", "a"]) == Ok((dst', [s])) &&
      MergedNames(dst, s, 2, idx, ["a", "b", "a"]) == Ok((dst', [1], [BasicLit("2")]))
  {
    var spell := ["a", "b", "a"];
    var s := ValueSpec([0, 1], [BasicLit("1"), BasicLit("2")], None);
    var spec0 := ValueSpec([2], [BasicLit("0")], None);
    var dst := [ValueDecl(Var, [spec0], NoDoc)];
    var dst' := [ValueDecl(Var, [ValueSpec([2], [BasicLit("1")], None)], NoDoc)];
    var idx := map["a" := ValueSlot(0, 0, 0)];
    assert SpellingOf(spell, 0) == "a" && SpellingOf(spell, 1) == "b";
    assert "a" in idx && "b" !in idx;
    assert ValueAt(s, 1) == Some(BasicLit("2"));
    var applied := Apply(dst, ValueSlot(0, 0, 0), ExprPayload(BasicLit("1")));
    assert Fits(dst, ValueSlot(0, 0, 0), ExprPayload(BasicLit("1")));
    assert applied.Ok? && |applied.value| == 1;
    assert spec0.values[0 := BasicLit("1")] == [BasicLit("1")];
    assert [spec0][0 := spec0.(values := [BasicLit("1")])] == [spec0.(values := [BasicLit("1")])];
    assert applied.value[0].valueSpecs == [spec0.(values := [BasicLit("1")])];
    assert applied.value == dst';
    assert idx["a"] == ValueSlot(0, 0, 0) && s.values[0] == BasicLit("1");
    var w0 := MergedNamesAsWritten(dst, s, 0, idx, spell);
    assert w0.Ok? && w0.value.0 == dst && w0.value.1 == [];
    var w1 := MergedNamesAsWritten(dst, s, 1, idx, spell);
    assert w1.Ok? && w1.value.0 == dst' && w1.value.1 == [];
    var w2 := MergedNamesAsWritten(dst, s, 2, idx, spell);
    assert w2.Ok? && w2.value.0 == dst' && w2.value.1 == [s];
    var c0 := MergedNames(dst, s, 0, idx, spell);
    assert c0.Ok? && c0.value.0 == dst && c0.value.1 == [] && c0.value.2 == [];
    var c1 := MergedNames(dst, s, 1, idx, spell);
    assert c1.Ok? && c1.value.0 == dst' && c1.value.1 == [] && c1.value.2 == [];
    var c2 := MergedNames(dst, s, 2, idx, spell);
    assert c2.Ok? && c2.value.0 == dst' && c2.value.1 == [1] && c2.value.2 == [BasicLit("2")];
  }

  /** The corrected merge of a value spec never emits a name whose value
      was absorbed, and emits every other name exactly once. */
  lemma CorrectedEmitsUnabsorbedOnce(ds: seq<Decl>, s: ValueSpec, idx: Index, spell: seq<string>)
    requires AllIn(idx, ds) && MergedNames(ds, s, |s.names|, idx, spell).Ok?
    ensures var r := MergedNames(ds, s, |s.names|, idx, spell).value;
      r.1 == FilterIds(Unabsorbed(idx, spell), s.names) &&
      forall id :: id in r.1 ==> SpellingOf(spell, id) !in idx
  {
    MergedNamesKept(ds, s, |s.names|, idx, spell);
    KeptNamesAreFiltered(Unabsorbed(idx, spell), s, |s.names|);
    assert s.names[..|s.names|] == s.names;
    FilterIdsAccepted(Unabsorbed(idx, spell), s.names);
  }

  // ---------------------------------------------------------------------
  // The merge loops (ccg.go:153-226). A panic ends the loop at once; the
  // lemmas below say that the fold's result is then already the error.

  lemma {:induction false} MergedNamesSticky(ds: seq<Decl>, s: ValueSpec, m: nat, n: nat, idx: Index, spell: seq<string>)
    requires m <= n <= |s.names| && AllIn(idx, ds) && MergedNames(ds, s, m, idx, spell).Err?
    ensures MergedNames(ds, s, n, idx, spell) == MergedNames(ds, s, m, idx, spell)
    decreases n
  {
    if n > m {
      MergedNamesSticky(ds, s, m, n - 1, idx, spell);
    }
  }

  lemma MergedNamesPrefixOk(ds: seq<Decl>, s: ValueSpec, m: nat, n: nat, idx: Index, spell: seq<string>)
    requires m <= n <= |s.names| && AllIn(idx, ds) && MergedNames(ds, s, n, idx, spell).Ok?
    ensures MergedNames(ds, s, m, idx, spell).Ok?
  {
    if MergedNames(ds, s, m, idx, spell).Err? {
      MergedNamesSticky(ds, s, m, n, idx, spell);
    }
  }

  lemma {:induction false} MergedValueSpecsSticky(ds: seq<Decl>, a: seq<ValueSpec>, b: seq<ValueSpec>, idx: Index, spell: seq<string>)
    requires AllIn(idx, ds) && MergedValueSpecs(ds, a, idx, spell).Err?
    ensures MergedValueSpecs(ds, a + b, idx, spell) == MergedValueSpecs(ds, a, idx, spell)
    decreases |b|
  {
    if b == [] {
      assert a + b == a;
    } else {
      assert (a + b)[..|a + b| - 1] == a + b[..|b| - 1];
      MergedValueSpecsSticky(ds, a, b[..|b| - 1], idx, spell);
    }
  }

  lemma {:induction false} MergedTypeSpecsSticky(ds: seq<Decl>, a: seq<TypeSpec>, b: seq<TypeSpec>, idx: Index, spell: seq<string>)
    requires AllIn(idx, ds) && MergedTypeSpecs(ds, a, idx, spell).Err?
    ensures MergedTypeSpecs(ds, a + b, idx, spell) == MergedTypeSpecs(ds, a, idx, spell)
    decreases |b|
  {
    if b == [] {
      assert a + b == a;
    } else {
      assert (a + b)[..|a + b| - 1] == a + b[..|b| - 1];
      MergedTypeSpecsSticky(ds, a, b[..|b| - 1], idx, spell);
    }
  }

  lemma {:induction false} MergedImportSpecsSticky(ds: seq<Decl>, a: seq<ImportSpec>, b: seq<ImportSpec>, idx: Index, spell: seq<string>)
    requires AllIn(idx, ds) && MergedImportSpecs(ds, a, idx, spell).Err?
    ensures MergedImportSpecs(ds, a + b, idx, spell) == MergedImportSpecs(ds, a, idx, spell)
    decreases |b|
  {
    if b == [] {
      assert a + b == a;
    } else {
      assert (a + b)[..|a + b| - 1] == a + b[..|b| - 1];
      MergedImportSpecsSticky(ds, a, b[..|b| - 1], idx, spell);
    }
  }

  lemma {:induction false} MergedDeclsSticky(ds: seq<Decl>, a: seq<Decl>, b: seq<Decl>, idx: Index, spell: seq<string>)
    requires AllIn(idx, ds) && MergedDecls(ds, a, idx, spell).Err?
    ensures MergedDecls(ds, a + b, idx, spell) == MergedDecls(ds, a, idx, spell)
    decreases |b|
  {
    if b == [] {
      assert a + b == a;
    } else {
      assert (a + b)[..|a + b| - 1] == a + b[..|b| - 1];
      MergedDeclsSticky(ds, a, b[..|b| - 1], idx, spell);
    }
  }

  /** One more name of a template value spec continues from the prefix's
      result. */
  lemma MergedNamesNext(ds: seq<Decl>, s: ValueSpec, k: nat, idx: Index, spell: seq<string>)
    requires AllIn(idx, ds) && k < |s.names| && MergedNames(ds, s, k, idx, spell).Ok?
    ensures var prev := MergedNames(ds, s, k, idx, spell).value;
      AllIn(idx, prev.0) &&
      MergedNames(ds, s, k + 1, idx, spell) == MergedName(prev.0, prev.1, prev.2, s, k, idx, spell)
  {
    AllInKept(idx, ds, MergedNames(ds, s, k, idx, spell).value.0);
  }

  /** A panic at name k is the result of the whole loop. */
  lemma MergedNamesStops(ds: seq<Decl>, s: ValueSpec, k: nat, idx: Index, spell: seq<string>,
                         prev: (seq<Decl>, seq<IdentId>, seq<Expr>))
    requires AllIn(idx, ds) && k < |s.names| && MergedNames(ds, s, k, idx, spell) == Ok(prev)
    ensures AllIn(idx, prev.0)
    ensures MergedName(prev.0, prev.1, prev.2, s, k, idx, spell).Err? ==>
      MergedNames(ds, s, |s.names|, idx, spell) == MergedName(prev.0, prev.1, prev.2, s, k, idx, spell)
  {
    MergedNamesStep(ds, s, k, idx, spell, prev);
    if MergedName(prev.0, prev.1, prev.2, s, k, idx, spell).Err? {
      MergedNamesSticky(ds, s, k + 1, |s.names|, idx, spell);
    }
  }

  /** MergedNamesNext, for a loop that holds the prefix's result in its
      own variables. */
  lemma MergedNamesStep(ds: seq<Decl>, s: ValueSpec, k: nat, idx: Index, spell: seq<string>,
                        prev: (seq<Decl>, seq<IdentId>, seq<Expr>))
    requires AllIn(idx, ds) && k < |s.names| && MergedNames(ds, s, k, idx, spell) == Ok(prev)
    ensures AllIn(idx, prev.0)
    ensures MergedNames(ds, s, k + 1, idx, spell) == MergedName(prev.0, prev.1, prev.2, s, k, idx, spell)
  {
    MergedNamesNext(ds, s, k, idx, spell);
  }

  /** One more template value spec: its failure is the failure of the
      whole list, and otherwise it extends the prefix's result. */
  lemma MergedValueSpecsNext(ds: seq<Decl>, specs: seq<ValueSpec>, j: nat, idx: Index, spell: seq<string>)
    requires AllIn(idx, ds) && j < |specs| && MergedValueSpecs(ds, specs[..j], idx, spell).Ok?
    ensures var (a, out) := MergedValueSpecs(ds, specs[..j], idx, spell).value;
      AllIn(idx, a) &&
      match MergedNames(a, specs[j], |specs[j].names|, idx, spell)
      case Err(e) => MergedValueSpecs(ds, specs, idx, spell) == Err(e)
      case Ok((b, names, values)) =>
        MergedValueSpecs(ds, specs[..j + 1], idx, spell) == Ok((b, out + Remainder(specs[j], names, values)))
  {
    AllInKept(idx, ds, MergedValueSpecs(ds, specs[..j], idx, spell).value.0);
    assert specs[..j + 1][..j] == specs[..j];
    if MergedValueSpecs(ds, specs[..j + 1], idx, spell).Err? {
      MergedValueSpecsPrefixFails(ds, specs, j + 1, idx, spell);
    }
  }

  lemma MergedValueSpecsPrefixFails(ds: seq<Decl>, specs: seq<ValueSpec>, n: nat, idx: Index, spell: seq<string>)
    requires AllIn(idx, ds) && n <= |specs| && MergedValueSpecs(ds, specs[..n], idx, spell).Err?
    ensures MergedValueSpecs(ds, specs, idx, spell) == MergedValueSpecs(ds, specs[..n], idx, spell)
  {
    assert specs == specs[..n] + specs[n..];
    MergedValueSpecsSticky(ds, specs[..n], specs[n..], idx, spell);
  }

  /** One more template type spec, likewise. */
  lemma MergedTypeSpecsNext(ds: seq<Decl>, specs: seq<TypeSpec>, j: nat, idx: Index, spell: seq<string>)
    requires AllIn(idx, ds) && j < |specs| && MergedTypeSpecs(ds, specs[..j], idx, spell).Ok?
    ensures var (a, out) := MergedTypeSpecs(ds, specs[..j], idx, spell).value;
      AllIn(idx, a) &&
      match MergedTypeSpec(a, out, specs[j], idx, spell)
      case Err(e) => MergedTypeSpecs(ds, specs, idx, spell) == Err(e)
      case Ok(next) => MergedTypeSpecs(ds, specs[..j + 1], idx, spell) == Ok(next)
  {
    AllInKept(idx, ds, MergedTypeSpecs(ds, specs[..j], idx, spell).value.0);
    assert specs[..j + 1][..j] == specs[..j];
    if MergedTypeSpecs(ds, specs[..j + 1], idx, spell).Err? {
      MergedTypeSpecsPrefixFails(ds, specs, j + 1, idx, spell);
    }
  }

  lemma MergedTypeSpecsPrefixFails(ds: seq<Decl>, specs: seq<TypeSpec>, n: nat, idx: Index, spell: seq<string>)
    requires AllIn(idx, ds) && n <= |specs| && MergedTypeSpecs(ds, specs[..n], idx, spell).Err?
    ensures MergedTypeSpecs(ds, specs, idx, spell) == MergedTypeSpecs(ds, specs[..n], idx, spell)
  {
    assert specs == specs[..n] + specs[n..];
    MergedTypeSpecsSticky(ds, specs[..n], specs[n..], idx, spell);
  }

  /** One more template import spec, likewise. */
  lemma MergedImportSpecsNext(ds: seq<Decl>, specs: seq<ImportSpec>, j: nat, idx: Index, spell: seq<string>)
    requires AllIn(idx, ds) && j < |specs| && MergedImportSpecs(ds, specs[..j], idx, spell).Ok?
    ensures var (a, out) := MergedImportSpecs(ds, specs[..j], idx, spell).value;
      AllIn(idx, a) &&
      match MergedImportSpec(a, out, specs[j], idx, spell)
      case Err(e) => MergedImportSpecs(ds, specs, idx, spell) == Err(e)
      case Ok(next) => MergedImportSpecs(ds, specs[..j + 1], idx, spell) == Ok(next)
  {
    AllInKept(idx, ds, MergedImportSpecs(ds, specs[..j], idx, spell).value.0);
    assert specs[..j + 1][..j] == specs[..j];
    if MergedImportSpecs(ds, specs[..j + 1], idx, spell).Err? {
      MergedImportSpecsPrefixFails(ds, specs, j + 1, idx, spell);
    }
  }

  lemma MergedImportSpecsPrefixFails(ds: seq<Decl>, specs: seq<ImportSpec>, n: nat, idx: Index, spell: seq<string>)
    requires AllIn(idx, ds) && n <= |specs| && MergedImportSpecs(ds, specs[..n], idx, spell).Err?
    ensures MergedImportSpecs(ds, specs, idx, spell) == MergedImportSpecs(ds, specs[..n], idx, spell)
  {
    assert specs == specs[..n] + specs[n..];
    MergedImportSpecsSticky(ds, specs[..n], specs[n..], idx, spell);
  }

  /** The loop over one template value spec's names (ccg.go:165-171), with
      the corrected handling of a name the index lacks. */
  method MergeNames(ds: seq<Decl>, s: ValueSpec, idx: Index, spell: seq<string>)
    returns (r: Result<(seq<Decl>, seq<IdentId>, seq<Expr>)>)
    requires AllIn(idx, ds)
    ensures r == MergedNames(ds, s, |s.names|, idx, spell)
  {
    var acc: (seq<Decl>, seq<IdentId>, seq<Expr>) := (ds, [], []);
    for k := 0 to |s.names|
      invariant MergedNames(ds, s, k, idx, spell) == Ok(acc)
    {
      AllInKept(idx, ds, acc.0);
      var step := MergedName(acc.0, acc.1, acc.2, s, k, idx, spell);
      if step.Err? {
        MergedNamesStops(ds, s, k, idx, spell, acc);
        return step;
      }
      MergedNamesStep(ds, s, k, idx, spell, acc);
      acc := step.value;
    }
    return Ok(acc);
  }

  /** The var/const loop of one template declaration (ccg.go:160-174). */
  method MergeValueSpecs(ds: seq<Decl>, specs: seq<ValueSpec>, idx: Index, spell: seq<string>)
    returns (r: Result<(seq<Decl>, seq<ValueSpec>)>)
    requires AllIn(idx, ds)
    ensures r == MergedValueSpecs(ds, specs, idx, spell)
  {
    var decls := ds;
    var out: seq<ValueSpec> := [];
    for j := 0 to |specs|
      invariant MergedValueSpecs(ds, specs[..j], idx, spell) == Ok((decls, out))
    {
      MergedValueSpecsNext(ds, specs, j, idx, spell);
      var m := MergeNames(decls, specs[j], idx, spell);
      if m.Err? {
        return Err(m.error);
      }
      var (decls', names, values) := m.value;
      decls := decls';
      out := out + Remainder(specs[j], names, values);
    }
    assert specs[..|specs|] == specs;
    return Ok((decls, out));
  }

  /** The type loop of one template declaration (ccg.go:179-191). */
  method MergeTypeSpecs(ds: seq<Decl>, specs: seq<TypeSpec>, idx: Index, spell: seq<string>)
    returns (r: Result<(seq<Decl>, seq<TypeSpec>)>)
    requires AllIn(idx, ds)
    ensures r == MergedTypeSpecs(ds, specs, idx, spell)
  {
    var decls := ds;
    var out: seq<TypeSpec> := [];
    for j := 0 to |specs|
      invariant MergedTypeSpecs(ds, specs[..j], idx, spell) == Ok((decls, out))
    {
      MergedTypeSpecsNext(ds, specs, j, idx, spell);
      var step := MergedTypeSpec(decls, out, specs[j], idx, spell);
      if step.Err? {
        return Err(step.error);
      }
      decls, out := step.value.0, step.value.1;
    }
    assert specs[..|specs|] == specs;
    return Ok((decls, out));
  }

  /** The import loop of one template declaration (ccg.go:196-213). */
  method MergeImportSpecs(ds: seq<Decl>, specs: seq<ImportSpec>, idx: Index, spell: seq<string>)
    returns (r: Result<(seq<Decl>, seq<ImportSpec>)>)
    requires AllIn(idx, ds)
    ensures r == MergedImportSpecs(ds, specs, idx, spell)
  {
    var decls := ds;
    var out: seq<ImportSpec> := [];
    for j := 0 to |specs|
      invariant MergedImportSpecs(ds, specs[..j], idx, spell) == Ok((decls, out))
    {
      MergedImportSpecsNext(ds, specs, j, idx, spell);
      var step := MergedImportSpec(decls, out, specs[j], idx, spell);
      if step.Err? {
        return Err(step.error);
      }
      decls, out := step.value.0, step.value.1;
    }
    assert specs[..|specs|] == specs;
    return Ok((decls, out));
  }

  /** One template declaration (ccg.go:155-224). */
  method MergeDecl(ds: seq<Decl>, d: Decl, idx: Index, spell: seq<string>)
    returns (r: Result<(seq<Decl>, seq<Decl>)>)
    requires AllIn(idx, ds)
    ensures r == MergedDecl(ds, d, idx, spell)
  {
    match d {
      case ValueDecl(tok, specs, _) =>
        var m := MergeValueSpecs(ds, specs, idx, spell);
        if m.Err? {
          return Err(m.error);
        }
        var (decls, out) := m.value;
        r := Ok((decls, if |out| > 0 then [ValueDecl(tok, out, NoDoc)] else []));
      case TypeDecl(specs, _) =>
        var m := MergeTypeSpecs(ds, specs, idx, spell);
        if m.Err? {
          return Err(m.error);
        }
        var (decls, out) := m.value;
        r := Ok((decls, if |out| > 0 then [TypeDecl(out, NoDoc)] else []));
      case ImportDecl(specs, _) =>
        var m := MergeImportSpecs(ds, specs, idx, spell);
        if m.Err? {
          return Err(m.error);
        }
        var (decls, out) := m.value;
        r := Ok((decls, if |out| > 0 then [ImportDecl(out, NoDoc)] else []));
      case FuncDecl(_, _, _, _) =>
        var name := FuncName(d, spell);
        if name.Err? {
          return Err(name.error);
        }
        if name.value in idx {
          var applied := Apply(ds, idx[name.value], DeclPayload(d));
          if applied.Err? {
            return Err(applied.error);
          }
          r := Ok((applied.value, []));
        } else {
          r := Ok((ds, [d]));
        }
    }
  }

  /** The declarations of all template files, file after file. */
  function Flatten(files: seq<seq<Decl>>): seq<Decl> { Concat(files, f => f) }

  lemma FlattenSnoc(files: seq<seq<Decl>>, i: nat)
    requires i < |files|
    ensures Flatten(files[..i + 1]) == Flatten(files[..i]) + files[i]
  {
    assert files[..i + 1][..i] == files[..i];
  }

  /** One more template declaration, after a merge that succeeded. */
  lemma MergedDeclsSnoc(ds: seq<Decl>, xs: seq<Decl>, d: Decl, idx: Index, spell: seq<string>)
    requires AllIn(idx, ds) && MergedDecls(ds, xs, idx, spell).Ok?
    ensures AllIn(idx, MergedDecls(ds, xs, idx, spell).value.0)
    ensures var (a, news) := MergedDecls(ds, xs, idx, spell).value;
      MergedDecls(ds, xs + [d], idx, spell) ==
        match MergedDecl(a, d, idx, spell)
        case Err(e) => Err(e)
        case Ok((b, more)) => Ok((b, news + more))
  {
    AllInKept(idx, ds, MergedDecls(ds, xs, idx, spell).value.0);
    assert (xs + [d])[..|xs|] == xs;
  }

  /** One more template declaration: its failure is the failure of the
      whole list, and otherwise it extends the prefix's result. */
  lemma MergedDeclsNext(ds: seq<Decl>, f: seq<Decl>, j: nat, idx: Index, spell: seq<string>)
    requires AllIn(idx, ds) && j < |f| && MergedDecls(ds, f[..j], idx, spell).Ok?
    ensures var (a, news) := MergedDecls(ds, f[..j], idx, spell).value;
      AllIn(idx, a) &&
      match MergedDecl(a, f[j], idx, spell)
      case Err(e) => MergedDecls(ds, f, idx, spell) == Err(e)
      case Ok((b, more)) => MergedDecls(ds, f[..j + 1], idx, spell) == Ok((b, news + more))
  {
    var a := MergedDecls(ds, f[..j], idx, spell).value.0;
    AllInKept(idx, ds, a);
    assert f[..j + 1][..j] == f[..j];
    if MergedDecls(ds, f[..j + 1], idx, spell).Err? {
      MergedDeclsPrefixFails(ds, f, j + 1, idx, spell);
    }
  }

  lemma MergedDeclsPrefixFails(ds: seq<Decl>, f: seq<Decl>, n: nat, idx: Index, spell: seq<string>)
    requires AllIn(idx, ds) && n <= |f| && MergedDecls(ds, f[..n], idx, spell).Err?
    ensures MergedDecls(ds, f, idx, spell) == MergedDecls(ds, f[..n], idx, spell)
  {
    assert f == f[..n] + f[n..];
    MergedDeclsSticky(ds, f[..n], f[n..], idx, spell);
  }

  /** The loop over the template declarations (ccg.go:155-225). */
  method MergeDecls(ds: seq<Decl>, f: seq<Decl>, idx: Index, spell: seq<string>)
    returns (r: Result<(seq<Decl>, seq<Decl>)>)
    requires AllIn(idx, ds)
    ensures r == MergedDecls(ds, f, idx, spell)
  {
    var decls := ds;
    var news: seq<Decl> := [];
    for j := 0 to |f|
      invariant MergedDecls(ds, f[..j], idx, spell) == Ok((decls, news))
    {
      MergedDeclsNext(ds, f, j, idx, spell);
      var m := MergeDecl(decls, f[j], idx, spell);
      if m.Err? {
        return Err(m.error);
      }
      decls := m.value.0;
      news := news + m.value.1;
    }
    assert f[..|f|] == f;
    return Ok((decls, news));
  }

  /** The loop over the template's files (ccg.go:153-226): the files'
      declarations, file after file, go through the declaration loop in
      that order. Returns the updated destination declarations and the new
      declarations. */
  method MergeFiles(ds: seq<Decl>, files: seq<seq<Decl>>, idx: Index, spell: seq<string>)
    returns (r: Result<(seq<Decl>, seq<Decl>)>)
    requires AllIn(idx, ds)
    ensures r == MergedDecls(ds, Flatten(files), idx, spell)
  {
    var all: seq<Decl> := [];
    for i := 0 to |files|
      invariant all == Flatten(files[..i])
    {
      FlattenSnoc(files, i);
      all := all + files[i];
    }
    assert files[..|files|] == files;
    r := MergeDecls(ds, all, idx, spell);
  }


}
