/** The module linker's view of the closure fields: how the three kinds of
    reference are resolved when staged objects are copied into the heap,
    the patch-back of heap addresses into the symbol table, and the
    monotone tree -> MPtr -> CPtr progression of every code-list entry. */
module Linker {
  import opened Stg
  import opened Asm
  import opened Atoms

  /** The heap address a reference denotes once every staged object has
      been placed (`placed`) and the closure fields patched: an object
      reference goes through the placement, a no-op reference is already
      an address, and a Hugs (symbol) reference follows the entry's closure
      field as it is at copy time. */
  function Resolve(op: Op, closure: map<Global, Closure>, placed: map<ObjId, Addr>): Option<Addr>
  {
    match op
    case PushRefNoOp(a) => Some(a)
    case AddRefNoOp(a) => Some(a)
    case PushRefObject(o) => if o in placed then Some(placed[o]) else None
    case AddRefObject(o) => if o in placed then Some(placed[o]) else None
    case PushRefHugs(g) =>
      (match ClosureOf(closure, g)
       case CPtr(a) => Some(a)
       case MPtr(o) => if o in placed then Some(placed[o]) else None
       case _ => None)
    case _ => None
  }

  /** How a closure field seen during staging relates to the same field
      after linking. */
  predicate Links(before: Closure, after: Closure, placed: map<ObjId, Addr>)
  {
    match before
    case CPtr(a) => after == CPtr(a)
    case MPtr(o) => o in placed && after == CPtr(placed[o])
    case Tree(_) => after.CPtr?
    case NoClosure => after == NoClosure
  }

  /** Every reference pushAtom emits for a name or tuple resolves, after
      linking, to the address that entry's closure field finally holds,
      whichever of the three states the field was in when it was pushed;
      a name with no closure resolves to its native object. */
  lemma PushedReferenceResolves(g: Global, info: map<VarId, Info>, staging: map<Global, Closure>,
                                final: map<Global, Closure>, env: Env, placed: map<ObjId, Addr>)
    requires PushChoice(AGlobal(g), info, staging, env).Ok?
    requires Links(ClosureOf(staging, g), ClosureOf(final, g), placed)
    ensures !ClosureOf(staging, g).NoClosure? ==>
              Resolve(PushChoice(AGlobal(g), info, staging, env).value, final, placed)
                == Some(ClosureOf(final, g).addr)
    ensures ClosureOf(staging, g).NoClosure? ==>
              Resolve(PushChoice(AGlobal(g), info, staging, env).value, final, placed)
                == Some(env.native[g])
  {
  }

  /** Every reference slot endTop adds for a constructor field resolves,
      after linking, to the address the field denotes: a name's slot to
      the address its closure field finally holds, whether it was a heap
      closure or a staged object when the slot was added, and a top-level
      variable's slot to the placement of the object it was bound to. */
  lemma FieldResolves(a: Atom, info: map<VarId, Info>, staging: map<Global, Closure>,
                      final: map<Global, Closure>, env: Env, placed: map<ObjId, Addr>)
    requires FieldChoice(a, info, staging, env).Ok?
    requires a.AGlobal? ==> Links(ClosureOf(staging, a.g), ClosureOf(final, a.g), placed)
    requires a.AVar? ==> InfoOf(info, a.v).obj in placed
    ensures a.AGlobal? ==>
              Resolve(FieldChoice(a, info, staging, env).value, final, placed) == Some(ClosureOf(final, a.g).addr)
    ensures a.AVar? ==>
              Resolve(FieldChoice(a, info, staging, env).value, final, placed) == Some(placed[InfoOf(info, a.v).obj])
  {
  }

  /** An MPtr field becomes the CPtr of its placed object. */
  function PatchOne(c: Closure, placed: map<ObjId, Addr>): (r: Closure)
    ensures Stage(c) <= Stage(r)
    ensures c.MPtr? && c.obj in placed ==> Links(c, r, placed)
  {
    if c.MPtr? && c.obj in placed then CPtr(placed[c.obj]) else c
  }

  /** The patch-back loop of cgModule over `codeList`. */
  function PatchBack(closure: map<Global, Closure>, codeList: seq<Global>,
                     placed: map<ObjId, Addr>): map<Global, Closure>
  {
    if codeList == [] then closure
    else
      var before := PatchBack(closure, codeList[..|codeList| - 1], placed);
      var g := codeList[|codeList| - 1];
      if ClosureOf(before, g).MPtr? then before[g := PatchOne(ClosureOf(before, g), placed)]
      else before
  }

  /** Patch-back touches exactly the code-list entries, each once. */
  lemma {:induction false} PatchBackEffect(closure: map<Global, Closure>, codeList: seq<Global>,
                                           placed: map<ObjId, Addr>, g: Global)
    ensures ClosureOf(PatchBack(closure, codeList, placed), g) ==
              if g in codeList then PatchOne(ClosureOf(closure, g), placed) else ClosureOf(closure, g)
  {
    if codeList != [] {
      var init := codeList[..|codeList| - 1];
      var last := codeList[|codeList| - 1];
      assert codeList == init + [last];
      PatchBackEffect(closure, init, placed, g);
      if g == last {
        PatchBackEffect(closure, init, placed, last);
      }
    }
  }

  /** The closure fields after stage-end: entries that were already heap
      closures are untouched, every other code-list entry was a tree and
      now points at one of the first `n` staged objects, and nothing off
      the code list changed. */
  ghost predicate StagedFrom(initial: map<Global, Closure>, staged: map<Global, Closure>,
                             codeList: seq<Global>, n: nat)
  {
    && (forall g :: g in codeList && ClosureOf(initial, g).CPtr? ==>
          ClosureOf(staged, g) == ClosureOf(initial, g))
    && (forall g :: g in codeList && !ClosureOf(initial, g).CPtr? ==>
          ClosureOf(initial, g).Tree? && ClosureOf(staged, g).MPtr? && ClosureOf(staged, g).obj < n)
    && (forall g :: g !in codeList ==> ClosureOf(staged, g) == ClosureOf(initial, g))
  }

  /** One turn of the endTop loop: a tree entry now names object `o`, any
      other entry keeps its field, and the arena may have grown. */
  lemma StagedStep(initial: map<Global, Closure>, staged: map<Global, Closure>, done: seq<Global>,
                   n: nat, n': nat, g: Global, c: Closure)
    requires StagedFrom(initial, staged, done, n) && n <= n'
    requires g in done || ClosureOf(staged, g) == ClosureOf(initial, g)
    requires c.CPtr? ==> ClosureOf(staged, g).CPtr?
    requires c.MPtr? ==> ClosureOf(initial, g).Tree? && g !in done && c.obj < n'
    requires c.CPtr? || c.MPtr?
    ensures StagedFrom(initial, if c.MPtr? then staged[g := c] else staged, done + [g], n')
  {
  }

  /** The mid-point sanity check of cgModule always passes. */
  lemma StagedEntriesAreObjectsOrHeap(initial: map<Global, Closure>, staged: map<Global, Closure>,
                                      codeList: seq<Global>, n: nat)
    requires StagedFrom(initial, staged, codeList, n)
    ensures forall g :: g in codeList ==> ClosureOf(staged, g).MPtr? || ClosureOf(staged, g).CPtr?
  {
  }

  /** After patch-back every code-list entry is a heap closure, no entry
      regressed, pre-linked entries kept their address, each staged field
      links to its final address, and entries off the code list are
      unchanged. */
  lemma ModuleLinked(initial: map<Global, Closure>, staged: map<Global, Closure>,
                     codeList: seq<Global>, n: nat, placed: map<ObjId, Addr>)
    requires StagedFrom(initial, staged, codeList, n)
    requires forall o :: 0 <= o < n ==> o in placed
    ensures var final := PatchBack(staged, codeList, placed);
      && (forall g :: g in codeList ==> ClosureOf(final, g).CPtr?)
      && (forall g :: g in codeList ==>
            Stage(ClosureOf(initial, g)) <= Stage(ClosureOf(staged, g)) <= Stage(ClosureOf(final, g)))
      && (forall g :: g in codeList && ClosureOf(initial, g).CPtr? ==>
            ClosureOf(final, g) == ClosureOf(initial, g))
      && (forall g :: g in codeList ==> Links(ClosureOf(staged, g), ClosureOf(final, g), placed))
      && (forall g :: g in codeList ==> Links(ClosureOf(initial, g), ClosureOf(final, g), placed))
      && (forall g :: g !in codeList ==> ClosureOf(final, g) == ClosureOf(initial, g))
  {
    var final := PatchBack(staged, codeList, placed);
    forall g
      ensures ClosureOf(final, g) ==
                if g in codeList then PatchOne(ClosureOf(staged, g), placed) else ClosureOf(staged, g)
    {
      PatchBackEffect(staged, codeList, placed, g);
    }
  }
}
