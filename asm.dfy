/** The assembler as the code generator sees it: every `asm*` call appends
    one instruction to a staged object's log, staged objects live in an
    arena indexed by ObjId, and the symbol table's closure fields and the
    STG variables' info cells hold the tagged values the generator
    dispatches on. */
module Asm {
  import opened Stg

  /** One call into the assembler API. Positions (stack offsets returned
      by asmBind, asmBeginEnter, ...) and program counters (returned by
      asmTest, asmTestInt) are plain integers. The string object that
      asmStringObj stages for a string literal is part of the instruction
      that uses it (PushStringObj, AddStringObj). */
  datatype Op =
    // pushes emitted by pushAtom
    | PushVar(off: int, rep: Rep)
    | PushRefNoOp(addr: Addr)
    | PushRefObject(obj: ObjId)
    | PushRefHugs(g: Global)
    | ConstChar(c: char)
    | ConstInt(i: int)
    | ConstAddr(a: Addr)
    | ConstText(s: string)
    | ConstInteger(digits: string)
    | ConstDouble(f: real)
    | PushStringObj(s: string)
    // frames, binding and control
    | Bind(rep: Rep)
    | BeginArgCheck
    | EndArgCheck(root: int)
    | BeginEnter
    | EndEnter(begin: int, root: int)
    | BeginCase
    | EndCase
    | Continuation(obj: ObjId)
    | BeginAlt
    | EndAlt(begin: int)
    | Test(tag: nat)
    | TestInt(pos: int, value: int)
    | FixBranch(pc: nat)
    | Panic
    | Unbox(rep: Rep)
    | BeginUnpack
    | EndUnpack
    | BeginPrim
    | EndPrim(prim: NameId, begin: int)
    // heap allocation in a BCO
    | Box(rep: Rep)
    | AllocConstr(layout: nat)
    | AllocAP(sizeW: nat)
    | BeginPack
    | EndPack(pos: int, start: int, layout: nat)
    | BeginMkPAP
    | EndMkPAP(pos: int, start: int)
    | BeginMkAP
    | EndMkAP(pos: int, start: int)
    // reference slots of constructor and CAF objects
    | AddRefNoOp(addr: Addr)
    | AddRefObject(obj: ObjId)
    | AddStringObj(s: string)

  datatype ObjKind =
    | BcoObj
    | ContinuationObj(sp: int)
    | CafObj
    | ConObj(layout: nat)

  /** A staged object: its kind, the log of what was added to it, and
      whether its asmEnd* call has been made. */
  datatype AsmObject = AsmObject(kind: ObjKind, code: seq<Op>, complete: bool)

  /** The closure field of a name or tuple: still a tree, a staged object
      (MPtr), a heap closure (CPtr), or nothing (a natively compiled name). */
  datatype Closure =
    | Tree(top: TopVar)
    | MPtr(obj: ObjId)
    | CPtr(addr: Addr)
    | NoClosure

  /** The info cell of an STG variable (stgVarInfo). */
  datatype Info =
    | NoInfo
    | Pos(sp: int)
    | CPtrInfo(addr: Addr)
    | MPtrInfo(obj: ObjId)

  function ClosureOf(closure: map<Global, Closure>, g: Global): Closure
  {
    if g in closure then closure[g] else NoClosure
  }

  function InfoOf(info: map<VarId, Info>, v: Var): Info
  {
    if v.id in info then info[v.id] else NoInfo
  }

  /** Order of the closure states along one compilation; the field only
      ever moves up. */
  function Stage(c: Closure): nat
  {
    match c
    case Tree(_) => 0
    case NoClosure => 0
    case MPtr(_) => 1
    case CPtr(_) => 2
  }

  /** One object's log grows by appending; every other staged object is
      left as it was, and new objects may be added at the end. */
  ghost predicate Grows(before: seq<AsmObject>, after: seq<AsmObject>, o: ObjId)
  {
    && o < |before| <= |after|
    && (forall i :: 0 <= i < |before| && i != o ==> after[i] == before[i])
    && after[o].kind == before[o].kind
    && after[o].complete == before[o].complete
    && before[o].code <= after[o].code
  }

  /** Staged objects that existed are untouched; new ones may be added. */
  ghost predicate Preserves(before: seq<AsmObject>, after: seq<AsmObject>)
  {
    && |before| <= |after|
    && (forall i :: 0 <= i < |before| ==> after[i] == before[i])
  }

  /** Every object created between the two arenas has been completed. */
  ghost predicate NewComplete(before: seq<AsmObject>, after: seq<AsmObject>)
  {
    forall i :: |before| <= i < |after| ==> after[i].complete
  }

  /** Object `o` has been ended: it only grew and is now complete; every
      other older object is untouched and every newer one complete. */
  ghost predicate Ends(before: seq<AsmObject>, after: seq<AsmObject>, o: ObjId)
  {
    && o < |before| <= |after|
    && (forall i :: 0 <= i < |before| && i != o ==> after[i] == before[i])
    && after[o].kind == before[o].kind
    && after[o].complete
    && before[o].code <= after[o].code
    && NewComplete(before, after)
  }

  /** Completing a grown object ends it. */
  lemma FinishEnds(a: seq<AsmObject>, b: seq<AsmObject>, o: ObjId)
    requires Grows(a, b, o) && NewComplete(a, b)
    ensures Ends(a, b[o := b[o].(complete := true)], o)
  {
  }

  /** The arena after appending `op` to object `o`. */
  function Append(objs: seq<AsmObject>, o: ObjId, op: Op): (r: seq<AsmObject>)
    requires o < |objs|
    ensures |r| == |objs| && r[o].code == objs[o].code + [op]
    ensures Grows(objs, r, o) && NewComplete(objs, r)
  {
    objs[o := objs[o].(code := objs[o].code + [op])]
  }

  /** The arena after appending the ops `ops` to object `o`. */
  function AppendAll(objs: seq<AsmObject>, o: ObjId, ops: seq<Op>): (r: seq<AsmObject>)
    requires o < |objs|
    ensures |r| == |objs| && r[o].code == objs[o].code + ops
    ensures Grows(objs, r, o) && NewComplete(objs, r)
  {
    objs[o := objs[o].(code := objs[o].code + ops)]
  }

  lemma AppendNothing(objs: seq<AsmObject>, o: ObjId)
    requires o < |objs|
    ensures AppendAll(objs, o, []) == objs
  {
    assert objs[o].code + [] == objs[o].code;
  }

  lemma AppendAllThen(objs: seq<AsmObject>, o: ObjId, a: seq<Op>, b: seq<Op>)
    requires o < |objs|
    ensures AppendAll(AppendAll(objs, o, a), o, b) == AppendAll(objs, o, a + b)
  {
    assert (objs[o].code + a) + b == objs[o].code + (a + b);
  }

  lemma AppendThen(objs: seq<AsmObject>, o: ObjId, a: seq<Op>, op: Op)
    requires o < |objs|
    ensures Append(AppendAll(objs, o, a), o, op) == AppendAll(objs, o, a + [op])
    ensures Append(objs, o, op) == AppendAll(objs, o, [op])
  {
    assert (objs[o].code + a) + [op] == objs[o].code + (a + [op]);
  }

  /** The code of consecutive segments, in order. */
  function Concat(segs: seq<seq<Op>>): (r: seq<Op>)
    ensures segs == [] ==> r == []
  {
    if segs == [] then [] else Concat(segs[..|segs| - 1]) + segs[|segs| - 1]
  }

  lemma ConcatSnoc(segs: seq<seq<Op>>, s: seq<Op>)
    ensures Concat(segs + [s]) == Concat(segs) + s
  {
    assert (segs + [s])[..|segs|] == segs;
  }

  /** The code appended to an object that grew from `before` to `after`. */
  lemma Suffix(before: seq<Op>, after: seq<Op>)
    requires before <= after
    ensures after == before + after[|before|..]
  {
  }

  /** Growth of one object composes, and so does completion of new ones. */
  lemma GrowsTrans(a: seq<AsmObject>, b: seq<AsmObject>, c: seq<AsmObject>, o: ObjId)
    requires Grows(a, b, o) && Grows(b, c, o)
    ensures Grows(a, c, o)
    ensures NewComplete(a, b) && NewComplete(b, c) ==> NewComplete(a, c)
  {
  }

  /** An object grown around a nested compilation that only adds objects. */
  lemma GrowsAround(a: seq<AsmObject>, b: seq<AsmObject>, c: seq<AsmObject>, o: ObjId)
    requires Grows(a, b, o) && Preserves(b, c)
    ensures Grows(a, c, o)
    ensures NewComplete(a, b) && NewComplete(b, c) ==> NewComplete(a, c)
  {
  }

  /** A new object grown by a compilation leaves the older ones alone. */
  lemma GrowsNew(a: seq<AsmObject>, b: seq<AsmObject>, c: seq<AsmObject>, o: ObjId)
    requires Preserves(a, b) && Grows(b, c, o) && |a| <= o
    ensures Preserves(a, c)
  {
  }
}
