/** pushAtom's choice of instruction for an atom, and the same choice made
    for a whole list of atoms (map1Proc(pushAtom, ...)). */
module Atoms {
  import opened Stg
  import opened Asm

  /** True of the instructions that push a heap reference of one of the
      three reference kinds. */
  predicate IsReference(op: Op)
  {
    op.PushRefNoOp? || op.PushRefObject? || op.PushRefHugs?
  }

  /** True of every instruction pushAtom can emit. */
  predicate IsPush(op: Op)
  {
    || IsReference(op) || op.PushVar? || op.PushStringObj?
    || op.ConstChar? || op.ConstInt? || op.ConstAddr? || op.ConstText?
    || op.ConstInteger? || op.ConstDouble?
  }

  /** The single instruction pushAtom emits for `a`, given the variables'
      info cells and the symbol table's closure fields. */
  function PushChoice(a: Atom, info: map<VarId, Info>, closure: map<Global, Closure>,
                      env: Env): (r: Result<Op>)
    ensures r.Err? <==>
              || (a.AVar? && InfoOf(info, a.v).NoInfo?)
              || (a.AGlobal? && ClosureOf(closure, a.g).NoClosure? && a.g !in env.native)
    ensures r.Ok? ==> IsPush(r.value)
    ensures r.Ok? && (a.AVar? || a.AGlobal? || a.ACPtr? || a.AMPtr?) ==> IsReference(r.value) || r.value.PushVar?
  {
    match a
    case AVar(v) =>
      (match InfoOf(info, v)
       case Pos(sp) => Ok(PushVar(sp, v.rep))
       case CPtrInfo(p) => Ok(PushRefNoOp(p))
       case MPtrInfo(o) => Ok(PushRefObject(o))
       case NoInfo => Err(Internal("pushAtom: STGVAR")))
    case AGlobal(g) =>
      (match ClosureOf(closure, g)
       case Tree(_) => Ok(PushRefHugs(g))
       case CPtr(p) => Ok(PushRefNoOp(p))
       case MPtr(o) => Ok(PushRefObject(o))
       case NoClosure =>
         if g in env.native then Ok(PushRefNoOp(env.native[g]))
         else Err(MissingObjectSymbol(g)))
    case AChar(c) => Ok(ConstChar(c))
    case AInt(i) => Ok(ConstInt(i))
    case AAddr(p) => Ok(ConstAddr(p))
    case ABig(d) => Ok(ConstInteger(d))
    case AFloat(f) => Ok(ConstDouble(f))
    case AStr(s) => if env.useAddrForStrings then Ok(ConstText(s)) else Ok(PushStringObj(s))
    case ACPtr(p) => Ok(PushRefNoOp(p))
    case AMPtr(o) => Ok(PushRefObject(o))
  }

  /** For a name or tuple the one instruction pushed follows the state of
      its closure field: a tree is pushed as a symbol reference, a heap
      closure as a no-op reference, a staged object as an object
      reference, and a missing closure as a no-op reference to the native
      object, or fails when the object table has no such symbol. */
  lemma GlobalPushFollowsClosure(g: Global, info: map<VarId, Info>, closure: map<Global, Closure>, env: Env)
    ensures ClosureOf(closure, g).Tree? ==> PushChoice(AGlobal(g), info, closure, env) == Ok(PushRefHugs(g))
    ensures ClosureOf(closure, g).CPtr? ==>
              PushChoice(AGlobal(g), info, closure, env) == Ok(PushRefNoOp(ClosureOf(closure, g).addr))
    ensures ClosureOf(closure, g).MPtr? ==>
              PushChoice(AGlobal(g), info, closure, env) == Ok(PushRefObject(ClosureOf(closure, g).obj))
    ensures ClosureOf(closure, g).NoClosure? && g in env.native ==>
              PushChoice(AGlobal(g), info, closure, env) == Ok(PushRefNoOp(env.native[g]))
    ensures ClosureOf(closure, g).NoClosure? && g !in env.native ==>
              PushChoice(AGlobal(g), info, closure, env) == Err(MissingObjectSymbol(g))
  {
  }

  /** For a variable the instruction follows its info cell: a stack
      position is loaded with the variable's representation, a heap
      pointer or staged object is pushed as a reference, and a variable
      with no info is an internal error. */
  lemma VarPushFollowsInfo(v: Var, info: map<VarId, Info>, closure: map<Global, Closure>, env: Env)
    ensures InfoOf(info, v).Pos? ==> PushChoice(AVar(v), info, closure, env) == Ok(PushVar(InfoOf(info, v).sp, v.rep))
    ensures InfoOf(info, v).CPtrInfo? ==>
              PushChoice(AVar(v), info, closure, env) == Ok(PushRefNoOp(InfoOf(info, v).addr))
    ensures InfoOf(info, v).MPtrInfo? ==>
              PushChoice(AVar(v), info, closure, env) == Ok(PushRefObject(InfoOf(info, v).obj))
    ensures InfoOf(info, v).NoInfo? ==>
              PushChoice(AVar(v), info, closure, env) == Err(Internal("pushAtom: STGVAR"))
  {
  }

  /** The instructions emitted by pushing `atoms` left to right; it fails
      with the first atom pushAtom rejects. */
  function PushAll(atoms: seq<Atom>, info: map<VarId, Info>, closure: map<Global, Closure>,
                   env: Env): (r: Result<seq<Op>>)
    ensures r.Ok? <==> forall i :: 0 <= i < |atoms| ==> PushChoice(atoms[i], info, closure, env).Ok?
    ensures r.Ok? ==> |r.value| == |atoms|
    ensures r.Ok? ==> forall i :: 0 <= i < |atoms| ==> r.value[i] == PushChoice(atoms[i], info, closure, env).value
    ensures r.Ok? ==> forall i :: 0 <= i < |r.value| ==> IsPush(r.value[i])
  {
    if atoms == [] then Ok([])
    else
      var op :- PushChoice(atoms[0], info, closure, env);
      var rest :- PushAll(atoms[1..], info, closure, env);
      assert forall i :: 1 <= i < |atoms| ==> atoms[i] == atoms[1..][i - 1];
      Ok([op] + rest)
  }

  /** Pushing one more atom appends its instruction. */
  lemma PushAllSnoc(atoms: seq<Atom>, a: Atom, info: map<VarId, Info>,
                    closure: map<Global, Closure>, env: Env)
    requires PushAll(atoms, info, closure, env).Ok?
    requires PushChoice(a, info, closure, env).Ok?
    ensures PushAll(atoms + [a], info, closure, env) ==
              Ok(PushAll(atoms, info, closure, env).value + [PushChoice(a, info, closure, env).value])
  {
    var xs := atoms + [a];
    assert forall i :: 0 <= i < |atoms| ==> xs[i] == atoms[i];
    assert xs[|atoms|] == a;
    assert PushAll(xs, info, closure, env).Ok?;
    var lhs := PushAll(xs, info, closure, env).value;
    var rhs := PushAll(atoms, info, closure, env).value + [PushChoice(a, info, closure, env).value];
    assert |lhs| == |rhs|;
    forall i | 0 <= i < |xs| ensures lhs[i] == rhs[i] {
      if i < |atoms| { assert xs[i] == atoms[i]; }
    }
    assert lhs == rhs;
  }

  /** The failure reported for a list is the failure of its first
      rejected atom. */
  lemma {:induction false} PushAllFirstError(atoms: seq<Atom>, k: nat, info: map<VarId, Info>,
                                             closure: map<Global, Closure>, env: Env)
    requires k < |atoms|
    requires PushAll(atoms[..k], info, closure, env).Ok?
    requires PushChoice(atoms[k], info, closure, env).Err?
    ensures PushAll(atoms, info, closure, env) == Err(PushChoice(atoms[k], info, closure, env).error)
  {
    if k > 0 {
      assert atoms[1..][..k - 1] == atoms[1..k];
      assert PushChoice(atoms[0], info, closure, env).Ok? by {
        assert atoms[..k][0] == atoms[0];
      }
      var tail := atoms[1..][..k - 1];
      assert PushAll(tail, info, closure, env).Ok? by {
        forall i | 0 <= i < |tail| ensures PushChoice(tail[i], info, closure, env).Ok? {
          assert tail[i] == atoms[..k][i + 1];
        }
      }
      PushAllFirstError(atoms[1..], k - 1, info, closure, env);
    }
  }

  /** cgAddPtrToObject: the reference slot added to a constructor object
      for a closure field; only staged objects and heap closures qualify. */
  function AddPtrChoice(c: Closure): (r: Result<Op>)
    ensures r.Ok? <==> c.CPtr? || c.MPtr?
    ensures c.CPtr? ==> r == Ok(AddRefNoOp(c.addr))
    ensures c.MPtr? ==> r == Ok(AddRefObject(c.obj))
  {
    match c
    case CPtr(p) => Ok(AddRefNoOp(p))
    case MPtr(o) => Ok(AddRefObject(o))
    case _ => Err(Internal("cgAddPtrToObject"))
  }

  /** endTop's reference slot for one field of a top-level constructor: a
      top-level variable contributes its staged object, a name whatever its
      closure field holds, a string literal a fresh string object (unless
      strings are literal addresses); any other field is unimplemented. */
  function FieldChoice(a: Atom, info: map<VarId, Info>, closure: map<Global, Closure>,
                       env: Env): (r: Result<Op>)
    ensures r.Ok? ==> r.value.AddRefObject? || r.value.AddRefNoOp? || r.value.AddStringObj?
    ensures r.Ok? ==> a.AVar? || (a.AGlobal? && a.g.GName?) || (a.AStr? && !env.useAddrForStrings)
    ensures a.AVar? ==> (r.Ok? <==> InfoOf(info, a.v).MPtrInfo?)
    ensures a.AVar? && r.Ok? ==> r.value == AddRefObject(InfoOf(info, a.v).obj)
    ensures a.AGlobal? && a.g.GName? ==> r == AddPtrChoice(ClosureOf(closure, a.g))
    ensures a.AStr? && !env.useAddrForStrings ==> r == Ok(AddStringObj(a.s))
  {
    match a
    case AVar(v) =>
      if InfoOf(info, v).MPtrInfo? then Ok(AddRefObject(InfoOf(info, v).obj))
      else Err(Internal("endTop: getObj"))
    case AGlobal(GName(n)) => AddPtrChoice(ClosureOf(closure, GName(n)))
    case AStr(s) =>
      if env.useAddrForStrings then Err(Unsupported("endTop: constructor field"))
      else Ok(AddStringObj(s))
    case _ => Err(Unsupported("endTop: constructor field"))
  }
}
