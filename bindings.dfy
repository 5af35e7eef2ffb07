/** Decisions of the two-pass allocate/build protocol for let-bound
    variables: the payload size alloc reserves for an application, the
    PAP-or-AP choice build makes, and the agreement between the two. */
module Bindings {
  import opened Stg
  import opened Asm
  import opened Atoms

  function Reverse<T>(s: seq<T>): (r: seq<T>)
    ensures |r| == |s|
    ensures forall i :: 0 <= i < |s| ==> r[i] == s[|s| - 1 - i]
  {
    if s == [] then [] else Reverse(s[1..]) + [s[0]]
  }

  /** Words one application argument occupies in an AP: one for a name,
      asmRepSizeW of its representation for a variable. */
  function ArgWidth(a: Atom, env: Env): Result<nat>
  {
    match a
    case AGlobal(GName(_)) => Ok(1)
    case AVar(v) => Ok(env.repSizeW(v.rep))
    case _ => Err(Internal("alloc: STGAPP argument"))
  }

  /** totSizeW of alloc's STGAPP case: the sum of the argument widths. */
  function ApSize(args: seq<Atom>, env: Env): (r: Result<nat>)
    ensures r.Ok? <==> forall i :: 0 <= i < |args| ==> ArgWidth(args[i], env).Ok?
  {
    if args == [] then Ok(0)
    else
      var w :- ArgWidth(args[0], env);
      var rest :- ApSize(args[1..], env);
      assert forall i :: 1 <= i < |args| ==> args[i] == args[1..][i - 1];
      Ok(w + rest)
  }

  /** The AP size is additive over a split of the argument list. */
  lemma {:induction false} ApSizeAppend(a: seq<Atom>, b: seq<Atom>, env: Env)
    requires ApSize(a, env).Ok? && ApSize(b, env).Ok?
    ensures ApSize(a + b, env) == Ok(ApSize(a, env).value + ApSize(b, env).value)
  {
    if a == [] {
      assert a + b == b;
    } else {
      assert (a + b)[0] == a[0];
      assert (a + b)[1..] == a[1..] + b;
      ApSizeAppend(a[1..], b, env);
    }
  }

  /** The order the arguments are summed in does not matter. */
  lemma {:induction false} ApSizeReverse(args: seq<Atom>, env: Env)
    requires ApSize(args, env).Ok?
    ensures ApSize(Reverse(args), env) == ApSize(args, env)
  {
    if args != [] {
      ApSizeReverse(args[1..], env);
      assert ApSize([args[0]], env) == Ok(ArgWidth(args[0], env).value) by {
        assert [args[0]][1..] == [];
      }
      ApSizeAppend(Reverse(args[1..]), [args[0]], env);
    }
  }

  /** build's itsaPAP: a partial application is built exactly when the
      function needs more arguments than the application supplies; a
      function that is neither a name nor a variable is an internal error. */
  function ItsaPAP(fun: Atom, nargs: nat, env: Env): (r: Result<bool>)
    ensures r.Err? <==> !(fun.AVar? || (fun.AGlobal? && fun.g.GName? && fun.g.n in env.names))
    ensures r == Ok(true) <==>
              || (fun.AGlobal? && fun.g.GName? && fun.g.n in env.names && env.names[fun.g.n].arity > nargs)
              || (fun.AVar? && fun.v.id in env.varBody && env.varBody[fun.v.id].Lambda? &&
                  |env.varBody[fun.v.id].params| > nargs)
  {
    match fun
    case AGlobal(GName(n)) =>
      if n in env.names then Ok(env.names[n].arity > nargs) else Err(Internal("build: name table"))
    case AVar(v) =>
      if v.id in env.varBody && env.varBody[v.id].Lambda? && |env.varBody[v.id].params| > nargs
      then Ok(true) else Ok(false)
    case _ => Err(Internal("build: STGAPP"))
  }

  /** The body table agrees with a group of let bindings: each binder's
      body (stgVarBody) is its own right-hand side. */
  ghost predicate BodiesAgree(binds: seq<Binding>, env: Env)
  {
    forall j :: 0 <= j < |binds| ==>
      binds[j].v.id in env.varBody && env.varBody[binds[j].v.id] == binds[j].rhs
  }

  /** An application of a let-bound variable is a PAP exactly when that
      binding is a lambda over more parameters than the application
      supplies. */
  lemma LetBoundPAP(binds: seq<Binding>, k: nat, fun: Atom, nargs: nat, env: Env)
    requires BodiesAgree(binds, env) && k < |binds|
    requires fun.AVar? && fun.v.id == binds[k].v.id
    ensures ItsaPAP(fun, nargs, env) == Ok(binds[k].rhs.Lambda? && |binds[k].rhs.params| > nargs)
  {
  }

  /** Words a pushed item occupies on the stack. */
  function PushWidth(op: Op, env: Env): nat
  {
    match op
    case PushVar(_, rep) => env.repSizeW(rep)
    case PushRefNoOp(_) => 1
    case PushRefObject(_) => 1
    case PushRefHugs(_) => 1
    case _ => 0
  }

  function OpsWidth(ops: seq<Op>, env: Env): nat
  {
    if ops == [] then 0 else PushWidth(ops[0], env) + OpsWidth(ops[1..], env)
  }

  /** Variables whose info is an object or heap pointer are pointers of
      one word: the condition under which a reference push and a variable
      load agree on width. */
  predicate PointerSized(args: seq<Atom>, info: map<VarId, Info>, env: Env)
  {
    && env.repSizeW(PtrRep) == 1
    && forall i :: 0 <= i < |args| && args[i].AVar? && !InfoOf(info, args[i].v).Pos? ==>
         args[i].v.rep == PtrRep
  }

  lemma {:induction false} PushWidthIsApSize(args: seq<Atom>, info: map<VarId, Info>,
                                             closure: map<Global, Closure>, env: Env)
    requires ApSize(args, env).Ok?
    requires PushAll(args, info, closure, env).Ok?
    requires PointerSized(args, info, env)
    ensures OpsWidth(PushAll(args, info, closure, env).value, env) == ApSize(args, env).value
  {
    if args != [] {
      PointerSizedTail(args, info, env);
      PushWidthIsApSize(args[1..], info, closure, env);
      PushHead(args, info, closure, env);
    }
  }

  lemma PointerSizedTail(args: seq<Atom>, info: map<VarId, Info>, env: Env)
    requires args != [] && PointerSized(args, info, env)
    ensures PointerSized(args[1..], info, env)
  {
    forall i | 0 <= i < |args| - 1 && args[1..][i].AVar? && !InfoOf(info, args[1..][i].v).Pos?
      ensures args[1..][i].v.rep == PtrRep
    {
      assert args[1..][i] == args[i + 1];
    }
  }

  /** The first push is as wide as the first argument, and the rest are
      the pushes of the remaining arguments. */
  lemma PushHead(args: seq<Atom>, info: map<VarId, Info>, closure: map<Global, Closure>, env: Env)
    requires args != [] && ApSize(args, env).Ok? && PushAll(args, info, closure, env).Ok?
    requires PointerSized(args, info, env)
    ensures PushAll(args[1..], info, closure, env).Ok?
    ensures OpsWidth(PushAll(args, info, closure, env).value, env) ==
            ArgWidth(args[0], env).value + OpsWidth(PushAll(args[1..], info, closure, env).value, env)
  {
    var ops := PushAll(args, info, closure, env).value;
    assert ops[1..] == PushAll(args[1..], info, closure, env).value;
    assert PushWidth(ops[0], env) == ArgWidth(args[0], env).value;
  }

  /** Size stability of the allocate/build protocol: the words build pushes
      for an application's arguments (in reverse order) are exactly the
      payload alloc reserved with asmAllocAP. */
  lemma BuildFillsWhatAllocReserved(args: seq<Atom>, info: map<VarId, Info>,
                                    closure: map<Global, Closure>, env: Env)
    requires ApSize(args, env).Ok?
    requires PushAll(Reverse(args), info, closure, env).Ok?
    requires PointerSized(args, info, env)
    ensures OpsWidth(PushAll(Reverse(args), info, closure, env).value, env) == ApSize(args, env).value
  {
    ApSizeReverse(args, env);
    assert PointerSized(Reverse(args), info, env) by {
      forall i | 0 <= i < |args| && Reverse(args)[i].AVar? && !InfoOf(info, Reverse(args)[i].v).Pos?
        ensures Reverse(args)[i].v.rep == PtrRep
      {
        assert Reverse(args)[i] == args[|args| - 1 - i];
      }
    }
    PushWidthIsApSize(Reverse(args), info, closure, env);
  }
}
