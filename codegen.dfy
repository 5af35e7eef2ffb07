/** The code generator proper: a Generator holds the symbol table's
    closure fields, the STG variables' info cells and the assembler's arena
    of staged objects, and its methods walk STG trees emitting assembler
    calls (cgExpr and friends), stage the top-level bindings of a module
    (beginTop, endTop) and link them (cgModule). */
module CodeGen {
  import opened Stg
  import opened Asm
  import opened Atoms
  import opened Alts
  import opened Bindings
  import opened Linker

  /** The stack position getPos reads from a variable's info cell. */
  function GetPos(info: map<VarId, Info>, v: Var): (r: Result<int>)
    ensures r.Ok? <==> InfoOf(info, v).Pos?
    ensures r.Ok? ==> r.value == InfoOf(info, v).sp
  {
    if InfoOf(info, v).Pos? then Ok(InfoOf(info, v).sp) else Err(Internal("getPos"))
  }

  /** One asmBind per variable, in order. */
  function BindOps(vs: seq<Var>): (r: seq<Op>)
    ensures |r| == |vs|
    ensures forall i :: 0 <= i < |vs| ==> r[i] == Bind(vs[i].rep)
  {
    if vs == [] then [] else BindOps(vs[..|vs| - 1]) + [Bind(vs[|vs| - 1].rep)]
  }

  /** The info cells after cgBind-ing `vs` one after another from stack
      position `start`. */
  function Bound(info: map<VarId, Info>, vs: seq<Var>, start: int): map<VarId, Info>
  {
    if vs == [] then info
    else Bound(info, vs[..|vs| - 1], start)[vs[|vs| - 1].id := Pos(start + |vs| - 1)]
  }

  /** After binding, a variable bound at index j and not rebound later
      sits at stack position start + j. */
  lemma {:induction false} BindPositionLast(info: map<VarId, Info>, vs: seq<Var>, start: int, j: nat)
    requires j < |vs|
    requires forall k :: j < k < |vs| ==> vs[k].id != vs[j].id
    ensures InfoOf(Bound(info, vs, start), vs[j]) == Pos(start + j)
  {
    var n := |vs| - 1;
    if j < n {
      var init := vs[..n];
      assert init[j] == vs[j];
      assert forall k :: j < k < |init| ==> init[k] == vs[k];
      BindPositionLast(info, init, start, j);
    }
  }

  /** Binding leaves every variable not among `vs` as it was. */
  lemma {:induction false} BindLeavesOthers(info: map<VarId, Info>, vs: seq<Var>, start: int, v: Var)
    requires forall k :: 0 <= k < |vs| ==> vs[k].id != v.id
    ensures InfoOf(Bound(info, vs, start), v) == InfoOf(info, v)
  {
    if vs != [] {
      var init := vs[..|vs| - 1];
      assert forall k :: 0 <= k < |init| ==> init[k] == vs[k];
      BindLeavesOthers(info, init, start, v);
    }
  }

  /** The atoms a tail call pushes, last pushed first entered: the
      reversed arguments then the function for an application, the atom
      itself for a name, a tuple or a pointer-represented variable. */
  function TailCallAtoms(e: Expr): Option<seq<Atom>>
  {
    match e
    case App(fun, args) => Some(Reverse(args) + [fun])
    case AtomExpr(AGlobal(g)) => Some([AGlobal(g)])
    case AtomExpr(AVar(v)) =>
      if v.rep == PtrRep || v.rep == AlphaRep || v.rep == BetaRep then Some([AVar(v)]) else None
    case _ => None
  }

  /** The expressions cgExpr refuses before emitting anything, with the
      error it raises: an unboxed integer return is not implemented, a
      variable of any other non-pointer representation, a literal, a
      constructor application or a pointer cell is an internal error, and
      a primitive case on anything but a primitive or a variable is not
      implemented. */
  function Rejected(e: Expr): Option<Error>
  {
    match e
    case AtomExpr(AVar(v)) =>
      if v.rep == PtrRep || v.rep == AlphaRep || v.rep == BetaRep then None
      else if v.rep == IntRep then Some(Unsupported("cgExpr: INT_REP return"))
      else Some(Internal("cgExpr StgVar"))
    case AtomExpr(AGlobal(_)) => None
    case AtomExpr(_) => Some(Internal("cgExpr"))
    case ConApp(_, _) => Some(Internal("cgExpr"))
    case PrimCase(scrut, _) =>
      if scrut.Prim? || (scrut.AtomExpr? && scrut.a.AVar?) then None
      else Some(Unsupported("cgExpr: PRIMCASE scrutinee"))
    case _ => None
  }

  /** Every expression is either a tail call, refused up front, or one of
      the compound forms cgExpr compiles structurally. */
  lemma CgExprCases(e: Expr)
    ensures TailCallAtoms(e).Some? ==> Rejected(e).None?
    ensures TailCallAtoms(e).None? && Rejected(e).None? ==>
              e.LetRec? || e.Lambda? || e.Case? || e.PrimCase? || e.Prim?
  {
  }

  /** The kind of object beginTop stages for a top-level right-hand side. */
  function TopKind(rhs: Expr, env: Env): (r: Result<ObjKind>)
    ensures r.Err? <==> rhs.ConApp? && rhs.con !in env.cons
  {
    match rhs
    case ConApp(con, _) =>
      if con in env.cons then Ok(ConObj(env.cons[con].layout)) else Err(Internal("stgConInfo"))
    case Lambda(_, _) => Ok(BcoObj)
    case _ => Ok(CafObj)
  }

  /** The reference slots endTop adds to a top-level constructor object. */
  function FieldsAll(args: seq<Atom>, info: map<VarId, Info>, closure: map<Global, Closure>,
                     env: Env): (r: Result<seq<Op>>)
    ensures r.Ok? <==> forall i :: 0 <= i < |args| ==> FieldChoice(args[i], info, closure, env).Ok?
    ensures r.Ok? ==> |r.value| == |args|
    ensures r.Ok? ==> forall i :: 0 <= i < |args| ==> r.value[i] == FieldChoice(args[i], info, closure, env).value
  {
    if args == [] then Ok([])
    else
      var init := args[..|args| - 1];
      var rest :- FieldsAll(init, info, closure, env);
      var op :- FieldChoice(args[|args| - 1], info, closure, env);
      assert forall i :: 0 <= i < |init| ==> args[i] == init[i];
      Ok(rest + [op])
  }

  /** A right-hand side build treats as an application of nothing: a name
      or a variable. */
  predicate IsNameOrVar(rhs: Expr)
  {
    rhs.AtomExpr? && ((rhs.a.AGlobal? && rhs.a.g.GName?) || rhs.a.AVar?)
  }

  /** A right-hand side alloc and build treat as an updatable thunk. */
  predicate IsThunk(rhs: Expr)
  {
    !rhs.ConApp? && !rhs.App? && !rhs.Lambda? && !IsNameOrVar(rhs)
  }

  /** The code alloc emits for one binding, under the variable info
      `info` it starts with. */
  ghost predicate AllocCode(b: Binding, seg: seq<Op>, info: map<VarId, Info>, closure: map<Global, Closure>,
                            env: Env)
  {
    match b.rhs
    case ConApp(con, cargs) =>
      && con in env.cons
      && (if env.cons[con].boxRep.None? then seg == [AllocConstr(env.cons[con].layout)]
          else |cargs| > 0 && PushChoice(cargs[0], info, closure, env).Ok? &&
               seg == [PushChoice(cargs[0], info, closure, env).value, Box(env.cons[con].boxRep.value)])
    case App(_, args) => ApSize(args, env).Ok? && seg == [AllocAP(ApSize(args, env).value)]
    case Lambda(_, _) => seg == []
    case _ => seg == [AllocAP(0)]
  }

  /** Begin, the pushes, then the end instruction filling the object at
      the binder's position `pos`, begun at stack position `start`. */
  ghost predicate Sandwich(seg: seq<Op>, begin: Op, pushes: Result<seq<Op>>, pos: Result<int>, finish: Op,
                           start: int)
    requires finish.EndPack? || finish.EndMkPAP? || finish.EndMkAP?
  {
    pushes.Ok? && pos.Ok? && seg == [begin] + pushes.value + [finish.(pos := pos.value, start := start)]
  }

  /** The code build emits for one binding, from the generator state
      `pre` it starts in; a thunk's code also depends on the state `post`
      it leaves. */
  ghost predicate BuildCode(b: Binding, seg: seq<Op>, pre: BuildEmit, post: BuildEmit,
                            closure: map<Global, Closure>, env: Env)
  {
    var info, start := pre.info, pre.start;
    match b.rhs
    case Lambda(_, _) => seg == []
    case ConApp(con, cargs) =>
      && con in env.cons
      && (if env.cons[con].boxRep.Some? then seg == []
          else Sandwich(seg, BeginPack, PushAll(Reverse(cargs), info, closure, env), GetPos(info, b.v),
                        EndPack(0, 0, env.cons[con].layout), start))
    case App(fun, args) =>
      var pap := ItsaPAP(fun, |args|, env);
      && pap.Ok?
      && Sandwich(seg, if pap.value then BeginMkPAP else BeginMkAP, PushAll(Reverse(args) + [fun], info, closure, env),
                  GetPos(info, b.v), if pap.value then EndMkPAP(0, 0) else EndMkAP(0, 0), start)
    case AtomExpr(a) =>
      if IsNameOrVar(b.rhs) then
        Sandwich(seg, BeginMkAP, PushAll([a], info, closure, env), GetPos(info, b.v), EndMkAP(0, 0), start)
      else ThunkCode(seg, b.v, pre, post)
    case _ => ThunkCode(seg, b.v, pre, post)
  }

  /** A thunk's build: an updatable application, filled at the binder's
      position as the info is once its right-hand side is compiled, of a
      reference to the first object that compilation staged (the BCO of
      the right-hand side). */
  ghost predicate ThunkCode(seg: seq<Op>, v: Var, pre: BuildEmit, post: BuildEmit)
  {
    && GetPos(post.info, v).Ok?
    && seg == [BeginMkAP, PushRefObject(pre.count), EndMkAP(GetPos(post.info, v).value, pre.start)]
  }

  /** Once the first `i` bindings are allocated, each of their binders
      has a stack position or, for a lambda, an object, unless a later
      lambda among them was compiled since (compiling it may rebind
      variables). */
  ghost predicate Allocated(binds: seq<Binding>, i: nat, info: map<VarId, Info>)
  {
    forall j :: 0 <= j < i && j < |binds| ==>
      || InfoOf(info, binds[j].v).Pos?
      || InfoOf(info, binds[j].v).MPtrInfo?
      || exists k :: j < k < i && k < |binds| && binds[k].rhs.Lambda?
  }

  lemma AllocatedStep(binds: seq<Binding>, i: nat, info: map<VarId, Info>, info': map<VarId, Info>, p: int)
    requires i < |binds| && Allocated(binds, i, info)
    requires binds[i].rhs.Lambda? ==> InfoOf(info', binds[i].v).MPtrInfo?
    requires !binds[i].rhs.Lambda? ==> info' == info[binds[i].v.id := Pos(p)]
    ensures Allocated(binds, i + 1, info')
  {
    forall j | 0 <= j < i + 1 && j < |binds|
      ensures || InfoOf(info', binds[j].v).Pos?
              || InfoOf(info', binds[j].v).MPtrInfo?
              || exists k :: j < k < i + 1 && k < |binds| && binds[k].rhs.Lambda?
    {
      if j < i && binds[i].rhs.Lambda? {
        assert binds[i].rhs.Lambda?;
      }
    }
  }

  /** The generator's variable info and stack position before one alloc
      (and, last, after them all). */
  datatype AllocEmit = AllocEmit(info: map<VarId, Info>, at: int)

  /** The alloc segments of the first |allocs| bindings: each is
      AllocCode under the info it started with, and each alloc other
      than a lambda's binds its variable at the next stack position. */
  ghost predicate AllocsFit(binds: seq<Binding>, allocs: seq<seq<Op>>, ems: seq<AllocEmit>,
                            closure: map<Global, Closure>, env: Env)
  {
    && |ems| == |allocs| + 1 && |allocs| <= |binds|
    && (forall j :: 0 <= j < |allocs| ==> AllocCode(binds[j], allocs[j], ems[j].info, closure, env))
    && AllocChain(binds, |allocs|, ems)
  }

  /** How the first n allocs move the variable info and stack position. */
  ghost predicate AllocChain(binds: seq<Binding>, n: nat, ems: seq<AllocEmit>)
  {
    && |ems| == n + 1 && n <= |binds|
    && (forall j :: 0 <= j < n && !binds[j].rhs.Lambda? ==>
          ems[j + 1] == AllocEmit(ems[j].info[binds[j].v.id := Pos(ems[j].at)], ems[j].at + 1))
    && forall j :: 0 <= j < n && binds[j].rhs.Lambda? ==> InfoOf(ems[j + 1].info, binds[j].v).MPtrInfo?
  }

  lemma AllocsSnoc(binds: seq<Binding>, allocs: seq<seq<Op>>, ems: seq<AllocEmit>,
                   closure: map<Global, Closure>, env: Env, seg: seq<Op>, next: AllocEmit)
    requires AllocsFit(binds, allocs, ems, closure, env) && |allocs| < |binds|
    requires AllocCode(binds[|allocs|], seg, ems[|allocs|].info, closure, env)
    requires !binds[|allocs|].rhs.Lambda? ==>
               next == AllocEmit(ems[|allocs|].info[binds[|allocs|].v.id := Pos(ems[|allocs|].at)],
                                 ems[|allocs|].at + 1)
    requires binds[|allocs|].rhs.Lambda? ==> InfoOf(next.info, binds[|allocs|].v).MPtrInfo?
    ensures AllocsFit(binds, allocs + [seg], ems + [next], closure, env)
  {
    var allocs', ems' := allocs + [seg], ems + [next];
    forall j | 0 <= j < |allocs'| ensures AllocCode(binds[j], allocs'[j], ems'[j].info, closure, env) {
      if j < |allocs| {
        assert allocs'[j] == allocs[j] && ems'[j] == ems[j];
      }
    }
    forall j | 0 <= j < |allocs'| && !binds[j].rhs.Lambda?
      ensures ems'[j + 1] == AllocEmit(ems'[j].info[binds[j].v.id := Pos(ems'[j].at)], ems'[j].at + 1)
    {
      assert ems'[j] == ems[j];
      if j < |allocs| {
        assert ems'[j + 1] == ems[j + 1];
      }
    }
    forall j | 0 <= j < |allocs'| && binds[j].rhs.Lambda? ensures InfoOf(ems'[j + 1].info, binds[j].v).MPtrInfo? {
      if j < |allocs| {
        assert ems'[j + 1] == ems[j + 1];
      }
    }
  }

  /** The generator's variable info, stack position and number of staged
      objects before one build (and, last, after them all). */
  datatype BuildEmit = BuildEmit(info: map<VarId, Info>, start: int, count: nat)

  /** The build segments of the first |builds| bindings: each is
      BuildCode under the info and from the position it started with;
      a build that compiles no nested code leaves the info as it was. */
  ghost predicate BuildsFit(binds: seq<Binding>, builds: seq<seq<Op>>, ems: seq<BuildEmit>,
                            closure: map<Global, Closure>, env: Env)
  {
    && |ems| == |builds| + 1 && |builds| <= |binds|
    && (forall j :: 0 <= j < |builds| ==> BuildCode(binds[j], builds[j], ems[j], ems[j + 1], closure, env))
    && BuildChain(binds, |builds|, ems)
  }

  /** The first n builds keep the variable info, except a thunk's. */
  ghost predicate BuildChain(binds: seq<Binding>, n: nat, ems: seq<BuildEmit>)
  {
    && |ems| == n + 1 && n <= |binds|
    && forall j :: 0 <= j < n && !IsThunk(binds[j].rhs) ==> ems[j + 1].info == ems[j].info
  }

  /** Each thunk among the builds recorded in `ems` referenced a BCO
      staged at index `lo` or later. */
  ghost predicate ThunkObjects(binds: seq<Binding>, ems: seq<BuildEmit>, objs: seq<AsmObject>, lo: nat)
  {
    forall j :: 0 <= j < |ems| - 1 && j < |binds| && IsThunk(binds[j].rhs) ==>
      lo <= ems[j].count < |objs| && objs[ems[j].count].kind == BcoObj
  }

  /** The thunk objects survive further growth of an older object, and
      one more build keeps the record. */
  lemma ThunkStep(binds: seq<Binding>, ems: seq<BuildEmit>, a: seq<AsmObject>, b: seq<AsmObject>, lo: nat,
                  o: ObjId, next: BuildEmit)
    requires ThunkObjects(binds, ems, a, lo) && Grows(a, b, o) && o < lo && ems != [] && |ems| <= |binds|
    requires ems[|ems| - 1].count == |a| && lo <= |a|
    requires IsThunk(binds[|ems| - 1].rhs) ==> |a| < |b| && b[|a|].kind == BcoObj
    ensures ThunkObjects(binds, ems + [next], b, lo)
  {
    var ems' := ems + [next];
    forall j | 0 <= j < |ems'| - 1 && j < |binds| && IsThunk(binds[j].rhs)
      ensures lo <= ems'[j].count < |b| && b[ems'[j].count].kind == BcoObj
    {
      assert ems'[j] == ems[j];
    }
  }

  lemma ThunkObjectsGrow(binds: seq<Binding>, ems: seq<BuildEmit>, a: seq<AsmObject>, b: seq<AsmObject>, lo: nat,
                         o: ObjId)
    requires ThunkObjects(binds, ems, a, lo) && Grows(a, b, o) && o < lo
    ensures ThunkObjects(binds, ems, b, lo)
  {
  }

  lemma BuildsSnoc(binds: seq<Binding>, builds: seq<seq<Op>>, ems: seq<BuildEmit>,
                   closure: map<Global, Closure>, env: Env, seg: seq<Op>, next: BuildEmit)
    requires BuildsFit(binds, builds, ems, closure, env) && |builds| < |binds|
    requires BuildCode(binds[|builds|], seg, ems[|builds|], next, closure, env)
    requires !IsThunk(binds[|builds|].rhs) ==> next.info == ems[|builds|].info
    ensures BuildsFit(binds, builds + [seg], ems + [next], closure, env)
  {
    var builds', ems' := builds + [seg], ems + [next];
    forall j | 0 <= j < |builds'|
      ensures BuildCode(binds[j], builds'[j], ems'[j], ems'[j + 1], closure, env)
    {
      if j < |builds| {
        assert builds'[j] == builds[j] && ems'[j] == ems[j] && ems'[j + 1] == ems[j + 1];
      }
    }
    forall j | 0 <= j < |builds'| && !IsThunk(binds[j].rhs) ensures ems'[j + 1].info == ems'[j].info {
      assert ems'[j] == ems[j];
      if j < |builds| {
        assert ems'[j + 1] == ems[j + 1];
      }
    }
  }

  /** Without thunks among the bindings, every build reads the variable
      info the alloc loop left: each finds its binder where alloc put it. */
  lemma {:induction false} BuildsSeeAllocs(binds: seq<Binding>, n: nat, ems: seq<BuildEmit>, j: nat)
    requires BuildChain(binds, n, ems)
    requires forall k :: 0 <= k < |binds| ==> !IsThunk(binds[k].rhs)
    requires j < |ems|
    ensures ems[j].info == ems[0].info
  {
    if j > 0 {
      BuildsSeeAllocs(binds, n, ems, j - 1);
      assert !IsThunk(binds[j - 1].rhs);
    }
  }

  /** What the LETREC case emitted, piece by piece. */
  datatype LetRecEmit =
    LetRecEmit(allocs: seq<seq<Op>>, aems: seq<AllocEmit>, builds: seq<seq<Op>>, bems: seq<BuildEmit>, body: seq<Op>)

  /** The code of a LETREC: every binding's alloc, in order, then every
      binding's build, in order, then the body; the builds start from the
      variable info and stack position the allocs left, where every
      binder has a place. */
  ghost predicate LetRecCode(e: Expr, c0: seq<Op>, info0: map<VarId, Info>, at0: int, lr: LetRecEmit, code: seq<Op>,
                             closure: map<Global, Closure>, env: Env)
    requires e.LetRec?
  {
    && |lr.allocs| == |e.binds| && |lr.builds| == |e.binds|
    && AllocsFit(e.binds, lr.allocs, lr.aems, closure, env) && lr.aems[0] == AllocEmit(info0, at0)
    && BuildsFit(e.binds, lr.builds, lr.bems, closure, env)
    && lr.bems[0].info == lr.aems[|e.binds|].info && lr.bems[0].start == lr.aems[|e.binds|].at
    && Allocated(e.binds, |e.binds|, lr.bems[0].info)
    && code == c0 + Concat(lr.allocs) + Concat(lr.builds) + lr.body
  }

  /** A log that holds the segments so far and then grew holds one
      more segment. */
  lemma SnocCode(c0: seq<Op>, segs: seq<seq<Op>>, c1: seq<Op>, code: seq<Op>)
    requires c1 == c0 + Concat(segs) && c1 <= code
    ensures code == c0 + Concat(segs + [code[|c1|..]])
  {
    Suffix(c1, code);
    ConcatSnoc(segs, code[|c1|..]);
  }

  /** One turn of the alloc loop: the object grew by the binding's
      alloc code, from the info and stack position the last turn left. */
  lemma AllocStep(binds: seq<Binding>, allocs: seq<seq<Op>>, ems: seq<AllocEmit>, closure: map<Global, Closure>,
                  env: Env, c0: seq<Op>, c1: seq<Op>, code: seq<Op>, info1: map<VarId, Info>, at1: int,
                  info: map<VarId, Info>, at: int)
    requires AllocsFit(binds, allocs, ems, closure, env) && |allocs| < |binds|
    requires ems[|allocs|] == AllocEmit(info1, at1) && Allocated(binds, |allocs|, info1)
    requires c1 == c0 + Concat(allocs) && c1 <= code
    requires AllocCode(binds[|allocs|], code[|c1|..], info1, closure, env)
    requires !binds[|allocs|].rhs.Lambda? ==> info == info1[binds[|allocs|].v.id := Pos(at1)] && at == at1 + 1
    requires binds[|allocs|].rhs.Lambda? ==> InfoOf(info, binds[|allocs|].v).MPtrInfo?
    ensures AllocsFit(binds, allocs + [code[|c1|..]], ems + [AllocEmit(info, at)], closure, env)
    ensures Allocated(binds, |allocs| + 1, info)
    ensures code == c0 + Concat(allocs + [code[|c1|..]])
  {
    SnocCode(c0, allocs, c1, code);
    AllocsSnoc(binds, allocs, ems, closure, env, code[|c1|..], AllocEmit(info, at));
    AllocatedStep(binds, |allocs|, info1, info, at1);
  }

  /** One turn of the build loop. */
  lemma BuildStep(binds: seq<Binding>, builds: seq<seq<Op>>, ems: seq<BuildEmit>, closure: map<Global, Closure>,
                  env: Env, c0: seq<Op>, c1: seq<Op>, code: seq<Op>, next: BuildEmit)
    requires BuildsFit(binds, builds, ems, closure, env) && |builds| < |binds|
    requires c1 == c0 + Concat(builds) && c1 <= code
    requires BuildCode(binds[|builds|], code[|c1|..], ems[|builds|], next, closure, env)
    requires !IsThunk(binds[|builds|].rhs) ==> next.info == ems[|builds|].info
    ensures BuildsFit(binds, builds + [code[|c1|..]], ems + [next], closure, env)
    ensures code == c0 + Concat(builds + [code[|c1|..]])
  {
    SnocCode(c0, builds, c1, code);
    BuildsSnoc(binds, builds, ems, closure, env, code[|c1|..], next);
  }

  /** The three loops of the LETREC case put together. */
  lemma LetRecLayout(e: Expr, c0: seq<Op>, info0: map<VarId, Info>, at0: int, lr: LetRecEmit, c1: seq<Op>,
                     c2: seq<Op>, code: seq<Op>, closure: map<Global, Closure>, env: Env)
    requires e.LetRec?
    requires |lr.allocs| == |e.binds| && AllocsFit(e.binds, lr.allocs, lr.aems, closure, env)
    requires lr.aems[0] == AllocEmit(info0, at0)
    requires Allocated(e.binds, |e.binds|, lr.aems[|e.binds|].info)
    requires c1 == c0 + Concat(lr.allocs)
    requires |lr.builds| == |e.binds| && BuildsFit(e.binds, lr.builds, lr.bems, closure, env)
    requires lr.bems[0].info == lr.aems[|e.binds|].info && lr.bems[0].start == lr.aems[|e.binds|].at
    requires c2 == c1 + Concat(lr.builds)
    requires c2 <= code && lr.body == code[|c2|..]
    ensures LetRecCode(e, c0, info0, at0, lr, code, closure, env)
  {
    Suffix(c2, code);
  }

  /** Without lambdas, the n-th alloc starts n stack positions on. */
  lemma {:induction false} AllocsAdvance(binds: seq<Binding>, m: nat, ems: seq<AllocEmit>, n: nat)
    requires AllocChain(binds, m, ems) && n <= m
    requires forall k :: 0 <= k < |binds| ==> !binds[k].rhs.Lambda?
    ensures ems[n].at == ems[0].at + n
  {
    if n > 0 {
      AllocsAdvance(binds, m, ems, n - 1);
      assert !binds[n - 1].rhs.Lambda?;
    }
  }

  /** Without lambdas and with distinct binders, after n allocs the j-th
      binder (j < n) sits at the stack position its own alloc took. */
  lemma {:induction false} AllocsPlace(binds: seq<Binding>, m: nat, ems: seq<AllocEmit>, n: nat, j: nat)
    requires AllocChain(binds, m, ems) && n <= m
    requires forall k :: 0 <= k < |binds| ==> !binds[k].rhs.Lambda?
    requires forall k, l :: 0 <= k < l < |binds| ==> binds[k].v.id != binds[l].v.id
    requires j < n
    ensures InfoOf(ems[n].info, binds[j].v) == Pos(ems[0].at + j)
  {
    assert !binds[n - 1].rhs.Lambda?;
    if j == n - 1 {
      AllocsAdvance(binds, m, ems, j);
    } else {
      AllocsPlace(binds, m, ems, n - 1, j);
      assert binds[j].v.id != binds[n - 1].v.id;
    }
  }

  /** The point of alloc before build in a LETREC: when no binding is a
      lambda or a thunk and the binders are distinct, the j-th build
      fills the object at the stack position the j-th alloc reserved. */
  lemma LetRecBuildsFillAllocs(e: Expr, c0: seq<Op>, info0: map<VarId, Info>, at0: int, lr: LetRecEmit,
                               code: seq<Op>, closure: map<Global, Closure>, env: Env, j: nat)
    requires e.LetRec? && LetRecCode(e, c0, info0, at0, lr, code, closure, env)
    requires forall k :: 0 <= k < |e.binds| ==> !e.binds[k].rhs.Lambda?
    requires forall k :: 0 <= k < |e.binds| ==> !IsThunk(e.binds[k].rhs)
    requires forall k, l :: 0 <= k < l < |e.binds| ==> e.binds[k].v.id != e.binds[l].v.id
    requires j < |e.binds|
    ensures GetPos(lr.bems[j].info, e.binds[j].v) == Ok(at0 + j)
  {
    BuildsFillAllocs(e.binds, lr.aems, lr.bems, info0, at0, j);
  }

  lemma BuildsFillAllocs(binds: seq<Binding>, aems: seq<AllocEmit>, bems: seq<BuildEmit>, info0: map<VarId, Info>,
                         at0: int, j: nat)
    requires AllocChain(binds, |binds|, aems) && aems[0] == AllocEmit(info0, at0)
    requires BuildChain(binds, |binds|, bems)
    requires bems[0].info == aems[|binds|].info
    requires forall k :: 0 <= k < |binds| ==> !binds[k].rhs.Lambda?
    requires forall k :: 0 <= k < |binds| ==> !IsThunk(binds[k].rhs)
    requires forall k, l :: 0 <= k < l < |binds| ==> binds[k].v.id != binds[l].v.id
    requires j < |binds|
    ensures GetPos(bems[j].info, binds[j].v) == Ok(at0 + j)
  {
    BuildsSeeAllocs(binds, |binds|, bems, j);
    AllocsPlace(binds, |binds|, aems, |binds|, j);
    var info := bems[j].info;
    assert info == aems[|binds|].info;
    assert InfoOf(info, binds[j].v) == Pos(at0 + j);
    PosFound(info, binds[j].v, at0 + j);
  }

  lemma PosFound(info: map<VarId, Info>, v: Var, p: int)
    requires InfoOf(info, v) == Pos(p)
    ensures GetPos(info, v) == Ok(p)
  {
  }

  /** A BCO staged after `before`, opened with `header` and then grown,
      leaves every older object alone and still opens with `header`. */
  lemma NewBcoGrows(before: seq<AsmObject>, o1: seq<AsmObject>, o2: seq<AsmObject>, o3: seq<AsmObject>, bco: ObjId,
                    header: seq<Op>)
    requires bco == |before| && o1 == before + [AsmObject(BcoObj, [], false)]
    requires o2 == AppendAll(o1, bco, header)
    requires Grows(o2, o3, bco)
    ensures Preserves(before, o3) && bco < |o3| && o3[bco].kind == BcoObj && !o3[bco].complete
    ensures header <= o3[bco].code
  {
    assert o2[bco].code == header;
  }

  /** Ending that BCO completes it and keeps the rest. */
  lemma NewBcoEnds(before: seq<AsmObject>, o3: seq<AsmObject>, after: seq<AsmObject>, bco: ObjId, header: seq<Op>)
    requires Preserves(before, o3) && bco == |before| < |o3| && o3[bco].kind == BcoObj && header <= o3[bco].code
    requires NewComplete(before + [o3[bco]], o3)
    requires after == o3[bco := o3[bco].(complete := true)]
    ensures Preserves(before, after) && bco < |after| && after[bco].kind == BcoObj && after[bco].complete
    ensures NewComplete(before, after) && header <= after[bco].code
  {
  }

  /** A log that grew by `x` holds `x` after its old end. */
  lemma SliceOf(c0: seq<Op>, x: seq<Op>, code: seq<Op>)
    requires code == c0 + x
    ensures code[|c0|..] == x
  {
  }

  /** Every entry of `codeList` that was not a heap closure in `initial`
      was a tree and now names its own ended object `m[g]`: complete, and
      the object the tree's variable was bound to in `cells[g]`, the info
      table its endTop read. */
  ghost predicate EndedEntries(initial: map<Global, Closure>, closure: map<Global, Closure>, codeList: seq<Global>,
                               m: map<Global, ObjId>, cells: map<Global, map<VarId, Info>>, objs: seq<AsmObject>)
  {
    forall g :: g in codeList && !ClosureOf(initial, g).CPtr? ==>
      && g in m && g in cells && ClosureOf(initial, g).Tree?
      && ClosureOf(closure, g) == MPtr(m[g]) && m[g] < |objs| && objs[m[g]].complete
      && InfoOf(cells[g], ClosureOf(initial, g).top.v) == MPtrInfo(m[g])
  }

  /** One turn of the endTop loop: ending the next entry's object keeps
      every earlier entry's object complete and records the new one. */
  lemma EndedStep(initial: map<Global, Closure>, closure: map<Global, Closure>, done: seq<Global>,
                  m: map<Global, ObjId>, cells: map<Global, map<VarId, Info>>,
                  a: seq<AsmObject>, b: seq<AsmObject>, g: Global, o: ObjId, cell: map<VarId, Info>)
    requires EndedEntries(initial, closure, done, m, cells, a)
    requires g !in done && ClosureOf(closure, g) == ClosureOf(initial, g) && ClosureOf(initial, g).Tree?
    requires Ends(a, b, o) && InfoOf(cell, ClosureOf(initial, g).top.v) == MPtrInfo(o)
    ensures EndedEntries(initial, closure[g := MPtr(o)], done + [g], m[g := o], cells[g := cell], b)
  {
    forall h | h in done + [g] && !ClosureOf(initial, h).CPtr?
      ensures && h in m[g := o] && h in cells[g := cell] && ClosureOf(initial, h).Tree?
              && ClosureOf(closure[g := MPtr(o)], h) == MPtr(m[g := o][h]) && m[g := o][h] < |b|
              && b[m[g := o][h]].complete
              && InfoOf(cells[g := cell][h], ClosureOf(initial, h).top.v) == MPtrInfo(m[g := o][h])
    {
      if h != g {
        assert h in done;
        assert ClosureOf(closure[g := MPtr(o)], h) == ClosureOf(closure, h);
      } else {
        assert ClosureOf(closure[g := MPtr(o)], h) == MPtr(o);
      }
    }
  }

  /** The code generator's state. */
  class Generator {
    /** The tables the generator reads and never changes. */
    const env: Env
    /** The closure field of every name and tuple. */
    var closure: map<Global, Closure>
    /** The info cell of every STG variable. */
    var info: map<VarId, Info>
    /** The assembler's staged objects. */
    var objs: seq<AsmObject>
    /** The simulated stack position handed out by the next asm call. */
    var nextPos: int
    /** Heap addresses of the staged objects of the last linked module. */
    var placed: map<ObjId, Addr>
    /** The first free heap address. */
    var heapTop: Addr

    constructor(env: Env, closure: map<Global, Closure>, heapTop: Addr)
      ensures this.env == env && this.closure == closure && this.heapTop == heapTop
      ensures info == map[] && objs == [] && nextPos == 0 && placed == map[]
    {
      this.env := env;
      this.closure := closure;
      this.heapTop := heapTop;
      info := map[];
      objs := [];
      nextPos := 0;
      placed := map[];
    }

    // -------------------------------------------------------------------
    // Assembler calls

    method Emit(o: ObjId, op: Op)
      requires o < |objs|
      modifies this`objs
      ensures objs == Append(old(objs), o, op)
    {
      objs := Append(objs, o, op);
    }

    /** An asm call that returns the current simulated stack position. */
    method EmitPos(o: ObjId, op: Op) returns (p: int)
      requires o < |objs|
      modifies this`objs, this`nextPos
      ensures objs == Append(old(objs), o, op)
      ensures p == old(nextPos) && nextPos == old(nextPos) + 1
    {
      objs := Append(objs, o, op);
      p := nextPos;
      nextPos := nextPos + 1;
    }

    /** An asm call that returns the program counter of the emitted
        instruction (asmTest, asmTestInt). */
    method EmitPc(o: ObjId, op: Op) returns (pc: nat)
      requires o < |objs|
      modifies this`objs
      ensures objs == Append(old(objs), o, op)
      ensures pc == |old(objs)[o].code|
    {
      pc := |objs[o].code|;
      objs := Append(objs, o, op);
    }

    /** asmBeginBCO, asmBeginContinuation, asmBeginCon, asmBeginCAF. */
    method NewObject(kind: ObjKind) returns (o: ObjId)
      modifies this`objs
      ensures o == |old(objs)|
      ensures objs == old(objs) + [AsmObject(kind, [], false)]
    {
      o := |objs|;
      objs := objs + [AsmObject(kind, [], false)];
    }

    /** asmEndBCO, asmEndContinuation, asmEndCon, asmEndCAF. */
    method Finish(o: ObjId)
      requires o < |objs|
      modifies this`objs
      ensures objs == old(objs)[o := old(objs)[o].(complete := true)]
    {
      objs := objs[o := objs[o].(complete := true)];
    }

    /** cgBind: bind a variable at the next stack position. */
    method BindVar(bco: ObjId, v: Var)
      requires bco < |objs|
      modifies this`objs, this`info, this`nextPos
      ensures objs == Append(old(objs), bco, Bind(v.rep))
      ensures info == old(info)[v.id := Pos(old(nextPos))]
      ensures nextPos == old(nextPos) + 1
    {
      var p := EmitPos(bco, Bind(v.rep));
      info := info[v.id := Pos(p)];
    }

    /** map1Proc(cgBind, bco, vs). */
    method BindVars(bco: ObjId, vs: seq<Var>)
      requires bco < |objs|
      modifies this`objs, this`info, this`nextPos
      ensures objs == AppendAll(old(objs), bco, BindOps(vs))
      ensures info == Bound(old(info), vs, old(nextPos))
      ensures nextPos == old(nextPos) + |vs|
    {
      var i := 0;
      AppendNothing(objs, bco);
      while i < |vs|
        invariant 0 <= i <= |vs|
        invariant objs == AppendAll(old(objs), bco, BindOps(vs[..i]))
        invariant info == Bound(old(info), vs[..i], old(nextPos))
        invariant nextPos == old(nextPos) + i
      {
        AppendThen(old(objs), bco, BindOps(vs[..i]), Bind(vs[i].rep));
        assert vs[..i + 1][..i] == vs[..i];
        BindVar(bco, vs[i]);
        i := i + 1;
      }
      assert vs[..|vs|] == vs;
    }

    /** pushAtom. */
    method PushAtom(bco: ObjId, a: Atom) returns (r: Outcome)
      requires bco < |objs|
      modifies this`objs
      ensures PushChoice(a, info, closure, env).Ok? ==>
                r == Pass && objs == Append(old(objs), bco, PushChoice(a, info, closure, env).value)
      ensures PushChoice(a, info, closure, env).Err? ==>
                r == Fail(PushChoice(a, info, closure, env).error) && objs == old(objs)
    {
      var op := PushChoice(a, info, closure, env);
      if op.Err? {
        return Fail(op.error);
      }
      Emit(bco, op.value);
      r := Pass;
    }

    /** map1Proc(pushAtom, bco, atoms): stops at the first atom refused. */
    method PushAtoms(bco: ObjId, atoms: seq<Atom>) returns (r: Outcome)
      requires bco < |objs|
      modifies this`objs
      ensures PushAll(atoms, info, closure, env).Ok? ==>
                r == Pass && objs == AppendAll(old(objs), bco, PushAll(atoms, info, closure, env).value)
      ensures PushAll(atoms, info, closure, env).Err? ==>
                r == Fail(PushAll(atoms, info, closure, env).error)
      ensures Grows(old(objs), objs, bco) && NewComplete(old(objs), objs)
    {
      var i := 0;
      AppendNothing(objs, bco);
      while i < |atoms|
        invariant 0 <= i <= |atoms|
        invariant PushAll(atoms[..i], info, closure, env).Ok?
        invariant objs == AppendAll(old(objs), bco, PushAll(atoms[..i], info, closure, env).value)
      {
        var op := PushChoice(atoms[i], info, closure, env);
        if op.Err? {
          PushAllFirstError(atoms, i, info, closure, env);
          return Fail(op.error);
        }
        PushAllSnoc(atoms[..i], atoms[i], info, closure, env);
        AppendThen(old(objs), bco, PushAll(atoms[..i], info, closure, env).value, op.value);
        assert atoms[..i + 1] == atoms[..i] + [atoms[i]];
        Emit(bco, op.value);
        i := i + 1;
      }
      assert atoms[..|atoms|] == atoms;
      r := Pass;
    }

    /** asmBeginEnter; push the atoms; asmEndEnter: a tail call. */
    method Enter(bco: ObjId, root: int, atoms: seq<Atom>) returns (r: Outcome)
      requires bco < |objs|
      modifies this`objs, this`nextPos
      ensures r.Pass? <==> PushAll(atoms, info, closure, env).Ok?
      ensures r.Pass? ==>
                objs == AppendAll(old(objs), bco, [BeginEnter] + PushAll(atoms, info, closure, env).value +
                                                  [EndEnter(old(nextPos), root)])
      ensures r.Fail? ==> r.error == PushAll(atoms, info, closure, env).error
      ensures Grows(old(objs), objs, bco) && NewComplete(old(objs), objs)
    {
      var begin := EmitPos(bco, BeginEnter);
      ghost var mid := objs;
      r := PushAtoms(bco, atoms);
      GrowsTrans(old(objs), mid, objs, bco);
      if r.Fail? {
        return;
      }
      ghost var pushed := PushAll(atoms, info, closure, env).value;
      AppendThen(old(objs), bco, [], BeginEnter);
      assert [] + [BeginEnter] == [BeginEnter];
      AppendAllThen(old(objs), bco, [BeginEnter], pushed);
      AppendThen(old(objs), bco, [BeginEnter] + pushed, EndEnter(begin, root));
      Emit(bco, EndEnter(begin, root));
    }

    // -------------------------------------------------------------------
    // Expressions (cgExpr, cgLambda, cgRhs, cgAlts, testPrimPats, alloc,
    // build). Each method that emits into `bco` grows that object only;
    // each method that stages a new object leaves every older one alone;
    // on success every object staged on the way has been ended.

    /** cgExpr: dispatch on the form of the expression. */
    method CgExpr(bco: ObjId, root: int, e: Expr) returns (r: Outcome)
      requires bco < |objs|
      modifies this`objs, this`info, this`nextPos
      decreases ExprSize(e), 5, 0
      ensures Grows(old(objs), objs, bco)
      ensures r.Pass? ==> NewComplete(old(objs), objs)
      ensures Rejected(e).Some? ==> r == Fail(Rejected(e).value) && objs == old(objs)
      ensures e.Prim? ==> r.Fail?
    {
      if Rejected(e).Some? {
        return Fail(Rejected(e).value);
      }
      if TailCallAtoms(e).Some? {
        r := Enter(bco, root, TailCallAtoms(e).value);
        return;
      }
      match e
      case LetRec(_, _) =>
        ghost var lr;
        r, lr := CgLetRec(bco, root, e);
      case Lambda(_, _) => r := CgLambdaEnter(bco, root, e);
      case Case(_, _) =>
        ghost var steps, segs, scrut;
        r, steps, segs, scrut := CgCase(bco, root, e);
      case PrimCase(_, _) =>
        ghost var head, segs, emits;
        r, head, segs, emits := CgPrimCase(bco, root, e);
      case Prim(_, _) => r := CgPrimTail(bco, e);
    }

    /** The LAMBDA case of cgExpr: enter a freshly compiled BCO. */
    method CgLambdaEnter(bco: ObjId, root: int, e: Expr) returns (r: Outcome)
      requires e.Lambda? && bco < |objs|
      modifies this`objs, this`info, this`nextPos
      decreases ExprSize(e), 4, 0
      ensures Grows(old(objs), objs, bco)
      ensures r.Pass? ==> NewComplete(old(objs), objs)
      ensures r.Pass? ==>
                old(|objs|) < |objs| && objs[old(|objs|)].kind == BcoObj &&
                objs[bco].code == old(objs[bco].code) +
                                  [BeginEnter, PushRefObject(old(|objs|)), EndEnter(old(nextPos), root)]
    {
      var begin := EmitPos(bco, BeginEnter);
      ghost var o1 := objs;
      var fn := CgLambda(e);
      GrowsAround(old(objs), o1, objs, bco);
      if fn.Err? {
        return Fail(fn.error);
      }
      ghost var o2 := objs;
      Emit(bco, PushRefObject(fn.value));
      GrowsTrans(old(objs), o2, objs, bco);
      ghost var o3 := objs;
      Emit(bco, EndEnter(begin, root));
      GrowsTrans(old(objs), o3, objs, bco);
      r := Pass;
    }

    /** The STGPRIM case of cgExpr: the call is emitted but returning its
        result is not implemented. */
    method CgPrimTail(bco: ObjId, e: Expr) returns (r: Outcome)
      requires e.Prim? && bco < |objs|
      modifies this`objs, this`nextPos
      ensures Grows(old(objs), objs, bco)
      ensures r.Fail?
      ensures PushAll(Reverse(e.pargs), info, closure, env).Ok? ==>
                r == Fail(Unsupported("cgExpr: STGPRIM return")) &&
                objs == AppendAll(old(objs), bco, [BeginPrim] + PushAll(Reverse(e.pargs), info, closure, env).value +
                                                  [EndPrim(e.op, old(nextPos))])
    {
      r := Fill(bco, BeginPrim, Reverse(e.pargs), EndPrim(e.op, 0));
      if r.Pass? {
        r := Fail(Unsupported("cgExpr: STGPRIM return"));
      }
    }

    /** The LETREC case of cgExpr: alloc every binding, build every
        binding, then compile the body. */
    method CgLetRec(bco: ObjId, root: int, e: Expr) returns (r: Outcome, ghost lr: LetRecEmit)
      requires e.LetRec? && bco < |objs|
      modifies this`objs, this`info, this`nextPos
      decreases ExprSize(e), 4, 0
      ensures Grows(old(objs), objs, bco)
      ensures r.Pass? ==> NewComplete(old(objs), objs)
      ensures r.Pass? ==> LetRecCode(e, old(objs[bco].code), old(info), old(nextPos), lr, objs[bco].code, closure, env)
      ensures r.Pass? ==> ThunkObjects(e.binds, lr.bems, objs, old(|objs|))
    {
      ghost var allocs, aems, builds, bems;
      lr := LetRecEmit([], [], [], [], []);
      r, allocs, aems := AllocAll(bco, e);
      if r.Fail? {
        return;
      }
      ghost var o1 := objs;
      r, builds, bems := BuildAll(bco, e);
      GrowsTrans(old(objs), o1, objs, bco);
      if r.Fail? {
        return;
      }
      ghost var o2 := objs;
      r := CgExpr(bco, root, e.body);
      GrowsTrans(old(objs), o2, objs, bco);
      if r.Pass? {
        ThunkObjectsGrow(e.binds, bems, o2, objs, old(|objs|), bco);
        lr := LetRecEmit(allocs, aems, builds, bems, objs[bco].code[|o2[bco].code|..]);
        LetRecLayout(e, old(objs[bco].code), old(info), old(nextPos), lr, o1[bco].code, o2[bco].code, objs[bco].code,
                     closure, env);
      }
    }

    /** The first loop of the LETREC case: alloc every binding in order. */
    method AllocAll(bco: ObjId, e: Expr) returns (r: Outcome, ghost allocs: seq<seq<Op>>, ghost ems: seq<AllocEmit>)
      requires e.LetRec? && bco < |objs|
      modifies this`objs, this`info, this`nextPos
      decreases ExprSize(e), 3, 0
      ensures Grows(old(objs), objs, bco)
      ensures r.Pass? ==> NewComplete(old(objs), objs)
      ensures r.Pass? ==>
                && |allocs| == |e.binds| && AllocsFit(e.binds, allocs, ems, closure, env)
                && ems[0] == AllocEmit(old(info), old(nextPos)) && ems[|e.binds|] == AllocEmit(info, nextPos)
                && Allocated(e.binds, |e.binds|, info)
                && objs[bco].code == old(objs[bco].code) + Concat(allocs)
    {
      ghost var c0 := objs[bco].code;
      allocs, ems := [], [AllocEmit(info, nextPos)];
      var i := 0;
      while i < |e.binds|
        invariant 0 <= i <= |e.binds|
        invariant Grows(old(objs), objs, bco) && NewComplete(old(objs), objs)
        invariant |allocs| == i && AllocsFit(e.binds, allocs, ems, closure, env)
        invariant ems[0] == AllocEmit(old(info), old(nextPos)) && ems[i] == AllocEmit(info, nextPos)
        invariant Allocated(e.binds, i, info)
        invariant objs[bco].code == c0 + Concat(allocs)
      {
        BindSmaller(e.binds, i);
        ghost var o1, info1, at1 := objs, info, nextPos;
        var out := Alloc(bco, e.binds[i]);
        GrowsTrans(old(objs), o1, objs, bco);
        if out.Fail? {
          return out, allocs, ems;
        }
        ghost var seg := objs[bco].code[|o1[bco].code|..];
        AllocStep(e.binds, allocs, ems, closure, env, c0, o1[bco].code, objs[bco].code, info1, at1, info, nextPos);
        allocs, ems := allocs + [seg], ems + [AllocEmit(info, nextPos)];
        i := i + 1;
      }
      r := Pass;
    }

    /** The second loop of the LETREC case: build every binding in order. */
    method BuildAll(bco: ObjId, e: Expr) returns (r: Outcome, ghost builds: seq<seq<Op>>, ghost ems: seq<BuildEmit>)
      requires e.LetRec? && bco < |objs|
      modifies this`objs, this`info, this`nextPos
      decreases ExprSize(e), 3, 0
      ensures Grows(old(objs), objs, bco)
      ensures r.Pass? ==> NewComplete(old(objs), objs)
      ensures r.Pass? ==>
                && |builds| == |e.binds| && BuildsFit(e.binds, builds, ems, closure, env)
                && ems[0] == BuildEmit(old(info), old(nextPos), old(|objs|))
                && ThunkObjects(e.binds, ems, objs, old(|objs|))
                && objs[bco].code == old(objs[bco].code) + Concat(builds)
    {
      ghost var c0 := objs[bco].code;
      builds, ems := [], [BuildEmit(info, nextPos, |objs|)];
      var i := 0;
      while i < |e.binds|
        invariant 0 <= i <= |e.binds|
        invariant Grows(old(objs), objs, bco) && NewComplete(old(objs), objs)
        invariant |builds| == i && BuildsFit(e.binds, builds, ems, closure, env)
        invariant ems[0] == BuildEmit(old(info), old(nextPos), old(|objs|)) && ems[i] == BuildEmit(info, nextPos, |objs|)
        invariant ThunkObjects(e.binds, ems, objs, old(|objs|))
        invariant objs[bco].code == c0 + Concat(builds)
      {
        BindSmaller(e.binds, i);
        ghost var o1 := objs;
        var out := Build(bco, e.binds[i]);
        GrowsTrans(old(objs), o1, objs, bco);
        if out.Fail? {
          return out, builds, ems;
        }
        ghost var seg := objs[bco].code[|o1[bco].code|..];
        ghost var next := BuildEmit(info, nextPos, |objs|);
        BuildStep(e.binds, builds, ems, closure, env, c0, o1[bco].code, objs[bco].code, next);
        ThunkStep(e.binds, ems, o1, objs, old(|objs|), bco, next);
        builds, ems := builds + [seg], ems + [next];
        i := i + 1;
      }
      r := Pass;
    }

    /** The CASE case of cgExpr: the alternatives become a continuation
        object pushed before the scrutinee is compiled. The code is the
        case header naming that continuation, the scrutinee's code
        (`scrut`, whatever cgExpr emits for it), then the case end; the
        continuation holds exactly the alternatives' walk. */
    method CgCase(bco: ObjId, root: int, e: Expr)
      returns (r: Outcome, ghost steps: seq<AltStep>, ghost segs: seq<seq<Op>>, ghost scrut: seq<Op>)
      requires e.Case? && bco < |objs|
      modifies this`objs, this`info, this`nextPos
      decreases ExprSize(e), 4, 0
      ensures Grows(old(objs), objs, bco)
      ensures r.Pass? ==> NewComplete(old(objs), objs)
      ensures r.Pass? ==>
                && old(|objs|) < |objs|
                && objs[old(|objs|)].kind == ContinuationObj(old(nextPos))
                && objs[old(|objs|)].complete
                && objs[bco].code == old(objs[bco].code) + [BeginCase, Continuation(old(|objs|))] + scrut + [EndCase]
      ensures r.Pass? ==>
                && steps == AltShape(e.alts, OmitTest(e.alts, env))
                && AltsFit(e.alts, steps, segs, 0, env)
                && AltsCode(objs[old(|objs|)].code, [], steps, segs)
    {
      var sp := EmitPos(bco, BeginCase);
      ghost var o1 := objs;
      var cont;
      cont, steps, segs := CgAlts(root, sp, e.alts);
      GrowsAround(old(objs), o1, objs, bco);
      if cont.Err? {
        return Fail(cont.error), steps, segs, [];
      }
      ghost var o2 := objs;
      ghost var k := cont.value;
      var caseroot := EmitPos(bco, Continuation(cont.value));
      GrowsTrans(old(objs), o2, objs, bco);
      ghost var o3 := objs;
      assert o3[k] == o2[k];
      r := CgExpr(bco, caseroot, e.scrut);
      GrowsTrans(old(objs), o3, objs, bco);
      if r.Fail? {
        return r, steps, segs, [];
      }
      ghost var o4 := objs;
      assert o4[k] == o2[k];
      scrut := o4[bco].code[|o3[bco].code|..];
      Suffix(o3[bco].code, o4[bco].code);
      Emit(bco, EndCase);
      GrowsTrans(old(objs), o4, objs, bco);
      assert objs[k] == o2[k];
      assert old(objs[bco].code) + [BeginCase, Continuation(cont.value)] == o3[bco].code;
    }

    /** The PRIMCASE case of cgExpr: the scrutinee is a primitive call or
        a variable whose value each alternative tests directly. The code
        is the scrutinee's header, one segment per alternative, then a
        panic for the values no alternative matches. */
    method CgPrimCase(bco: ObjId, root: int, e: Expr)
      returns (r: Outcome, ghost head: seq<Op>, ghost segs: seq<seq<Op>>, ghost emits: seq<PrimAltEmit>)
      requires e.PrimCase? && bco < |objs|
      modifies this`objs, this`info, this`nextPos
      decreases ExprSize(e), 4, 0
      ensures Grows(old(objs), objs, bco)
      ensures r.Pass? ==> NewComplete(old(objs), objs)
      ensures Rejected(e).Some? ==> r == Fail(Rejected(e).value) && objs == old(objs)
      ensures ScrutCode(e.pscrut, old(info), closure, env, old(nextPos)).Err? ==> r.Fail?
      ensures r.Pass? ==>
                && head == ScrutCode(e.pscrut, old(info), closure, env, old(nextPos)).value
                && PrimCaseCode(e, old(objs[bco].code), head, segs, emits, objs[bco].code)
    {
      head, segs, emits := [], [], [];
      r := CgPrimScrut(bco, e);
      if r.Fail? {
        return;
      }
      head := ScrutCode(e.pscrut, info, closure, env, old(nextPos)).value;
      ghost var o2 := objs;
      r, segs, emits := CgPrimAlts(bco, root, e, e.pscrut.Prim?);
      GrowsTrans(old(objs), o2, objs, bco);
      if r.Pass? {
        PrimCaseLayout(e, old(objs[bco].code), head, o2[bco].code, segs, emits, objs[bco].code);
      }
    }

    /** The scrutinee of a primitive case: a primitive call, whose result
        the alternatives test, or a case on a variable; anything else is
        not implemented. */
    method CgPrimScrut(bco: ObjId, e: Expr) returns (r: Outcome)
      requires e.PrimCase? && bco < |objs|
      modifies this`objs, this`nextPos
      ensures Grows(old(objs), objs, bco) && NewComplete(old(objs), objs)
      ensures Rejected(e).Some? ==> r == Fail(Rejected(e).value) && objs == old(objs)
      ensures r.Pass? <==> ScrutCode(e.pscrut, info, closure, env, old(nextPos)).Ok?
      ensures r.Pass? ==>
                objs[bco].code == old(objs[bco].code) + ScrutCode(e.pscrut, info, closure, env, old(nextPos)).value
    {
      if e.pscrut.Prim? {
        r := Fill(bco, BeginPrim, Reverse(e.pscrut.pargs), EndPrim(e.pscrut.op, 0));
      } else if e.pscrut.AtomExpr? && e.pscrut.a.AVar? {
        r := Fill(bco, BeginCase, [e.pscrut.a], EndAlt(0));
      } else {
        r := Fail(Unsupported("cgExpr: PRIMCASE scrutinee"));
      }
    }

    /** The alternatives loop of a primitive case, closed by a panic. The
        pattern variables are bound in reverse after a primitive call and
        in order after a variable scrutinee. */
    method CgPrimAlts(bco: ObjId, root: int, e: Expr, reversed: bool)
      returns (r: Outcome, ghost segs: seq<seq<Op>>, ghost emits: seq<PrimAltEmit>)
      requires e.PrimCase? && bco < |objs|
      modifies this`objs, this`info, this`nextPos
      decreases ExprSize(e), 3, 0
      ensures Grows(old(objs), objs, bco)
      ensures r.Pass? ==> NewComplete(old(objs), objs)
      ensures r.Pass? ==>
                && |segs| == |e.palts|
                && PrimAltsFit(e.palts, reversed, segs, emits, |old(objs[bco].code)|)
                && objs[bco].code == old(objs[bco].code) + Concat(segs) + [Panic]
    {
      ghost var c0 := objs[bco].code;
      segs, emits := [], [];
      var i := 0;
      while i < |e.palts|
        invariant 0 <= i <= |e.palts|
        invariant Grows(old(objs), objs, bco) && NewComplete(old(objs), objs)
        invariant |segs| == i && PrimAltsFit(e.palts, reversed, segs, emits, |c0|)
        invariant objs[bco].code == c0 + Concat(segs)
      {
        PrimAltSmaller(e.palts, i);
        ghost var o1 := objs;
        var out;
        ghost var em;
        out, em := CgPrimAlt(bco, root, e.palts[i], reversed);
        GrowsTrans(old(objs), o1, objs, bco);
        if out.Fail? {
          return out, segs, emits;
        }
        ghost var seg := objs[bco].code[|o1[bco].code|..];
        PrimAltsStep(e.palts, reversed, c0, segs, emits, seg, em, objs[bco].code);
        segs, emits := segs + [seg], emits + [em];
        i := i + 1;
      }
      ghost var o4 := objs;
      Emit(bco, Panic);
      GrowsTrans(old(objs), o4, objs, bco);
      r := Pass;
    }

    /** One primitive alternative: open it, bind its pattern variables in
        `BindOrder`, guard the body with the literal tests, close it. */
    method CgPrimAlt(bco: ObjId, root: int, alt: PrimAlt, reversed: bool)
      returns (r: Outcome, ghost em: PrimAltEmit)
      requires bco < |objs|
      modifies this`objs, this`info, this`nextPos
      decreases ExprSize(alt.pbody) + 1, 0, 0
      ensures Grows(old(objs), objs, bco)
      ensures r.Pass? ==> NewComplete(old(objs), objs)
      ensures em.pre == old(info) && em.begin == old(nextPos) && em.at == |old(objs[bco].code)|
      ensures GuardTests(alt.pats, AltInfo(alt, reversed, em)).Err? ==> r.Fail?
      ensures r.Pass? ==>
                PrimAltCode(alt, reversed, objs[bco].code[|old(objs[bco].code)|..], em)
    {
      em := PrimAltEmit(info, nextPos, |objs[bco].code|, 0, []);
      var altBegin := EmitPos(bco, BeginAlt);
      var vs := BindOrder(alt, reversed);
      BindVars(bco, vs);
      ghost var o2 := objs;
      GrowsTrans(old(objs), Append(old(objs), bco, BeginAlt), o2, bco);
      var out;
      ghost var bodyCode;
      out, bodyCode := TestPrimPats(bco, root, alt.pats, alt.pbody);
      em := em.(fix := |o2[bco].code|, body := bodyCode);
      GrowsTrans(old(objs), o2, objs, bco);
      if out.Fail? {
        return out, em;
      }
      ghost var o3 := objs;
      Emit(bco, EndAlt(altBegin));
      GrowsTrans(old(objs), o3, objs, bco);
      PrimAltLayout(old(objs[bco].code), o2[bco].code, o3[bco].code, objs[bco].code, alt, reversed, em,
                    GuardTests(alt.pats, AltInfo(alt, reversed, em)).value);
      r := Pass;
    }

    /** testPrimPats: one integer test per literal pattern, outermost
        first, around the body; the tests' branches are fixed innermost
        first after the body. */
    method TestPrimPats(bco: ObjId, root: int, pats: seq<PrimPat>, body: Expr)
      returns (r: Outcome, ghost bodyCode: seq<Op>)
      requires bco < |objs|
      modifies this`objs, this`info, this`nextPos
      decreases ExprSize(body), 6, |pats|, 1
      ensures Grows(old(objs), objs, bco)
      ensures r.Pass? ==> NewComplete(old(objs), objs)
      ensures GuardTests(pats, old(info)).Err? ==> r.Fail?
      ensures r.Pass? ==>
                GuardTests(pats, old(info)).Ok? &&
                objs[bco].code == old(objs[bco].code) + GuardTests(pats, old(info)).value + bodyCode +
                                  FixOps(|old(objs[bco].code)|, LiteralCount(pats))
    {
      if pats == [] {
        r := CgExpr(bco, root, body);
        bodyCode := objs[bco].code[|old(objs[bco].code)|..];
        assert objs[bco].code == old(objs[bco].code) + bodyCode + [];
        return;
      }
      var pat := pats[0];
      if pat.lit.None? {
        r, bodyCode := TestPrimPats(bco, root, pats[1..], body);
        return;
      }
      r, bodyCode := TestLiteral(bco, root, pats, body);
    }

    /** testPrimPats on a literal pattern: test the variable against the
        literal, guard the rest, then fix the test's branch. */
    method TestLiteral(bco: ObjId, root: int, pats: seq<PrimPat>, body: Expr)
      returns (r: Outcome, ghost bodyCode: seq<Op>)
      requires bco < |objs| && pats != [] && pats[0].lit.Some?
      modifies this`objs, this`info, this`nextPos
      decreases ExprSize(body), 6, |pats|, 0
      ensures Grows(old(objs), objs, bco)
      ensures r.Pass? ==> NewComplete(old(objs), objs)
      ensures GuardTests(pats, old(info)).Err? ==> r.Fail?
      ensures r.Pass? ==>
                GuardTests(pats, old(info)).Ok? &&
                objs[bco].code == old(objs[bco].code) + GuardTests(pats, old(info)).value + bodyCode +
                                  FixOps(|old(objs[bco].code)|, LiteralCount(pats))
    {
      var pat := pats[0];
      var pos := GetPos(info, pat.v);
      if pos.Err? {
        return Fail(pos.error), [];
      }
      var tst := EmitPc(bco, TestInt(pos.value, pat.lit.value));
      if pat.v.rep != IntRep {
        return Fail(Internal("testPrimPats: INT_REP")), [];
      }
      ghost var o1 := objs;
      r, bodyCode := TestPrimPats(bco, root, pats[1..], body);
      GrowsTrans(old(objs), o1, objs, bco);
      if r.Fail? {
        return;
      }
      ghost var o2 := objs;
      Emit(bco, FixBranch(tst));
      GrowsTrans(old(objs), o2, objs, bco);
      GuardLayout(old(objs[bco].code), TestInt(pos.value, pat.lit.value),
                  GuardTests(pats[1..], old(info)).value, bodyCode, tst, LiteralCount(pats[1..]));
    }

    /** cgLambda: a new BCO whose argument check binds the parameters,
        last parameter first, before the body. */
    method CgLambda(e: Expr) returns (r: Result<ObjId>)
      requires e.Lambda?
      modifies this`objs, this`info, this`nextPos
      decreases ExprSize(e), 3, 0
      ensures Preserves(old(objs), objs)
      ensures r.Ok? ==> r.value == old(|objs|) && r.value < |objs| && objs[r.value].kind == BcoObj &&
                        objs[r.value].complete && NewComplete(old(objs), objs)
      ensures r.Ok? ==> [BeginArgCheck] + BindOps(Reverse(e.params)) + [EndArgCheck(old(nextPos))]
                          <= objs[r.value].code
    {
      var bco := NewObject(BcoObj);
      ghost var o1 := objs;
      var root := ArgCheck(bco, Reverse(e.params));
      ghost var o2 := objs;
      var out := CgExpr(bco, root, e.lbody);
      ghost var o3 := objs;
      NewBcoGrows(old(objs), o1, o2, o3, bco, [BeginArgCheck] + BindOps(Reverse(e.params)) + [EndArgCheck(root)]);
      if out.Fail? {
        return Err(out.error);
      }
      Finish(bco);
      NewBcoEnds(old(objs), o3, objs, bco, [BeginArgCheck] + BindOps(Reverse(e.params)) + [EndArgCheck(root)]);
      r := Ok(bco);
    }

    /** The argument check that opens a BCO, binding `vs` in order. */
    method ArgCheck(bco: ObjId, vs: seq<Var>) returns (root: int)
      requires bco < |objs|
      modifies this`objs, this`info, this`nextPos
      ensures root == old(nextPos)
      ensures objs == AppendAll(old(objs), bco, [BeginArgCheck] + BindOps(vs) + [EndArgCheck(root)])
      ensures Grows(old(objs), objs, bco) && NewComplete(old(objs), objs)
      ensures info == Bound(old(info), vs, old(nextPos) + 1)
    {
      root := EmitPos(bco, BeginArgCheck);
      BindVars(bco, vs);
      Emit(bco, EndArgCheck(root));
      AppendThen(old(objs), bco, [], BeginArgCheck);
      assert [] + [BeginArgCheck] == [BeginArgCheck];
      AppendAllThen(old(objs), bco, [BeginArgCheck], BindOps(vs));
      AppendThen(old(objs), bco, [BeginArgCheck] + BindOps(vs), EndArgCheck(root));
    }

    /** cgRhs: a new BCO with an empty argument check around the
        right-hand side. */
    method CgRhs(rhs: Expr) returns (r: Result<ObjId>)
      modifies this`objs, this`info, this`nextPos
      decreases ExprSize(rhs), 6, 0
      ensures Preserves(old(objs), objs)
      ensures r.Ok? ==> r.value == old(|objs|) && r.value < |objs| && objs[r.value].kind == BcoObj &&
                        objs[r.value].complete && NewComplete(old(objs), objs)
      ensures r.Ok? ==> [BeginArgCheck, EndArgCheck(old(nextPos))] <= objs[r.value].code
    {
      var bco := NewObject(BcoObj);
      ghost var o1 := objs;
      var root := EmitPos(bco, BeginArgCheck);
      Emit(bco, EndArgCheck(root));
      ghost var o2 := objs;
      assert o2[bco].code == [BeginArgCheck, EndArgCheck(root)];
      var out := CgExpr(bco, root, rhs);
      GrowsTrans(o1, o2, objs, bco);
      GrowsNew(old(objs), o1, objs, bco);
      if out.Fail? {
        return Err(out.error);
      }
      Finish(bco);
      r := Ok(bco);
    }

    /** The omit_test refinement of cgAlts, in the order the source tests
        its conditions. */
    method OmitFlag(alts: seq<Alt>) returns (omit: bool)
      ensures omit == OmitTest(alts, env)
    {
      omit := |alts| == 2 && alts[1].DefaultAlt? && !alts[0].DefaultAlt?;
      if omit {
        omit := false;
        var con := alts[0].con;
        if con.GName? && con.n in env.names && IsDictionaryText(env.names[con.n].text) {
          omit := true;
        } else if con.GTuple? || con == GName(env.nameUnit) {
          omit := true;
        } else if con.GName? && con.n in env.names && env.names[con.n].parent in env.tycons {
          var t := env.tycons[env.names[con.n].parent];
          if t.what == DataType && |t.defn| == 1 {
            omit := true;
          }
        }
      }
    }

    /** cgAlts: a continuation object holding the alternatives up to the
        first default, in order, then a panic if no default is reached.
        `steps` is the walk taken and `segs` the code of each step before
        the panic, laid out as `StepCode` says: the constructor test and
        the fix of its branch appear exactly in the tested steps. */
    method CgAlts(root: int, sp: int, alts: seq<Alt>)
      returns (r: Result<ObjId>, ghost steps: seq<AltStep>, ghost segs: seq<seq<Op>>)
      modifies this`objs, this`info, this`nextPos
      decreases AltsSize(alts), 6, 0
      ensures Preserves(old(objs), objs)
      ensures r.Ok? ==> r.value == old(|objs|) && r.value < |objs| &&
                        objs[r.value].kind == ContinuationObj(sp) && objs[r.value].complete &&
                        NewComplete(old(objs), objs)
      ensures r.Ok? ==> steps == AltShape(alts, OmitTest(alts, env)) && AltsFit(alts, steps, segs, 0, env)
      ensures r.Ok? ==> AltsCode(objs[r.value].code, [], steps, segs)
    {
      var n := NewObject(ContinuationObj(sp));
      ghost var o1 := objs;
      var omit := OmitFlag(alts);
      var out;
      out, steps, segs := CgAltsBody(n, root, alts, omit);
      GrowsNew(old(objs), o1, objs, n);
      if out.Fail? {
        return Err(out.error), steps, segs;
      }
      Finish(n);
      r := Ok(n);
    }

    /** The alternatives loop of cgAlts, emitting into the continuation
        object `n`. */
    method CgAltsBody(n: ObjId, root: int, alts: seq<Alt>, omit: bool)
      returns (r: Outcome, ghost steps: seq<AltStep>, ghost segs: seq<seq<Op>>)
      requires n < |objs|
      modifies this`objs, this`info, this`nextPos
      decreases AltsSize(alts), 5, 3
      ensures Grows(old(objs), objs, n)
      ensures r.Pass? ==> NewComplete(old(objs), objs)
      ensures r.Pass? ==> steps == AltShape(alts, omit) && AltsFit(alts, steps, segs, |old(objs[n].code)|, env)
      ensures r.Pass? ==> AltsCode(objs[n].code, old(objs[n].code), steps, segs)
    {
      steps, segs := [], [];
      ghost var c0 := objs[n].code;
      var i := 0;
      while i < |alts|
        invariant 0 <= i <= |alts|
        invariant n < |objs| && Grows(old(objs), objs, n) && NewComplete(old(objs), objs)
        invariant steps + AltShape(alts[i..], omit) == AltShape(alts, omit)
        invariant |steps| == i && |segs| == i
        invariant AltsFit(alts, steps, segs, |c0|, env)
        invariant objs[n].code == c0 + Concat(segs)
      {
        ghost var before := objs;
        var done;
        r, done, steps, segs := CgAltsStep(n, root, alts, i, omit, c0, steps, segs);
        GrowsTrans(old(objs), before, objs, n);
        if r.Fail? || done {
          return;
        }
        i := i + 1;
      }
      ShapeFrom(alts, i, omit);
      AltsFitSteps(alts, steps, [PanicStep], segs, |c0|, env);
      ghost var o2 := objs;
      Emit(n, Panic);
      GrowsTrans(old(objs), o2, objs, n);
      steps := steps + [PanicStep];
      assert AltsCode(objs[n].code, c0, steps, segs);
      r := Pass;
    }

    /** One alternative of the cgAlts loop: a default ends the walk, a
        constructor alternative is one step of it. The walk so far is
        `steps`, laid out after `c0` as `segs`. */
    method CgAltsStep(n: ObjId, root: int, alts: seq<Alt>, i: nat, omit: bool,
                      ghost c0: seq<Op>, ghost steps: seq<AltStep>, ghost segs: seq<seq<Op>>)
      returns (r: Outcome, done: bool, ghost steps': seq<AltStep>, ghost segs': seq<seq<Op>>)
      requires i < |alts| && n < |objs|
      requires steps + AltShape(alts[i..], omit) == AltShape(alts, omit)
      requires |steps| == i && |segs| == i
      requires AltsFit(alts, steps, segs, |c0|, env) && objs[n].code == c0 + Concat(segs)
      modifies this`objs, this`info, this`nextPos
      decreases AltsSize(alts), 5, 2
      ensures Grows(old(objs), objs, n)
      ensures r.Pass? ==> NewComplete(old(objs), objs)
      ensures done <==> alts[i].DefaultAlt?
      ensures r.Pass? ==> |steps'| == i + 1 && |segs'| == i + 1
      ensures r.Pass? ==> AltsFit(alts, steps', segs', |c0|, env) && objs[n].code == c0 + Concat(segs')
      ensures r.Pass? && done ==> steps' == AltShape(alts, omit) && AltsCode(objs[n].code, c0, steps', segs')
      ensures r.Pass? && !done ==> steps' + AltShape(alts[i + 1..], omit) == AltShape(alts, omit)
    {
      AltSmaller(alts, i);
      var alt := alts[i];
      done := alt.DefaultAlt?;
      ghost var step;
      if alt.DefaultAlt? {
        step := TakeDefault;
        r := CgDefaultAlt(n, root, alt);
      } else {
        step := StepFor(alt, omit);
        r := CgConAlt(n, root, alt, omit);
      }
      steps', segs' := steps + [step], segs;
      if r.Fail? {
        return;
      }
      segs' := segs + [objs[n].code[|old(objs[n].code)|..]];
      WalkFrom(alts, i, omit, c0, steps, segs, step, old(objs[n].code), objs[n].code, env);
    }

    /** The default alternative of cgAlts: bind the scrutinee's value and
        compile the body. */
    method CgDefaultAlt(n: ObjId, root: int, alt: Alt) returns (r: Outcome)
      requires alt.DefaultAlt? && n < |objs|
      modifies this`objs, this`info, this`nextPos
      decreases AltSize(alt), 5, 0
      ensures Grows(old(objs), objs, n)
      ensures r.Pass? ==> NewComplete(old(objs), objs)
      ensures r.Pass? ==> StepCode(TakeDefault, alt, objs[n].code[|old(objs[n].code)|..], |old(objs[n].code)|, env)
    {
      BindVar(n, alt.dvar);
      ghost var o1 := objs;
      r := CgExpr(n, root, alt.dbody);
      GrowsTrans(old(objs), o1, objs, n);
      SegmentParts(old(objs[n].code), [Bind(alt.dvar.rep)], objs[n].code, []);
    }

    /** One constructor alternative of cgAlts: the header, the body, the
        end of the alternative and, unless the test is omitted, the fix of
        the test's branch. */
    method CgConAlt(n: ObjId, root: int, alt: Alt, omit: bool) returns (r: Outcome)
      requires alt.ConAlt? && n < |objs|
      modifies this`objs, this`info, this`nextPos
      decreases AltSize(alt), 5, 0
      ensures Grows(old(objs), objs, n)
      ensures r.Pass? ==> NewComplete(old(objs), objs)
      ensures r.Pass? ==> StepCode(StepFor(alt, omit), alt, objs[n].code[|old(objs[n].code)|..],
                                   |old(objs[n].code)|, env)
      ensures r.Pass? ==> objs[n].code[|objs[n].code| - (if omit then 1 else 2)] == EndAlt(old(nextPos))
    {
      var begin, pc;
      r, begin, pc := ConAltHead(n, alt, omit);
      if r.Fail? {
        return;
      }
      ghost var o2 := objs;
      r := CgExpr(n, root, alt.body);
      GrowsTrans(old(objs), o2, objs, n);
      if r.Fail? {
        return;
      }
      ghost var o3 := objs;
      Emit(n, EndAlt(begin));
      GrowsTrans(old(objs), o3, objs, n);
      if !omit {
        ghost var o4 := objs;
        Emit(n, FixBranch(pc));
        GrowsTrans(old(objs), o4, objs, n);
      }
      ConAltFits(alt, omit, old(objs[n].code), o3[n].code, begin, env);
    }

    /** The header of a constructor alternative, as `AltHead` lays it out;
        `begin` is the alternative's stack position and `pc` the program
        counter of its test. */
    method ConAltHead(n: ObjId, alt: Alt, omit: bool) returns (r: Outcome, begin: int, pc: nat)
      requires alt.ConAlt? && n < |objs|
      modifies this`objs, this`info, this`nextPos
      ensures Grows(old(objs), objs, n)
      ensures r.Pass? ==> NewComplete(old(objs), objs)
      ensures r.Pass? ==> alt.con in env.cons && objs[n].code == old(objs[n].code) + AltHead(alt, !omit, env)
      ensures begin == old(nextPos) && (r.Pass? && !omit ==> pc == |old(objs[n].code)| + 1)
    {
      r, begin, pc := AltHeader(n, alt.con, omit);
      if r.Fail? {
        return;
      }
      ghost var h := [BeginAlt] + (if omit then [] else [Test(env.cons[alt.con].tag)]) + [Bind(PtrRep)];
      assert objs[n].code == old(objs[n].code) + h;
      ghost var o1 := objs;
      r := BindFields(n, alt);
      GrowsTrans(old(objs), o1, objs, n);
      if r.Pass? {
        HeadThenFields(old(objs[n].code), h, FieldOps(alt, env), objs[n].code);
      }
    }

    /** asmBeginAlt, the constructor test unless omitted, and the slot of
        the returned value. */
    method AltHeader(n: ObjId, con: Global, omit: bool) returns (r: Outcome, begin: int, pc: nat)
      requires n < |objs|
      modifies this`objs, this`nextPos
      ensures r.Pass? <==> con in env.cons
      ensures r.Fail? ==> Grows(old(objs), objs, n)
      ensures r.Pass? && omit ==> objs == AppendAll(old(objs), n, [BeginAlt, Bind(PtrRep)])
      ensures r.Pass? && !omit ==>
                pc == |old(objs[n].code)| + 1 &&
                objs == AppendAll(old(objs), n, [BeginAlt, Test(env.cons[con].tag), Bind(PtrRep)])
      ensures begin == old(nextPos)
    {
      begin := EmitPos(n, BeginAlt);
      pc := 0;
      if !omit {
        if con !in env.cons {
          return Fail(Internal("stgDiscrTag")), begin, pc;
        }
        pc := EmitPc(n, Test(env.cons[con].tag));
      }
      var ret := EmitPos(n, Bind(PtrRep));
      if con !in env.cons {
        return Fail(Internal("isBoxingCon")), begin, pc;
      }
      r := Pass;
      assert objs[n].code == old(objs[n].code) + (if omit then [BeginAlt, Bind(PtrRep)]
                                                  else [BeginAlt, Test(env.cons[con].tag), Bind(PtrRep)]);
    }

    /** The fields of a matched constructor: the payload of a boxing
        constructor is unboxed into its one variable; otherwise the fields
        are unpacked and bound last first. */
    method BindFields(n: ObjId, alt: Alt) returns (r: Outcome)
      requires alt.ConAlt? && n < |objs|
      modifies this`objs, this`info, this`nextPos
      ensures Grows(old(objs), objs, n) && NewComplete(old(objs), objs)
      ensures r.Pass? <==> alt.con in env.cons && (env.cons[alt.con].boxRep.Some? ==> alt.vars != [])
      ensures r.Pass? && env.cons[alt.con].boxRep.Some? ==>
                objs == Append(old(objs), n, Unbox(env.cons[alt.con].boxRep.value)) &&
                info == old(info)[alt.vars[0].id := Pos(old(nextPos))]
      ensures r.Pass? && env.cons[alt.con].boxRep.None? ==>
                objs == AppendAll(old(objs), n, [BeginUnpack] + BindOps(Reverse(alt.vars)) + [EndUnpack]) &&
                info == Bound(old(info), Reverse(alt.vars), old(nextPos))
      ensures r.Pass? ==> objs[n].code == old(objs[n].code) + FieldOps(alt, env)
    {
      if alt.con !in env.cons {
        return Fail(Internal("isBoxingCon"));
      }
      var attrs := env.cons[alt.con];
      if attrs.boxRep.Some? {
        if alt.vars == [] {
          return Fail(Internal("cgAlts: boxing constructor without a field"));
        }
        var p := EmitPos(n, Unbox(attrs.boxRep.value));
        info := info[alt.vars[0].id := Pos(p)];
        return Pass;
      }
      Emit(n, BeginUnpack);
      ghost var o1 := objs;
      BindVars(n, Reverse(alt.vars));
      ghost var o2 := objs;
      Emit(n, EndUnpack);
      AppendThen(old(objs), n, [], BeginUnpack);
      assert [] + [BeginUnpack] == [BeginUnpack];
      AppendAllThen(old(objs), n, [BeginUnpack], BindOps(Reverse(alt.vars)));
      AppendThen(old(objs), n, [BeginUnpack] + BindOps(Reverse(alt.vars)), EndUnpack);
      r := Pass;
    }

    /** alloc: reserve the heap object a let-bound variable will denote
        and record where it is. */
    method Alloc(bco: ObjId, b: Binding) returns (r: Outcome)
      requires bco < |objs|
      modifies this`objs, this`info, this`nextPos
      decreases BindSize(b), 1, 0
      ensures Grows(old(objs), objs, bco)
      ensures r.Pass? ==> NewComplete(old(objs), objs)
      ensures r.Pass? ==> InfoOf(info, b.v).Pos? || InfoOf(info, b.v).MPtrInfo?
      ensures r.Pass? ==> AllocCode(b, objs[bco].code[|old(objs[bco].code)|..], old(info), closure, env)
      ensures r.Pass? && !b.rhs.Lambda? ==>
                info == old(info)[b.v.id := Pos(old(nextPos))] && nextPos == old(nextPos) + 1
      ensures !b.rhs.ConApp? && !b.rhs.App? && !b.rhs.Lambda? ==>
                r.Pass? && objs == Append(old(objs), bco, AllocAP(0)) &&
                info == old(info)[b.v.id := Pos(old(nextPos))]
      ensures b.rhs.Lambda? && r.Pass? ==>
                objs[bco] == old(objs[bco]) && old(|objs|) < |objs| && objs[old(|objs|)].kind == BcoObj &&
                InfoOf(info, b.v) == MPtrInfo(old(|objs|))
    {
      match b.rhs
      case ConApp(_, _) =>
        r := AllocCon(bco, b);
      case App(_, _) =>
        r := AllocAp(bco, b);
      case Lambda(_, _) =>
        var o := CgLambda(b.rhs);
        if o.Err? {
          return Fail(o.error);
        }
        info := info[b.v.id := MPtrInfo(o.value)];
        r := Pass;
      case _ =>
        var p := EmitPos(bco, AllocAP(0));
        info := info[b.v.id := Pos(p)];
        SliceOf(old(objs[bco].code), [AllocAP(0)], objs[bco].code);
        r := Pass;
    }

    /** The STGCON case of alloc: box the one field of a boxing
        constructor, otherwise reserve a constructor of its layout. */
    method AllocCon(bco: ObjId, b: Binding) returns (r: Outcome)
      requires b.rhs.ConApp? && bco < |objs|
      modifies this`objs, this`info, this`nextPos
      ensures Grows(old(objs), objs, bco) && NewComplete(old(objs), objs)
      ensures r.Pass? ==> b.rhs.con in env.cons && info == old(info)[b.v.id := Pos(old(nextPos))]
      ensures r.Pass? ==> nextPos == old(nextPos) + 1
      ensures r.Pass? ==> AllocCode(b, objs[bco].code[|old(objs[bco].code)|..], old(info), closure, env)
      ensures r.Pass? && env.cons[b.rhs.con].boxRep.None? ==>
                objs == Append(old(objs), bco, AllocConstr(env.cons[b.rhs.con].layout))
      ensures r.Pass? && env.cons[b.rhs.con].boxRep.Some? ==>
                |b.rhs.cargs| > 0 && PushChoice(b.rhs.cargs[0], old(info), closure, env).Ok? &&
                objs == AppendAll(old(objs), bco, [PushChoice(b.rhs.cargs[0], old(info), closure, env).value,
                                                   Box(env.cons[b.rhs.con].boxRep.value)])
    {
      var con := b.rhs.con;
      if con !in env.cons {
        return Fail(Internal("stgConInfo"));
      }
      var attrs := env.cons[con];
      if attrs.boxRep.None? {
        var p := EmitPos(bco, AllocConstr(attrs.layout));
        info := info[b.v.id := Pos(p)];
        SliceOf(old(objs[bco].code), [AllocConstr(attrs.layout)], objs[bco].code);
        return Pass;
      }
      if b.rhs.cargs == [] {
        return Fail(Internal("alloc: boxing constructor without a field"));
      }
      r := PushAtom(bco, b.rhs.cargs[0]);
      if r.Fail? {
        return;
      }
      ghost var o1 := objs;
      ghost var pushed := PushChoice(b.rhs.cargs[0], info, closure, env).value;
      var p := EmitPos(bco, Box(attrs.boxRep.value));
      info := info[b.v.id := Pos(p)];
      AppendThen(old(objs), bco, [], pushed);
      assert [] + [pushed] == [pushed];
      AppendThen(old(objs), bco, [pushed], Box(attrs.boxRep.value));
      assert [pushed] + [Box(attrs.boxRep.value)] == [pushed, Box(attrs.boxRep.value)];
      SliceOf(old(objs[bco].code), [pushed, Box(attrs.boxRep.value)], objs[bco].code);
    }

    /** The STGAPP case of alloc: reserve an AP whose payload is the sum
        of the argument widths (totSizeW). */
    method AllocAp(bco: ObjId, b: Binding) returns (r: Outcome)
      requires b.rhs.App? && bco < |objs|
      modifies this`objs, this`info, this`nextPos
      ensures r.Pass? <==> ApSize(b.rhs.args, env).Ok?
      ensures r.Pass? ==>
                objs == Append(old(objs), bco, AllocAP(ApSize(b.rhs.args, env).value)) &&
                info == old(info)[b.v.id := Pos(old(nextPos))] && nextPos == old(nextPos) + 1
      ensures r.Pass? ==> AllocCode(b, objs[bco].code[|old(objs[bco].code)|..], old(info), closure, env)
      ensures r.Fail? ==> objs == old(objs)
    {
      var args := b.rhs.args;
      var tot := 0;
      var k := 0;
      while k < |args|
        invariant 0 <= k <= |args|
        invariant ApSize(args[..k], env) == Ok(tot)
        invariant objs == old(objs) && info == old(info) && nextPos == old(nextPos)
      {
        var w := ArgWidth(args[k], env);
        if w.Err? {
          return Fail(w.error);
        }
        assert ApSize([args[k]], env) == Ok(w.value) by {
          assert [args[k]][1..] == [];
        }
        ApSizeAppend(args[..k], [args[k]], env);
        assert args[..k + 1] == args[..k] + [args[k]];
        tot := tot + w.value;
        k := k + 1;
      }
      assert args[..|args|] == args;
      var p := EmitPos(bco, AllocAP(tot));
      info := info[b.v.id := Pos(p)];
      SliceOf(old(objs[bco].code), [AllocAP(tot)], objs[bco].code);
      r := Pass;
    }

    /** build: fill in the object alloc reserved. */
    method Build(bco: ObjId, b: Binding) returns (r: Outcome)
      requires bco < |objs|
      modifies this`objs, this`info, this`nextPos
      decreases BindSize(b), 1, 0
      ensures Grows(old(objs), objs, bco)
      ensures r.Pass? ==> NewComplete(old(objs), objs)
      ensures b.rhs.Lambda? ==> r == Pass && objs == old(objs)
      ensures r.Pass? ==>
                BuildCode(b, objs[bco].code[|old(objs[bco].code)|..], BuildEmit(old(info), old(nextPos), old(|objs|)),
                          BuildEmit(info, nextPos, |objs|), closure, env)
      ensures r.Pass? && IsThunk(b.rhs) ==> old(|objs|) < |objs| && objs[old(|objs|)].kind == BcoObj
      ensures !IsThunk(b.rhs) ==> info == old(info)
      ensures IsNameOrVar(b.rhs) && r.Pass? ==>
                && PushChoice(b.rhs.a, old(info), closure, env).Ok? && GetPos(old(info), b.v).Ok?
                && objs == AppendAll(old(objs), bco,
                             [BeginMkAP, PushChoice(b.rhs.a, old(info), closure, env).value,
                              EndMkAP(GetPos(old(info), b.v).value, old(nextPos))])
    {
      if b.rhs.Lambda? {
        return Pass;
      }
      if b.rhs.ConApp? {
        r := BuildCon(bco, b);
        return;
      }
      if b.rhs.App? {
        r := BuildAp(bco, b);
        return;
      }
      if IsNameOrVar(b.rhs) {
        r := BuildWith(bco, b.v, BeginMkAP, [b.rhs.a], EndMkAP(0, 0));
        if r.Pass? {
          SliceOf(old(objs[bco].code), [BeginMkAP] + PushAll([b.rhs.a], info, closure, env).value +
                                       [EndMkAP(GetPos(info, b.v).value, old(nextPos))],
                  objs[bco].code);
          assert PushAll([b.rhs.a], info, closure, env).value == [PushChoice(b.rhs.a, info, closure, env).value];
          assert [BeginMkAP] + [PushChoice(b.rhs.a, info, closure, env).value] + [EndMkAP(GetPos(info, b.v).value, old(nextPos))] ==
                 [BeginMkAP, PushChoice(b.rhs.a, info, closure, env).value, EndMkAP(GetPos(info, b.v).value, old(nextPos))];
        }
        return;
      }
      r := BuildThunk(bco, b);
    }

    /** The STGCON case of build: nothing for a boxing constructor (alloc
        built it), otherwise pack the fields, last field first. */
    method BuildCon(bco: ObjId, b: Binding) returns (r: Outcome)
      requires b.rhs.ConApp? && bco < |objs|
      modifies this`objs, this`nextPos
      ensures Grows(old(objs), objs, bco) && NewComplete(old(objs), objs)
      ensures r.Pass? ==> b.rhs.con in env.cons
      ensures r.Pass? ==>
                BuildCode(b, objs[bco].code[|old(objs[bco].code)|..], BuildEmit(info, old(nextPos), old(|objs|)),
                          BuildEmit(info, nextPos, |objs|), closure, env)
      ensures r.Pass? && env.cons[b.rhs.con].boxRep.Some? ==> objs == old(objs)
      ensures r.Pass? && env.cons[b.rhs.con].boxRep.None? ==>
                var pushes := PushAll(Reverse(b.rhs.cargs), info, closure, env);
                && pushes.Ok? && GetPos(info, b.v).Ok?
                && objs == AppendAll(old(objs), bco,
                             [BeginPack] + pushes.value +
                             [EndPack(GetPos(info, b.v).value, old(nextPos), env.cons[b.rhs.con].layout)])
    {
      var con := b.rhs.con;
      if con !in env.cons {
        return Fail(Internal("stgConInfo"));
      }
      if env.cons[con].boxRep.Some? {
        return Pass;
      }
      r := BuildWith(bco, b.v, BeginPack, Reverse(b.rhs.cargs), EndPack(0, 0, env.cons[con].layout));
      if r.Pass? {
        SliceOf(old(objs[bco].code), [BeginPack] + PushAll(Reverse(b.rhs.cargs), info, closure, env).value +
                                     [EndPack(GetPos(info, b.v).value, old(nextPos), env.cons[con].layout)],
                objs[bco].code);
      }
    }

    /** The STGAPP case of build: a partial application when the function
        needs more arguments than it gets, an updatable application
        otherwise; the arguments are pushed last first, then the
        function. */
    method BuildAp(bco: ObjId, b: Binding) returns (r: Outcome)
      requires b.rhs.App? && bco < |objs|
      modifies this`objs, this`nextPos
      ensures Grows(old(objs), objs, bco) && NewComplete(old(objs), objs)
      ensures ItsaPAP(b.rhs.fun, |b.rhs.args|, env).Err? ==>
                r == Fail(ItsaPAP(b.rhs.fun, |b.rhs.args|, env).error) && objs == old(objs)
      ensures r.Pass? ==>
                var pap := ItsaPAP(b.rhs.fun, |b.rhs.args|, env);
                var pushes := PushAll(Reverse(b.rhs.args) + [b.rhs.fun], info, closure, env);
                && pap.Ok? && pushes.Ok? && GetPos(info, b.v).Ok?
                && objs == AppendAll(old(objs), bco,
                             [if pap.value then BeginMkPAP else BeginMkAP] + pushes.value +
                             [if pap.value then EndMkPAP(GetPos(info, b.v).value, old(nextPos))
                              else EndMkAP(GetPos(info, b.v).value, old(nextPos))])
      ensures r.Pass? ==>
                BuildCode(b, objs[bco].code[|old(objs[bco].code)|..], BuildEmit(info, old(nextPos), old(|objs|)),
                          BuildEmit(info, nextPos, |objs|), closure, env)
    {
      var pap := ItsaPAP(b.rhs.fun, |b.rhs.args|, env);
      if pap.Err? {
        return Fail(pap.error);
      }
      var atoms := Reverse(b.rhs.args) + [b.rhs.fun];
      if pap.value {
        r := BuildWith(bco, b.v, BeginMkPAP, atoms, EndMkPAP(0, 0));
        if r.Pass? {
          SliceOf(old(objs[bco].code), [BeginMkPAP] + PushAll(atoms, info, closure, env).value +
                                       [EndMkPAP(GetPos(info, b.v).value, old(nextPos))],
                  objs[bco].code);
        }
      } else {
        r := BuildWith(bco, b.v, BeginMkAP, atoms, EndMkAP(0, 0));
        if r.Pass? {
          SliceOf(old(objs[bco].code), [BeginMkAP] + PushAll(atoms, info, closure, env).value +
                                       [EndMkAP(GetPos(info, b.v).value, old(nextPos))],
                  objs[bco].code);
        }
      }
    }

    /** The default case of build: an updatable application of a fresh
        BCO computing the right-hand side. */
    method BuildThunk(bco: ObjId, b: Binding) returns (r: Outcome)
      requires bco < |objs|
      modifies this`objs, this`info, this`nextPos
      decreases BindSize(b), 0, 0
      ensures Grows(old(objs), objs, bco)
      ensures r.Pass? ==> NewComplete(old(objs), objs)
      ensures r.Pass? ==>
                && old(|objs|) < |objs| && objs[old(|objs|)].kind == BcoObj && GetPos(info, b.v).Ok?
                && objs[bco].code == old(objs[bco].code) +
                     [BeginMkAP, PushRefObject(old(|objs|)), EndMkAP(GetPos(info, b.v).value, old(nextPos))]
      ensures r.Pass? ==>
                ThunkCode(objs[bco].code[|old(objs[bco].code)|..], b.v, BuildEmit(old(info), old(nextPos), old(|objs|)),
                          BuildEmit(info, nextPos, |objs|))
    {
      var start := EmitPos(bco, BeginMkAP);
      ghost var o1 := objs;
      var body := CgRhs(b.rhs);
      GrowsAround(old(objs), o1, objs, bco);
      if body.Err? {
        return Fail(body.error);
      }
      var pos := GetPos(info, b.v);
      if pos.Err? {
        return Fail(pos.error);
      }
      ghost var o2 := objs;
      Emit(bco, PushRefObject(body.value));
      GrowsTrans(old(objs), o2, objs, bco);
      ghost var o3 := objs;
      Emit(bco, EndMkAP(pos.value, start));
      GrowsTrans(old(objs), o3, objs, bco);
      SliceOf(old(objs[bco].code), [BeginMkAP, PushRefObject(body.value), EndMkAP(pos.value, start)],
              objs[bco].code);
      r := Pass;
    }

    /** Begin, push the atoms, end: the shape shared by the primitive
        calls of cgExpr and the case-on-variable header. `finish` is the
        end instruction, whose begin position is filled in. */
    method Fill(bco: ObjId, begin: Op, atoms: seq<Atom>, finish: Op) returns (r: Outcome)
      requires bco < |objs|
      requires finish.EndPrim? || finish.EndAlt?
      modifies this`objs, this`nextPos
      ensures Grows(old(objs), objs, bco) && NewComplete(old(objs), objs)
      ensures r.Pass? <==> PushAll(atoms, info, closure, env).Ok?
      ensures r.Pass? ==>
                objs == AppendAll(old(objs), bco,
                          [begin] + PushAll(atoms, info, closure, env).value + [finish.(begin := old(nextPos))])
    {
      var start := EmitPos(bco, begin);
      ghost var o1 := objs;
      r := PushAtoms(bco, atoms);
      GrowsTrans(old(objs), o1, objs, bco);
      if r.Fail? {
        return;
      }
      ghost var pushed := PushAll(atoms, info, closure, env).value;
      AppendThen(old(objs), bco, [], begin);
      assert [] + [begin] == [begin];
      AppendAllThen(old(objs), bco, [begin], pushed);
      var end := if finish.EndPrim? then EndPrim(finish.prim, start) else EndAlt(start);
      AppendThen(old(objs), bco, [begin] + pushed, end);
      Emit(bco, end);
    }

    /** The begin / push / end sandwich of build: `finish` is the end
        instruction, whose position and start are filled in. */
    method BuildWith(bco: ObjId, v: Var, begin: Op, atoms: seq<Atom>, finish: Op) returns (r: Outcome)
      requires bco < |objs|
      requires finish.EndPack? || finish.EndMkPAP? || finish.EndMkAP?
      modifies this`objs, this`nextPos
      ensures Grows(old(objs), objs, bco) && NewComplete(old(objs), objs)
      ensures r.Pass? ==>
                && PushAll(atoms, info, closure, env).Ok? && GetPos(info, v).Ok?
                && objs == AppendAll(old(objs), bco,
                             [begin] + PushAll(atoms, info, closure, env).value +
                             [finish.(pos := GetPos(info, v).value, start := old(nextPos))])
    {
      var start := EmitPos(bco, begin);
      ghost var o1 := objs;
      r := PushAtoms(bco, atoms);
      GrowsTrans(old(objs), o1, objs, bco);
      if r.Fail? {
        return;
      }
      var pos := GetPos(info, v);
      if pos.Err? {
        return Fail(pos.error);
      }
      ghost var pushed := PushAll(atoms, info, closure, env).value;
      AppendThen(old(objs), bco, [], begin);
      assert [] + [begin] == [begin];
      AppendAllThen(old(objs), bco, [begin], pushed);
      var end := finish.(pos := pos.value, start := start);
      AppendThen(old(objs), bco, [begin] + pushed, end);
      Emit(bco, end);
    }

    // -------------------------------------------------------------------
    // Top-level variables and the module entry point

    /** beginTop: stage the object a top-level variable will become and
        record it in the variable's info cell. */
    method BeginTop(tv: TopVar) returns (r: Outcome)
      modifies this`objs, this`info
      ensures TopKind(tv.rhs, env).Err? ==>
                r == Fail(TopKind(tv.rhs, env).error) && objs == old(objs) && info == old(info)
      ensures TopKind(tv.rhs, env).Ok? ==>
                && r == Pass
                && objs == old(objs) + [AsmObject(TopKind(tv.rhs, env).value, [], false)]
                && info == old(info)[tv.v.id := MPtrInfo(old(|objs|))]
    {
      var kind := TopKind(tv.rhs, env);
      if kind.Err? {
        return Fail(kind.error);
      }
      var o := NewObject(kind.value);
      info := info[tv.v.id := MPtrInfo(o)];
      r := Pass;
    }

    /** endTop: fill in and end the object beginTop staged for `tv`. */
    method EndTop(tv: TopVar) returns (r: Result<ObjId>)
      modifies this`objs, this`info, this`nextPos
      ensures |old(objs)| <= |objs|
      ensures !(InfoOf(old(info), tv.v).MPtrInfo? && InfoOf(old(info), tv.v).obj < old(|objs|)) ==>
                r == Err(Internal("endTop: getObj")) && objs == old(objs)
      ensures r.Ok? ==> InfoOf(old(info), tv.v) == MPtrInfo(r.value) && Ends(old(objs), objs, r.value)
      ensures r.Ok? && tv.rhs.ConApp? ==>
                var fields := FieldsAll(tv.rhs.cargs, old(info), closure, env);
                fields.Ok? && objs[r.value].code == old(objs[r.value].code) + fields.value
      ensures r.Ok? && tv.rhs.Lambda? ==>
                old(objs[r.value].code) + [BeginArgCheck] + BindOps(Reverse(tv.rhs.params)) +
                [EndArgCheck(old(nextPos))] <= objs[r.value].code
      ensures r.Ok? && !tv.rhs.ConApp? && !tv.rhs.Lambda? ==>
                old(|objs|) < |objs| && objs[old(|objs|)].kind == BcoObj &&
                objs[r.value].code == old(objs[r.value].code) + [AddRefObject(old(|objs|))]
    {
      var cell := InfoOf(info, tv.v);
      if !(cell.MPtrInfo? && cell.obj < |objs|) {
        return Err(Internal("endTop: getObj"));
      }
      var o := cell.obj;
      var out;
      if tv.rhs.ConApp? {
        out := EndCon(o, tv.rhs.cargs);
      } else if tv.rhs.Lambda? {
        out := EndLambda(o, tv.rhs);
      } else {
        out := EndCaf(o, tv.rhs);
      }
      if out.Fail? {
        return Err(out.error);
      }
      ghost var o1 := objs;
      Finish(o);
      FinishEnds(old(objs), o1, o);
      r := Ok(o);
    }

    /** The STGCON case of endTop: one reference slot per field, in
        order. */
    method EndCon(o: ObjId, args: seq<Atom>) returns (r: Outcome)
      requires o < |objs|
      modifies this`objs
      ensures Grows(old(objs), objs, o) && NewComplete(old(objs), objs) && |objs| == old(|objs|)
      ensures r.Pass? <==> FieldsAll(args, info, closure, env).Ok?
      ensures r.Pass? ==> objs == AppendAll(old(objs), o, FieldsAll(args, info, closure, env).value)
    {
      var i := 0;
      AppendNothing(objs, o);
      while i < |args|
        invariant 0 <= i <= |args|
        invariant FieldsAll(args[..i], info, closure, env).Ok?
        invariant objs == AppendAll(old(objs), o, FieldsAll(args[..i], info, closure, env).value)
      {
        var op := FieldChoice(args[i], info, closure, env);
        if op.Err? {
          return Fail(op.error);
        }
        ghost var done := FieldsAll(args[..i], info, closure, env).value;
        assert args[..i + 1][..i] == args[..i];
        assert FieldsAll(args[..i + 1], info, closure, env) == Ok(done + [op.value]);
        AppendThen(old(objs), o, done, op.value);
        Emit(o, op.value);
        i := i + 1;
      }
      assert args[..|args|] == args;
      r := Pass;
    }

    /** The LAMBDA case of endTop: the argument check and body go straight
        into the staged BCO. */
    method EndLambda(o: ObjId, rhs: Expr) returns (r: Outcome)
      requires rhs.Lambda? && o < |objs|
      modifies this`objs, this`info, this`nextPos
      ensures Grows(old(objs), objs, o)
      ensures r.Pass? ==> NewComplete(old(objs), objs)
      ensures r.Pass? ==>
                old(objs[o].code) + [BeginArgCheck] + BindOps(Reverse(rhs.params)) +
                [EndArgCheck(old(nextPos))] <= objs[o].code
    {
      var root := ArgCheck(o, Reverse(rhs.params));
      ghost var o1 := objs;
      r := CgExpr(o, root, rhs.lbody);
      GrowsTrans(old(objs), o1, objs, o);
    }

    /** The default case of endTop: an updatable CAF referring to a BCO
        for the right-hand side. */
    method EndCaf(o: ObjId, rhs: Expr) returns (r: Outcome)
      requires o < |objs|
      modifies this`objs, this`info, this`nextPos
      ensures Grows(old(objs), objs, o)
      ensures r.Pass? ==> NewComplete(old(objs), objs)
      ensures r.Pass? ==>
                old(|objs|) < |objs| && objs[old(|objs|)].kind == BcoObj &&
                objs[o].code == old(objs[o].code) + [AddRefObject(old(|objs|))]
    {
      var body := CgRhs(rhs);
      if body.Err? {
        return Fail(body.error);
      }
      ghost var o1 := objs;
      Emit(o, AddRefObject(body.value));
      GrowsAround(old(objs), old(objs), o1, o) by {
        assert Grows(old(objs), old(objs), o);
      }
      GrowsTrans(old(objs), o1, objs, o);
      r := Pass;
    }

    /** cgModule: stage every code-list entry that is still a tree, end
        each one and record its object, give the objects heap addresses,
        and patch those addresses into the closure fields. `staged` is the
        closure table after staging and `area` the staged objects; `m` and
        `cells` say which object each tree entry became (EndedEntries). */
    method CgModule(codeList: seq<Global>)
      returns (r: Outcome, ghost staged: map<Global, Closure>, ghost n: nat, ghost area: seq<AsmObject>,
               ghost m: map<Global, ObjId>, ghost cells: map<Global, map<VarId, Info>>)
      modifies this
      ensures r.Pass? ==> StagedFrom(old(closure), staged, codeList, n) && forall o :: 0 <= o < n ==> o in placed
      ensures r.Pass? ==> n == |area| && EndedEntries(old(closure), staged, codeList, m, cells, area)
      ensures r.Pass? ==> forall g :: g in codeList && !ClosureOf(old(closure), g).CPtr? ==>
                            g in m && m[g] in placed && ClosureOf(closure, g) == CPtr(placed[m[g]])
      ensures r.Pass? ==> forall g :: g in codeList ==> ClosureOf(closure, g).CPtr?
      ensures r.Pass? ==> forall g :: g in codeList ==> Links(ClosureOf(old(closure), g), ClosureOf(closure, g), placed)
      ensures r.Pass? ==> forall g :: g in codeList && ClosureOf(old(closure), g).CPtr? ==>
                            ClosureOf(closure, g) == ClosureOf(old(closure), g)
      ensures r.Pass? ==> forall g :: g in codeList && !ClosureOf(old(closure), g).CPtr? ==>
                            ClosureOf(closure, g).CPtr? && old(heapTop) <= ClosureOf(closure, g).addr < heapTop
      ensures r.Pass? ==> forall g :: g !in codeList ==> ClosureOf(closure, g) == ClosureOf(old(closure), g)
      ensures r.Pass? ==> objs == []
    {
      staged, n, area, m, cells := closure, 0, [], map[], map[];
      objs := [];
      r := StageBegin(codeList);
      if r.Fail? {
        return;
      }
      r, m, cells := StageEnd(codeList);
      if r.Fail? {
        return;
      }
      staged, n, area := closure, |objs|, objs;
      StagedEntriesAreObjectsOrHeap(old(closure), staged, codeList, n);
      AllocateHeapSpace();
      PatchClosures(codeList);
      ModuleLinked(old(closure), staged, codeList, n, placed);
      assert forall g :: g in codeList ==> Links(ClosureOf(staged, g), ClosureOf(closure, g), placed);
      ModuleAddressesFresh(old(closure), staged, codeList, n, placed, old(heapTop), heapTop);
      objs := [];
    }

    /** The first loop of cgModule: beginTop for every entry that is not
        a heap closure yet; such an entry must still be a tree. */
    method StageBegin(codeList: seq<Global>) returns (r: Outcome)
      modifies this`objs, this`info
      ensures Preserves(old(objs), objs)
      ensures r.Pass? ==> forall g :: g in codeList ==> ClosureOf(closure, g).CPtr? || ClosureOf(closure, g).Tree?
      ensures r.Pass? ==> forall g :: g in codeList && ClosureOf(closure, g).Tree? ==>
                            InfoOf(info, ClosureOf(closure, g).top.v).MPtrInfo? &&
                            old(|objs|) <= InfoOf(info, ClosureOf(closure, g).top.v).obj < |objs|
    {
      var i := 0;
      while i < |codeList|
        invariant 0 <= i <= |codeList|
        invariant Preserves(old(objs), objs)
        invariant forall g :: g in codeList[..i] ==> ClosureOf(closure, g).CPtr? || ClosureOf(closure, g).Tree?
        invariant forall g :: g in codeList[..i] && ClosureOf(closure, g).Tree? ==>
                    InfoOf(info, ClosureOf(closure, g).top.v).MPtrInfo? &&
                    old(|objs|) <= InfoOf(info, ClosureOf(closure, g).top.v).obj < |objs|
      {
        var c := ClosureOf(closure, codeList[i]);
        assert codeList[..i + 1] == codeList[..i] + [codeList[i]];
        if !c.CPtr? {
          if !c.Tree? {
            return Fail(Internal("beginTop"));
          }
          r := BeginTop(c.top);
          if r.Fail? {
            return;
          }
        }
        i := i + 1;
      }
      assert codeList[..|codeList|] == codeList;
      r := Pass;
    }

    /** The second loop of cgModule: endTop for every entry that is not a
        heap closure, whose field then points at the ended object. `m`
        names each such entry's object and `cells` the info table its
        endTop read: the entry's variable was bound there to that very
        object, which is now complete. */
    method StageEnd(codeList: seq<Global>)
      returns (r: Outcome, ghost m: map<Global, ObjId>, ghost cells: map<Global, map<VarId, Info>>)
      modifies this`objs, this`info, this`nextPos, this`closure
      ensures |old(objs)| <= |objs|
      ensures r.Pass? ==> StagedFrom(old(closure), closure, codeList, |objs|)
      ensures r.Pass? ==> NewComplete(old(objs), objs)
      ensures r.Pass? ==> EndedEntries(old(closure), closure, codeList, m, cells, objs)
    {
      m, cells := map[], map[];
      var i := 0;
      while i < |codeList|
        invariant 0 <= i <= |codeList|
        invariant |old(objs)| <= |objs|
        invariant StagedFrom(old(closure), closure, codeList[..i], |objs|)
        invariant NewComplete(old(objs), objs)
        invariant EndedEntries(old(closure), closure, codeList[..i], m, cells, objs)
      {
        var g := codeList[i];
        var c := ClosureOf(closure, g);
        assert codeList[..i + 1] == codeList[..i] + [g];
        if !c.CPtr? {
          if !c.Tree? {
            return Fail(Internal("endTop")), m, cells;
          }
          assert g !in codeList[..i];
          ghost var o1, cell := objs, info;
          var o := EndTop(c.top);
          if o.Err? {
            return Fail(o.error), m, cells;
          }
          EndedStep(old(closure), closure, codeList[..i], m, cells, o1, objs, g, o.value, cell);
          StagedStep(old(closure), closure, codeList[..i], |o1|, |objs|, g, MPtr(o.value));
          closure := closure[g := MPtr(o.value)];
          m, cells := m[g := o.value], cells[g := cell];
        } else {
          StagedStep(old(closure), closure, codeList[..i], |objs|, |objs|, g, c);
        }
        i := i + 1;
      }
      assert codeList[..|codeList|] == codeList;
      r := Pass;
    }

    /** asmAllocateHeapSpace: every staged object gets its own heap
        address above the old top. */
    method AllocateHeapSpace()
      modifies this`placed, this`heapTop
      ensures forall o :: o in placed <==> 0 <= o < |objs|
      ensures forall o :: o in placed ==> old(heapTop) <= placed[o] < heapTop
      ensures forall o, o' :: o in placed && o' in placed && o != o' ==> placed[o] != placed[o']
      ensures heapTop == old(heapTop) + |objs|
    {
      placed := map[];
      var o := 0;
      while o < |objs|
        invariant 0 <= o <= |objs|
        invariant forall k :: k in placed <==> 0 <= k < o
        invariant heapTop == old(heapTop)
        invariant forall k :: k in placed ==> placed[k] == heapTop + k
      {
        placed := placed[o := heapTop + o];
        o := o + 1;
      }
      heapTop := heapTop + |objs|;
    }

    /** The patch-back loop of cgModule. */
    method PatchClosures(codeList: seq<Global>)
      modifies this`closure
      ensures closure == PatchBack(old(closure), codeList, placed)
    {
      var i := 0;
      while i < |codeList|
        invariant 0 <= i <= |codeList|
        invariant closure == PatchBack(old(closure), codeList[..i], placed)
      {
        var g := codeList[i];
        var c := ClosureOf(closure, g);
        assert codeList[..i + 1][..i] == codeList[..i];
        if c.MPtr? {
          closure := closure[g := PatchOne(c, placed)];
        }
        i := i + 1;
      }
      assert codeList[..|codeList|] == codeList;
    }

    /** True when name `nm` is in use and its closure field is the heap
        closure at `addr`. */
    predicate HugsNameAt(nm: NameId, addr: Addr)
      reads this
    {
      nm in env.names && ClosureOf(closure, GName(nm)) == CPtr(addr)
    }

    /** lookupHugsName: the text of the first in-use name whose closure is
        the heap closure `addr`, searching the name table in order. */
    method LookupHugsName(addr: Addr) returns (r: Option<string>)
      ensures r.None? <==> forall nm :: 0 <= nm < env.tabNameSz ==> !HugsNameAt(nm, addr)
      ensures r.Some? ==> exists nm :: 0 <= nm < env.tabNameSz && HugsNameAt(nm, addr) &&
                                       r.value == env.names[nm].text &&
                                       forall k :: 0 <= k < nm ==> !HugsNameAt(k, addr)
    {
      var nm := 0;
      while nm < env.tabNameSz
        invariant 0 <= nm <= env.tabNameSz
        invariant forall k :: 0 <= k < nm ==> !HugsNameAt(k, addr)
      {
        if nm in env.names {
          var cl := ClosureOf(closure, GName(nm));
          if cl.CPtr? && cl.addr == addr {
            assert HugsNameAt(nm, addr);
            return Some(env.names[nm].text);
          }
        }
        nm := nm + 1;
      }
      r := None;
    }
  }

  // ---------------------------------------------------------------------
  // The layout of a compiled case continuation (cgAlts)

  /** The instructions that bind a matched constructor's fields: an unbox
      for a boxing constructor, otherwise an unpack binding the fields last
      first. */
  function FieldOps(alt: Alt, env: Env): (r: seq<Op>)
    requires alt.ConAlt? && alt.con in env.cons
    ensures forall k :: 0 <= k < |r| ==> !r[k].Test? && !r[k].FixBranch?
  {
    match env.cons[alt.con].boxRep
    case Some(rep) => [Unbox(rep)]
    case None => [BeginUnpack] + BindOps(Reverse(alt.vars)) + [EndUnpack]
  }

  /** The header of a constructor alternative: begin, the tag test when
      tested, the slot of the returned value, and the field bindings. */
  function AltHead(alt: Alt, tested: bool, env: Env): seq<Op>
    requires alt.ConAlt? && alt.con in env.cons
  {
    [BeginAlt] + (if tested then [Test(env.cons[alt.con].tag)] else []) + [Bind(PtrRep)] + FieldOps(alt, env)
  }

  /** `seg`, emitted at offset `at` of the continuation, is the code of the
      walk step `step` over the alternative `alt`. A constructor
      alternative is its header, its body and its end; when tested, its
      tag test sits at `at + 1` and the very last instruction fixes that
      test's branch. The default binds its variable before its body. */
  ghost predicate StepCode(step: AltStep, alt: Alt, seg: seq<Op>, at: nat, env: Env)
  {
    match step
    case Tested(con) =>
      && alt.ConAlt? && con == alt.con && con in env.cons
      && |seg| >= |AltHead(alt, true, env)| + 2 && AltHead(alt, true, env) <= seg
      && seg[|seg| - 2].EndAlt? && seg[|seg| - 1] == FixBranch(at + 1)
    case Untested(con) =>
      && alt.ConAlt? && con == alt.con && con in env.cons
      && |seg| >= |AltHead(alt, false, env)| + 1 && AltHead(alt, false, env) <= seg
      && seg[|seg| - 1].EndAlt?
    case TakeDefault => alt.DefaultAlt? && [Bind(alt.dvar.rep)] <= seg
    case PanicStep => false
  }

  /** Each segment is the code of the step and alternative of the same
      index, emitted where the previous segment ended, from `base` on. */
  ghost predicate AltsFit(alts: seq<Alt>, steps: seq<AltStep>, segs: seq<seq<Op>>, base: nat, env: Env)
  {
    && |segs| <= |steps| && |segs| <= |alts|
    && (segs != [] ==>
          var k := |segs| - 1;
          AltsFit(alts, steps, segs[..k], base, env) &&
          StepCode(steps[k], alts[k], segs[k], base + |Concat(segs[..k])|, env))
  }

  /** Two segments fit their steps: the first at `base`, the second
      right after it. */
  lemma FitTwo(alts: seq<Alt>, steps: seq<AltStep>, segs: seq<seq<Op>>, base: nat, env: Env)
    requires AltsFit(alts, steps, segs, base, env) && |segs| == 2
    ensures StepCode(steps[0], alts[0], segs[0], base, env)
    ensures StepCode(steps[1], alts[1], segs[1], base + |segs[0]|, env)
  {
    var first := segs[..1];
    assert first[..0] == [] && first[0] == segs[0];
    assert first == [] + [segs[0]];
    ConcatSnoc([], segs[0]);
  }

  /** The code after `base` is the segments in order, then a panic exactly
      when the walk ends with one. */
  ghost predicate AltsCode(code: seq<Op>, base: seq<Op>, steps: seq<AltStep>, segs: seq<seq<Op>>)
  {
    && steps != []
    && |segs| == (if steps[|steps| - 1] == PanicStep then |steps| - 1 else |steps|)
    && code == base + Concat(segs) + (if steps[|steps| - 1] == PanicStep then [Panic] else [])
  }

  lemma AltsFitSnoc(alts: seq<Alt>, steps: seq<AltStep>, segs: seq<seq<Op>>, base: nat,
                    step: AltStep, seg: seq<Op>, env: Env)
    requires AltsFit(alts, steps, segs, base, env) && |segs| == |steps| < |alts|
    requires StepCode(step, alts[|steps|], seg, base + |Concat(segs)|, env)
    ensures AltsFit(alts, steps + [step], segs + [seg], base, env)
  {
    assert (segs + [seg])[..|segs|] == segs;
    AltsFitSteps(alts, steps, [step], segs, base, env);
  }

  /** Steps past the last segment do not matter. */
  lemma {:induction false} AltsFitSteps(alts: seq<Alt>, steps: seq<AltStep>, more: seq<AltStep>,
                                        segs: seq<seq<Op>>, base: nat, env: Env)
    requires AltsFit(alts, steps, segs, base, env)
    ensures AltsFit(alts, steps + more, segs, base, env)
  {
    if segs != [] {
      var k := |segs| - 1;
      AltsFitSteps(alts, steps, more, segs[..k], base, env);
      assert (steps + more)[k] == steps[k];
    }
  }

  /** The walk and its layout after one more step. */
  lemma WalkStep(alts: seq<Alt>, i: nat, omit: bool, c0: seq<Op>, steps: seq<AltStep>, segs: seq<seq<Op>>,
                 step: AltStep, seg: seq<Op>, code: seq<Op>, env: Env)
    requires i < |alts| && steps + AltShape(alts[i..], omit) == AltShape(alts, omit)
    requires |steps| == i && |segs| == i && AltsFit(alts, steps, segs, |c0|, env)
    requires step == if alts[i].DefaultAlt? then TakeDefault else StepFor(alts[i], omit)
    requires code == c0 + Concat(segs) + seg && StepCode(step, alts[i], seg, |c0 + Concat(segs)|, env)
    ensures AltsFit(alts, steps + [step], segs + [seg], |c0|, env) && code == c0 + Concat(segs + [seg])
    ensures alts[i].DefaultAlt? ==>
              steps + [step] == AltShape(alts, omit) && AltsCode(code, c0, steps + [step], segs + [seg])
    ensures alts[i].ConAlt? ==> steps + [step] + AltShape(alts[i + 1..], omit) == AltShape(alts, omit)
  {
    AltsFitSnoc(alts, steps, segs, |c0|, step, seg, env);
    SegsGrow(c0, segs, seg, code);
    WalkGrows(steps, step, alts, i, omit);
  }

  /** WalkStep for the code that grew from `c1` to `code`. */
  lemma WalkFrom(alts: seq<Alt>, i: nat, omit: bool, c0: seq<Op>, steps: seq<AltStep>, segs: seq<seq<Op>>,
                 step: AltStep, c1: seq<Op>, code: seq<Op>, env: Env)
    requires i < |alts| && steps + AltShape(alts[i..], omit) == AltShape(alts, omit)
    requires |steps| == i && |segs| == i && AltsFit(alts, steps, segs, |c0|, env)
    requires step == if alts[i].DefaultAlt? then TakeDefault else StepFor(alts[i], omit)
    requires c1 == c0 + Concat(segs) && c1 <= code && StepCode(step, alts[i], code[|c1|..], |c1|, env)
    ensures AltsFit(alts, steps + [step], segs + [code[|c1|..]], |c0|, env)
    ensures code == c0 + Concat(segs + [code[|c1|..]])
    ensures alts[i].DefaultAlt? ==>
              steps + [step] == AltShape(alts, omit) && AltsCode(code, c0, steps + [step], segs + [code[|c1|..]])
    ensures alts[i].ConAlt? ==> steps + [step] + AltShape(alts[i + 1..], omit) == AltShape(alts, omit)
  {
    Suffix(c1, code);
    WalkStep(alts, i, omit, c0, steps, segs, step, code[|c1|..], code, env);
  }

  lemma SegsGrow(c0: seq<Op>, segs: seq<seq<Op>>, seg: seq<Op>, code: seq<Op>)
    requires code == c0 + Concat(segs) + seg
    ensures code == c0 + Concat(segs + [seg])
  {
    ConcatSnoc(segs, seg);
  }

  /** One more step of the walk from position `i`. */
  lemma WalkGrows(steps: seq<AltStep>, step: AltStep, alts: seq<Alt>, i: nat, omit: bool)
    requires i < |alts| && steps + AltShape(alts[i..], omit) == AltShape(alts, omit)
    requires step == if alts[i].DefaultAlt? then TakeDefault else StepFor(alts[i], omit)
    ensures alts[i].DefaultAlt? ==> steps + [step] == AltShape(alts, omit)
    ensures alts[i].ConAlt? ==> steps + [step] + AltShape(alts[i + 1..], omit) == AltShape(alts, omit)
  {
    ShapeFrom(alts, i, omit);
    if alts[i].ConAlt? {
      assert steps + [step] + AltShape(alts[i + 1..], omit) == steps + ([step] + AltShape(alts[i + 1..], omit));
    }
  }

  /** The pieces of a segment appended after `c0`: the header `head`,
      whatever followed it up to `c3`, and the trailer `tail`. */
  lemma SegmentParts(c0: seq<Op>, head: seq<Op>, c3: seq<Op>, tail: seq<Op>)
    requires c0 + head <= c3
    ensures var seg := (c3 + tail)[|c0|..];
            && head <= seg && |seg| >= |head| + |tail|
            && (forall k :: 0 <= k < |tail| ==> seg[|seg| - |tail| + k] == tail[k])
  {
    var seg := (c3 + tail)[|c0|..];
    forall k | 0 <= k < |head| ensures seg[k] == head[k] {
      assert seg[k] == c3[|c0| + k] == (c0 + head)[|c0| + k];
    }
  }

  /** A constructor alternative whose header follows `c0` and whose
      trailer is the end and, when tested, the fix of the test at
      `|c0| + 1` is the code of its step. */
  lemma ConAltFits(alt: Alt, omit: bool, c0: seq<Op>, c3: seq<Op>, begin: int, env: Env)
    requires alt.ConAlt? && alt.con in env.cons
    requires c0 + AltHead(alt, !omit, env) <= c3
    ensures var tail := if omit then [EndAlt(begin)] else [EndAlt(begin), FixBranch(|c0| + 1)];
            StepCode(StepFor(alt, omit), alt, (c3 + tail)[|c0|..], |c0|, env)
  {
    var tail := if omit then [EndAlt(begin)] else [EndAlt(begin), FixBranch(|c0| + 1)];
    SegmentParts(c0, AltHead(alt, !omit, env), c3, tail);
    var seg := (c3 + tail)[|c0|..];
    assert seg[|seg| - |tail|] == tail[0];
    assert seg[|seg| - |tail| + |tail| - 1] == tail[|tail| - 1];
  }

  lemma HeadThenFields(c0: seq<Op>, h: seq<Op>, f: seq<Op>, code: seq<Op>)
    requires code == c0 + h + f
    ensures code == c0 + (h + f)
  {
  }

  /** When the test is omitted the continuation holds the single
      constructor alternative, with no constructor test in its header,
      followed by the default. */
  lemma OmittedCode(alts: seq<Alt>, segs: seq<seq<Op>>, code: seq<Op>, env: Env)
    requires OmitTest(alts, env)
    requires AltsFit(alts, AltShape(alts, true), segs, 0, env)
    requires AltsCode(code, [], AltShape(alts, true), segs)
    ensures |segs| == 2 && code == segs[0] + segs[1]
    ensures alts[0].con in env.cons && AltHead(alts[0], false, env) <= segs[0]
    ensures forall k :: 0 <= k < |AltHead(alts[0], false, env)| ==> !segs[0][k].Test?
    ensures [Bind(alts[1].dvar.rep)] <= segs[1]
  {
    OmittedShape(alts, env);
    var steps := AltShape(alts, true);
    TwoSegments(code, steps, segs);
    FitTwo(alts, steps, segs, 0, env);
    UntestedSegment(alts[0], segs[0], 0, env);
  }

  /** A walk of two steps that does not panic leaves two segments. */
  lemma TwoSegments(code: seq<Op>, steps: seq<AltStep>, segs: seq<seq<Op>>)
    requires AltsCode(code, [], steps, segs) && |steps| == 2 && steps[1] != PanicStep
    ensures |segs| == 2 && code == segs[0] + segs[1]
  {
    assert segs[..1] == [segs[0]];
    assert segs == segs[..1] + [segs[1]];
    ConcatSnoc(segs[..1], segs[1]);
    ConcatSnoc([], segs[0]);
  }

  /** An untested alternative's segment opens with its header, which
      holds no Test. */
  lemma UntestedSegment(alt: Alt, seg: seq<Op>, at: nat, env: Env)
    requires alt.ConAlt? && StepCode(Untested(alt.con), alt, seg, at, env)
    ensures alt.con in env.cons && AltHead(alt, false, env) <= seg
    ensures forall k :: 0 <= k < |AltHead(alt, false, env)| ==> !seg[k].Test?
  {
    UntestedHead(alt, env);
  }

  /** A header emitted without the test holds no Test. */
  lemma UntestedHead(alt: Alt, env: Env)
    requires alt.ConAlt? && alt.con in env.cons
    ensures forall k :: 0 <= k < |AltHead(alt, false, env)| ==> !AltHead(alt, false, env)[k].Test?
  {
    var head := AltHead(alt, false, env);
    forall k | 0 <= k < |head| ensures !head[k].Test? {
      if k >= 2 {
        assert head[k] == FieldOps(alt, env)[k - 2];
      }
    }
  }

  /** Every address patched into a staged entry's field is one the heap
      allocation handed out. */
  lemma ModuleAddressesFresh(initial: map<Global, Closure>, staged: map<Global, Closure>,
                             codeList: seq<Global>, n: nat, placed: map<ObjId, Addr>, lo: Addr, hi: Addr)
    requires StagedFrom(initial, staged, codeList, n)
    requires forall o :: 0 <= o < n ==> o in placed
    requires forall o :: o in placed ==> lo <= placed[o] < hi
    ensures forall g :: g in codeList && !ClosureOf(initial, g).CPtr? ==>
              var c := ClosureOf(PatchBack(staged, codeList, placed), g);
              c.CPtr? && lo <= c.addr < hi
  {
    forall g | g in codeList && !ClosureOf(initial, g).CPtr?
      ensures var c := ClosureOf(PatchBack(staged, codeList, placed), g);
              c.CPtr? && lo <= c.addr < hi
    {
      PatchBackEffect(staged, codeList, placed, g);
    }
  }

  /** The layout testPrimPats builds, one literal test at a time. */
  lemma GuardLayout(c0: seq<Op>, t: Op, rest: seq<Op>, body: seq<Op>, pc: nat, k: nat)
    ensures c0 + [t] + rest + body + FixOps(pc + 1, k) + [FixBranch(pc)] ==
            c0 + ([t] + rest) + body + FixOps(pc, k + 1)
  {
    assert FixOps(pc, k + 1) == FixOps(pc + 1, k) + [FixBranch(pc)];
  }

  /** The code of a primitive case after `c0`: the scrutinee's header,
      one segment per alternative, then a panic. */
  ghost predicate PrimCaseCode(e: Expr, c0: seq<Op>, head: seq<Op>, segs: seq<seq<Op>>,
                               emits: seq<PrimAltEmit>, code: seq<Op>)
    requires e.PrimCase?
  {
    && |segs| == |e.palts|
    && PrimAltsFit(e.palts, e.pscrut.Prim?, segs, emits, |c0| + |head|)
    && code == c0 + head + Concat(segs) + [Panic]
  }

  lemma PrimCaseLayout(e: Expr, c0: seq<Op>, head: seq<Op>, c1: seq<Op>, segs: seq<seq<Op>>,
                  emits: seq<PrimAltEmit>, c2: seq<Op>)
    requires e.PrimCase? && c1 == c0 + head
    requires |segs| == |e.palts| && PrimAltsFit(e.palts, e.pscrut.Prim?, segs, emits, |c1|)
    requires c2 == c1 + Concat(segs) + [Panic]
    ensures PrimCaseCode(e, c0, head, segs, emits, c2)
  {
  }

  /** The code cgExpr emits for a primitive-case scrutinee before the
      alternatives: the primitive call, or the case on a variable. */
  function ScrutCode(scrut: Expr, info: map<VarId, Info>, closure: map<Global, Closure>, env: Env,
                     begin: int): (r: Result<seq<Op>>)
    ensures r.Ok? <==> (scrut.Prim? || (scrut.AtomExpr? && scrut.a.AVar?)) &&
                       PushAll(if scrut.Prim? then Reverse(scrut.pargs) else [scrut.a], info, closure, env).Ok?
    ensures r.Ok? ==> |r.value| >= 2 && forall i :: 0 < i < |r.value| - 1 ==> IsPush(r.value[i])
  {
    if scrut.Prim? then
      var pushed :- PushAll(Reverse(scrut.pargs), info, closure, env);
      Ok([BeginPrim] + pushed + [EndPrim(scrut.op, begin)])
    else if scrut.AtomExpr? && scrut.a.AVar? then
      var pushed :- PushAll([scrut.a], info, closure, env);
      Ok([BeginCase] + pushed + [EndAlt(begin)])
    else Err(Unsupported("cgExpr: PRIMCASE scrutinee"))
  }

  /** What one primitive alternative's code depends on besides the
      alternative: the variable info and stack position it began with,
      the offset of its code in the object, and the code its body
      compiled to. */
  datatype PrimAltEmit = PrimAltEmit(pre: map<VarId, Info>, begin: int, at: nat, fix: nat, body: seq<Op>)

  /** The order the pattern variables are bound in. */
  function BindOrder(alt: PrimAlt, reversed: bool): (r: seq<Var>)
    ensures |r| == |alt.pats|
    ensures forall i :: 0 <= i < |r| ==> r[i] == alt.pats[if reversed then |r| - 1 - i else i].v
  {
    if reversed then Reverse(PatVars(alt.pats)) else PatVars(alt.pats)
  }

  /** The variable info the guards of an alternative are compiled under. */
  function AltInfo(alt: PrimAlt, reversed: bool, em: PrimAltEmit): map<VarId, Info>
  {
    Bound(em.pre, BindOrder(alt, reversed), em.begin + 1)
  }

  /** One alternative's code: open, bind, the literal tests, the body,
      the fixes of the tests' branches, close; an error when a literal's
      variable cannot be tested. */
  ghost predicate PrimAltCode(alt: PrimAlt, reversed: bool, seg: seq<Op>, em: PrimAltEmit)
  {
    var g := GuardTests(alt.pats, AltInfo(alt, reversed, em));
    g.Ok? && AltPieces(alt, reversed, seg, em, g.value)
  }

  /** `seg` is the alternative's code around the literal tests `guards`. */
  ghost predicate AltPieces(alt: PrimAlt, reversed: bool, seg: seq<Op>, em: PrimAltEmit, guards: seq<Op>)
  {
    && em.fix == em.at + 1 + |alt.pats|
    && Pieces(seg, BindOps(BindOrder(alt, reversed)), guards, em.body, FixOps(em.fix, LiteralCount(alt.pats)),
              EndAlt(em.begin))
  }

  /** `seg` opens an alternative, then holds the given pieces in order. */
  ghost predicate Pieces(seg: seq<Op>, binds: seq<Op>, guards: seq<Op>, body: seq<Op>, fixes: seq<Op>, end: Op)
  {
    seg == [BeginAlt] + binds + guards + body + fixes + [end]
  }

  /** The first |segs| alternatives laid out one after another from
      `base`: each segment is its alternative's code, at the offset the
      segments before it end at. */
  ghost predicate PrimAltsFit(palts: seq<PrimAlt>, reversed: bool, segs: seq<seq<Op>>,
                              emits: seq<PrimAltEmit>, base: nat)
  {
    && |segs| <= |palts|
    && Offsets(segs, emits, base)
    && forall j :: 0 <= j < |segs| ==> PrimAltCode(palts[j], reversed, segs[j], emits[j])
  }

  /** Each recorded offset is where the segments before it end. */
  ghost predicate Offsets(segs: seq<seq<Op>>, emits: seq<PrimAltEmit>, base: nat)
  {
    && |segs| == |emits|
    && (segs != [] ==>
          var k := |segs| - 1;
          Offsets(segs[..k], emits[..k], base) && emits[k].at == base + |Concat(segs[..k])|)
  }

  lemma {:induction false} OffsetAt(segs: seq<seq<Op>>, emits: seq<PrimAltEmit>, base: nat, j: nat)
    requires Offsets(segs, emits, base) && j < |segs|
    ensures emits[j].at == base + |Concat(segs[..j])|
  {
    var k := |segs| - 1;
    if j < k {
      OffsetAt(segs[..k], emits[..k], base, j);
      assert segs[..k][..j] == segs[..j];
    }
  }

  /** The loop of the primitive case after one more alternative. */
  lemma PrimAltsStep(palts: seq<PrimAlt>, reversed: bool, c0: seq<Op>, segs: seq<seq<Op>>,
                     emits: seq<PrimAltEmit>, seg: seq<Op>, em: PrimAltEmit, code: seq<Op>)
    requires |segs| < |palts| && PrimAltsFit(palts, reversed, segs, emits, |c0|)
    requires c0 + Concat(segs) <= code && seg == code[|c0 + Concat(segs)|..]
    requires PrimAltCode(palts[|segs|], reversed, seg, em) && em.at == |c0 + Concat(segs)|
    ensures PrimAltsFit(palts, reversed, segs + [seg], emits + [em], |c0|)
    ensures code == c0 + Concat(segs + [seg])
  {
    assert (segs + [seg])[..|segs|] == segs;
    assert (emits + [em])[..|segs|] == emits;
    Suffix(c0 + Concat(segs), code);
    SegsGrow(c0, segs, seg, code);
    var segs', emits' := segs + [seg], emits + [em];
    forall j | 0 <= j < |segs'| ensures PrimAltCode(palts[j], reversed, segs'[j], emits'[j]) {
      if j < |segs| {
        assert segs'[j] == segs[j] && emits'[j] == emits[j];
      }
    }
  }

  /** The layout CgPrimAlt builds from the code before the alternative
      (c0), after the bindings (c2), after the guarded body (c3) and
      after the close. */
  lemma PrimAltLayout(c0: seq<Op>, c2: seq<Op>, c3: seq<Op>, c4: seq<Op>, alt: PrimAlt, reversed: bool,
                      em: PrimAltEmit, guards: seq<Op>)
    requires c2 == c0 + [BeginAlt] + BindOps(BindOrder(alt, reversed))
    requires c3 == c2 + guards + em.body + FixOps(em.fix, LiteralCount(alt.pats))
    requires c4 == c3 + [EndAlt(em.begin)]
    requires em.at == |c0| && em.fix == |c2|
    ensures AltPieces(alt, reversed, c4[|c0|..], em, guards)
  {
    Sections(c0, BindOps(BindOrder(alt, reversed)), guards, em.body, FixOps(em.fix, LiteralCount(alt.pats)),
             EndAlt(em.begin), c2, c3, c4);
  }

  /** A log built section by section holds the sections after its start. */
  lemma Sections(c0: seq<Op>, binds: seq<Op>, guards: seq<Op>, body: seq<Op>, fixes: seq<Op>, end: Op,
                 c2: seq<Op>, c3: seq<Op>, c4: seq<Op>)
    requires c2 == c0 + [BeginAlt] + binds && c3 == c2 + guards + body + fixes && c4 == c3 + [end]
    ensures Pieces(c4[|c0|..], binds, guards, body, fixes, end)
  {
    assert c4 == c0 + ([BeginAlt] + binds + guards + body + fixes + [end]);
  }

  /** The literal tests inside an alternative's code. */
  function GuardOf(alt: PrimAlt, seg: seq<Op>): (r: seq<Op>)
    ensures |r| <= |seg|
  {
    var lo := 1 + |alt.pats|;
    if lo + LiteralCount(alt.pats) <= |seg| then seg[lo..lo + LiteralCount(alt.pats)] else []
  }

  lemma GuardSlice(alt: PrimAlt, reversed: bool, seg: seq<Op>, em: PrimAltEmit)
    requires PrimAltCode(alt, reversed, seg, em)
    ensures GuardOf(alt, seg) == GuardTests(alt.pats, AltInfo(alt, reversed, em)).value
  {
    AltGuards(alt, reversed, seg, em, GuardTests(alt.pats, AltInfo(alt, reversed, em)).value);
  }

  lemma AltGuards(alt: PrimAlt, reversed: bool, seg: seq<Op>, em: PrimAltEmit, guards: seq<Op>)
    requires AltPieces(alt, reversed, seg, em, guards) && |guards| == LiteralCount(alt.pats)
    ensures GuardOf(alt, seg) == guards
  {
    PiecesSlice(seg, BindOps(BindOrder(alt, reversed)), guards, em.body,
                FixOps(em.fix, LiteralCount(alt.pats)), EndAlt(em.begin),
                1 + |alt.pats|, 1 + |alt.pats| + LiteralCount(alt.pats));
  }

  lemma PiecesSlice(seg: seq<Op>, binds: seq<Op>, guards: seq<Op>, body: seq<Op>, fixes: seq<Op>, end: Op,
                    lo: nat, hi: nat)
    requires Pieces(seg, binds, guards, body, fixes, end)
    requires lo == 1 + |binds| && hi == lo + |guards|
    ensures hi <= |seg| && seg[lo..hi] == guards
  {
    var pre := [BeginAlt] + binds;
    assert seg == pre + guards + (body + fixes + [end]);
  }

  /** The compiled primitive case behaves as its meaning says: when the
      pattern variables of every alternative are bound to slots holding
      `vals`, alternative j's emitted guard passes exactly when its
      literals match, so control reaches alternative j's body exactly
      when SelectPrimAlt picks j, and reaches the panic exactly when it
      picks none. */
  lemma EmittedGuardsSelect(palts: seq<PrimAlt>, reversed: bool, segs: seq<seq<Op>>,
                            emits: seq<PrimAltEmit>, base: nat, stack: map<int, int>, vals: seq<int>)
    requires forall i :: 0 <= i < |palts| ==> |palts[i].pats| == |vals|
    requires |segs| == |palts| && PrimAltsFit(palts, reversed, segs, emits, base)
    requires forall j :: 0 <= j < |palts| ==>
               BoundTo(palts[j].pats, AltInfo(palts[j], reversed, emits[j]), stack, vals)
    ensures forall j :: 0 <= j < |palts| ==>
              (GuardPasses(GuardOf(palts[j], segs[j]), stack) <==> LiteralsMatch(palts[j].pats, vals))
    ensures forall j :: 0 <= j < |palts| ==>
              (SelectPrimAlt(palts, vals) == Some(j) <==>
                 GuardPasses(GuardOf(palts[j], segs[j]), stack) &&
                 forall i :: 0 <= i < j ==> !GuardPasses(GuardOf(palts[i], segs[i]), stack))
    ensures SelectPrimAlt(palts, vals).None? <==>
              forall j :: 0 <= j < |palts| ==> !GuardPasses(GuardOf(palts[j], segs[j]), stack)
  {
    forall j | 0 <= j < |palts|
      ensures GuardPasses(GuardOf(palts[j], segs[j]), stack) <==> LiteralsMatch(palts[j].pats, vals)
    {
      GuardSlice(palts[j], reversed, segs[j], emits[j]);
      GuardMeansLiteralMatch(palts[j].pats, AltInfo(palts[j], reversed, emits[j]), stack, vals);
    }
    forall j | 0 <= j < |palts|
      ensures SelectPrimAlt(palts, vals) == Some(j) <==>
                LiteralsMatch(palts[j].pats, vals) && forall i :: 0 <= i < j ==> !LiteralsMatch(palts[i].pats, vals)
    {
      SelectIsFirstMatch(palts, vals, j);
    }
  }

  /** The variables of a primitive alternative's patterns. */
  function PatVars(pats: seq<PrimPat>): (r: seq<Var>)
    ensures |r| == |pats|
    ensures forall i :: 0 <= i < |pats| ==> r[i] == pats[i].v
  {
    if pats == [] then [] else [pats[0].v] + PatVars(pats[1..])
  }
}
