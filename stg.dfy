/** The STG trees the code generator consumes, the read-only tables it
    consults (names, type constructors, constructor layouts, the native
    object table) and the failure results it can produce. */
module Stg {

  type VarId = nat
  type NameId = nat
  type TupleId = nat
  type TyconId = nat
  /** Index of a staged object (an AsmObject "in mallocville"). */
  type ObjId = nat
  /** An address in the execution heap (a CPtr). */
  type Addr = nat

  datatype Option<+T> = None | Some(value: T)

  /** Value representations an STG variable can have (AsmRep). */
  datatype Rep =
    | PtrRep | AlphaRep | BetaRep
    | IntRep | CharRep | IntegerRep | WordRep | AddrRep
    | FloatRep | DoubleRep | StableRep

  datatype Var = Var(id: VarId, rep: Rep)

  /** A symbol-table entry with a closure field: a name or a tuple tycon. */
  datatype Global = GName(n: NameId) | GTuple(t: TupleId)

  /** Atoms: the cells pushAtom dispatches on. */
  datatype Atom =
    | AVar(v: Var)
    | AGlobal(g: Global)
    | AChar(c: char)
    | AInt(i: int)
    | ABig(digits: string)
    | AFloat(f: real)
    | AAddr(a: Addr)
    | AStr(s: string)
    | ACPtr(p: Addr)
    | AMPtr(o: ObjId)

  datatype Expr =
    | LetRec(binds: seq<Binding>, body: Expr)
    | Lambda(params: seq<Var>, lbody: Expr)
    | Case(scrut: Expr, alts: seq<Alt>)
    | PrimCase(pscrut: Expr, palts: seq<PrimAlt>)
    | App(fun: Atom, args: seq<Atom>)
    | Prim(op: NameId, pargs: seq<Atom>)
    | ConApp(con: Global, cargs: seq<Atom>)
    | AtomExpr(a: Atom)

  /** A let-bound variable together with its right-hand side (stgVarBody). */
  datatype Binding = Binding(v: Var, rhs: Expr)

  /** A case alternative: a constructor pattern or the default. */
  datatype Alt =
    | ConAlt(con: Global, vars: seq<Var>, body: Expr)
    | DefaultAlt(dvar: Var, dbody: Expr)

  /** A pattern variable of a primitive alternative; its body is an integer
      literal when the pattern is a literal, and anything else otherwise. */
  datatype PrimPat = PrimPat(v: Var, lit: Option<int>)

  datatype PrimAlt = PrimAlt(pats: seq<PrimPat>, pbody: Expr)

  /** A code-list entry's top-level variable and its right-hand side. */
  datatype TopVar = TopVar(v: Var, rhs: Expr)

  datatype NameEntry = NameEntry(text: string, arity: nat, parent: TyconId)

  datatype TyconKind = DataType | NewType | Synonym

  datatype TyconEntry = TyconEntry(what: TyconKind, defn: seq<NameId>)

  /** What the assembler needs of a constructor: its tag (stgDiscrTag), its
      info-table layout (stgConInfo) and, for a boxing constructor, the
      representation it boxes. */
  datatype ConAttrs = ConAttrs(tag: nat, layout: nat, boxRep: Option<Rep>)

  /** The read-only context of one compilation. */
  datatype Env = Env(
    names: map<NameId, NameEntry>,
    tabNameSz: nat,
    tycons: map<TyconId, TyconEntry>,
    cons: map<Global, ConAttrs>,
    nameUnit: NameId,
    native: map<Global, Addr>,
    varBody: map<VarId, Expr>,
    useAddrForStrings: bool,
    repSizeW: Rep -> nat)

  datatype Error =
    | Internal(where: string)
    | Unsupported(where: string)
    | MissingObjectSymbol(g: Global)

  datatype Result<+T> = Ok(value: T) | Err(error: Error) {
    predicate IsFailure() { Err? }
    function PropagateFailure<U>(): Result<U>
      requires Err?
    {
      Err(error)
    }
    function Extract(): T
      requires Ok?
    {
      value
    }
  }

  datatype Outcome = Pass | Fail(error: Error) {
    predicate IsFailure() { Fail? }
    function PropagateFailure(): Outcome
      requires Fail?
    {
      this
    }
  }

  // Sizes used as termination measures for the mutually recursive code
  // generation methods.

  function ExprSize(e: Expr): nat
  {
    match e
    case LetRec(binds, body) => 1 + BindsSize(binds) + ExprSize(body)
    case Lambda(_, body) => 1 + ExprSize(body)
    case Case(scrut, alts) => 1 + ExprSize(scrut) + AltsSize(alts)
    case PrimCase(scrut, palts) => 1 + ExprSize(scrut) + PrimAltsSize(palts)
    case _ => 1
  }

  function BindsSize(bs: seq<Binding>): nat
  {
    if bs == [] then 0 else BindSize(bs[0]) + BindsSize(bs[1..])
  }

  function BindSize(b: Binding): nat
  {
    1 + ExprSize(b.rhs)
  }

  function AltBody(a: Alt): Expr
  {
    match a
    case ConAlt(_, _, body) => body
    case DefaultAlt(_, body) => body
  }

  function AltsSize(alts: seq<Alt>): nat
  {
    if alts == [] then 0 else AltSize(alts[0]) + AltsSize(alts[1..])
  }

  function AltSize(a: Alt): nat
  {
    match a
    case ConAlt(_, _, body) => 1 + ExprSize(body)
    case DefaultAlt(_, body) => 1 + ExprSize(body)
  }

  function PrimAltsSize(palts: seq<PrimAlt>): nat
  {
    if palts == [] then 0 else 1 + ExprSize(palts[0].pbody) + PrimAltsSize(palts[1..])
  }

  lemma {:induction false} BindSmaller(bs: seq<Binding>, i: nat)
    requires i < |bs|
    ensures ExprSize(bs[i].rhs) < BindsSize(bs)
  {
    if i > 0 {
      BindSmaller(bs[1..], i - 1);
    }
  }

  lemma {:induction false} AltSmaller(alts: seq<Alt>, i: nat)
    requires i < |alts|
    ensures ExprSize(AltBody(alts[i])) < AltsSize(alts)
  {
    if i > 0 {
      AltSmaller(alts[1..], i - 1);
    }
  }

  lemma {:induction false} PrimAltSmaller(palts: seq<PrimAlt>, i: nat)
    requires i < |palts|
    ensures ExprSize(palts[i].pbody) < PrimAltsSize(palts)
  {
    if i > 0 {
      PrimAltSmaller(palts[1..], i - 1);
    }
  }
}
