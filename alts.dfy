/** Case-alternative compilation decisions: when cgAlts omits the
    discriminant test, which alternatives it compiles and how each is
    tested, and the literal guards testPrimPats wraps around a primitive
    alternative's body. */
module Alts {
  import opened Stg
  import opened Asm

  /** A dictionary constructor's name starts with ":D" (strncmp of two
      characters). */
  predicate IsDictionaryText(text: string)
  {
    |text| >= 2 && text[0] == ':' && text[1] == 'D'
  }

  /** The constructor is the only constructor of a DATATYPE tycon. */
  predicate SoleDataConstructor(con: Global, env: Env)
  {
    && con.GName?
    && con.n in env.names
    && env.names[con.n].parent in env.tycons
    && env.tycons[env.names[con.n].parent].what == DataType
    && |env.tycons[env.names[con.n].parent].defn| == 1
  }

  /** Constructors whose type makes a single-constructor match exhaustive
      by construction: dictionaries, tuples, unit, and the sole
      constructor of a data type. */
  predicate ExhaustiveByConstruction(con: Global, env: Env)
  {
    || (con.GName? && con.n in env.names && IsDictionaryText(env.names[con.n].text))
    || con.GTuple?
    || con == GName(env.nameUnit)
    || SoleDataConstructor(con, env)
  }

  /** The "omit discriminant test" condition of cgAlts. */
  predicate OmitTest(alts: seq<Alt>, env: Env)
  {
    && |alts| == 2
    && alts[1].DefaultAlt?
    && alts[0].ConAlt?
    && ExhaustiveByConstruction(alts[0].con, env)
  }

  /** Index of the first default alternative, or |alts| when there is none. */
  function FirstDefault(alts: seq<Alt>): (k: nat)
    ensures k <= |alts|
    ensures forall i :: 0 <= i < k ==> alts[i].ConAlt?
    ensures k < |alts| ==> alts[k].DefaultAlt?
  {
    if alts == [] then 0
    else if alts[0].DefaultAlt? then 0
    else 1 + FirstDefault(alts[1..])
  }

  /** What cgAlts does with each alternative it reaches, in order. */
  datatype AltStep =
    | Tested(con: Global)     // a constructor alternative behind asmTest
    | Untested(con: Global)   // a constructor alternative whose test is omitted
    | TakeDefault             // the default; compilation ends here
    | PanicStep               // the list ran out without a default

  function StepFor(a: Alt, omit: bool): AltStep
    requires a.ConAlt?
  {
    if omit then Untested(a.con) else Tested(a.con)
  }

  /** The steps cgAlts takes over `alts` when the omit flag is `omit`. */
  function AltShape(alts: seq<Alt>, omit: bool): seq<AltStep>
  {
    if alts == [] then [PanicStep]
    else if alts[0].DefaultAlt? then [TakeDefault]
    else [StepFor(alts[0], omit)] + AltShape(alts[1..], omit)
  }

  /** cgAlts walks the alternatives up to the first default and no
      further; every constructor alternative before it is tested exactly
      when the test is not omitted; the walk ends with the default or, if
      there is none, with a panic. */
  lemma {:induction false} AltShapeWalk(alts: seq<Alt>, omit: bool)
    ensures |AltShape(alts, omit)| == FirstDefault(alts) + 1
    ensures forall i :: 0 <= i < FirstDefault(alts) ==>
              AltShape(alts, omit)[i] == StepFor(alts[i], omit)
    ensures AltShape(alts, omit)[FirstDefault(alts)] ==
              if FirstDefault(alts) < |alts| then TakeDefault else PanicStep
  {
    if alts != [] && alts[0].ConAlt? {
      AltShapeWalk(alts[1..], omit);
    }
  }

  /** One step of the walk from position `i`. */
  lemma ShapeFrom(alts: seq<Alt>, i: nat, omit: bool)
    requires i <= |alts|
    ensures AltShape(alts[i..], omit) ==
              if i == |alts| then [PanicStep]
              else if alts[i].DefaultAlt? then [TakeDefault]
              else [StepFor(alts[i], omit)] + AltShape(alts[i + 1..], omit)
  {
    if i < |alts| {
      assert alts[i..][1..] == alts[i + 1..];
    }
  }

  /** A panic is emitted exactly when no alternative is a default. */
  lemma {:induction false} PanicIffNoDefault(alts: seq<Alt>, omit: bool)
    ensures PanicStep in AltShape(alts, omit) <==> forall i :: 0 <= i < |alts| ==> alts[i].ConAlt?
  {
    AltShapeWalk(alts, omit);
    var k := FirstDefault(alts);
    if k < |alts| {
      assert forall j :: 0 <= j < |AltShape(alts, omit)| ==> AltShape(alts, omit)[j] != PanicStep;
    }
  }

  /** Alternatives after the first default never influence the outcome. */
  lemma {:induction false} AltsAfterDefaultIgnored(alts: seq<Alt>, extra: seq<Alt>, omit: bool)
    requires FirstDefault(alts) < |alts|
    ensures AltShape(alts + extra, omit) == AltShape(alts, omit)
  {
    if alts[0].ConAlt? {
      assert (alts + extra)[1..] == alts[1..] + extra;
      AltsAfterDefaultIgnored(alts[1..], extra, omit);
    }
  }

  /** When the test is omitted the shape is one untested alternative
      followed by the default; nothing else is ever untested. */
  lemma OmittedShape(alts: seq<Alt>, env: Env)
    requires OmitTest(alts, env)
    ensures AltShape(alts, true) == [Untested(alts[0].con), TakeDefault]
  {
    assert alts[1..][0] == alts[1];
  }

  // ---------------------------------------------------------------------
  // Literal guards of primitive alternatives (testPrimPats)

  function LiteralCount(pats: seq<PrimPat>): nat
  {
    if pats == [] then 0 else (if pats[0].lit.Some? then 1 else 0) + LiteralCount(pats[1..])
  }

  /** The integer tests testPrimPats emits, outermost first: one for each
      pattern whose body is an integer literal, against the stack position
      the pattern variable was bound to. */
  function GuardTests(pats: seq<PrimPat>, info: map<VarId, Info>): (r: Result<seq<Op>>)
    ensures r.Ok? ==> |r.value| == LiteralCount(pats)
    ensures r.Ok? ==> forall j :: 0 <= j < |r.value| ==> r.value[j].TestInt?
    ensures r.Err? <==> exists i :: 0 <= i < |pats| && pats[i].lit.Some? &&
                                    (!InfoOf(info, pats[i].v).Pos? || pats[i].v.rep != IntRep)
  {
    if pats == [] then Ok([])
    else
      var p := pats[0];
      if p.lit.None? then
        var rest :- GuardTests(pats[1..], info);
        assert forall i :: 1 <= i < |pats| ==> pats[i] == pats[1..][i - 1];
        Ok(rest)
      else if !InfoOf(info, p.v).Pos? then Err(Internal("testPrimPats: getPos"))
      else if p.v.rep != IntRep then Err(Internal("testPrimPats: INT_REP"))
      else
        var rest :- GuardTests(pats[1..], info);
        assert forall i :: 1 <= i < |pats| ==> pats[i] == pats[1..][i - 1];
        Ok([TestInt(InfoOf(info, p.v).sp, p.lit.value)] + rest)
  }

  /** The branch fixes that close `k` nested tests whose program counters
      are start, start+1, ..., emitted innermost first. */
  function FixOps(start: nat, k: nat): (r: seq<Op>)
    ensures |r| == k
    ensures forall m :: 0 <= m < k ==> r[m] == FixBranch(start + k - 1 - m)
    decreases k
  {
    if k == 0 then [] else FixOps(start + 1, k - 1) + [FixBranch(start)]
  }

  /** Every test's branch is fixed exactly once. */
  lemma FixedOnce(start: nat, k: nat, j: nat)
    requires j < k
    ensures exists m :: 0 <= m < k && FixOps(start, k)[m] == FixBranch(start + j)
    ensures forall m, n :: 0 <= m < k && 0 <= n < k && m != n ==> FixOps(start, k)[m] != FixOps(start, k)[n]
  {
    var fx := FixOps(start, k);
    assert fx[k - 1 - j] == FixBranch(start + j);
  }

  /** A guard passes on a stack when every test's slot holds its value. */
  predicate GuardPasses(tests: seq<Op>, stack: map<int, int>)
  {
    forall j :: 0 <= j < |tests| && tests[j].TestInt? ==>
      tests[j].pos in stack && stack[tests[j].pos] == tests[j].value
  }

  /** The literal patterns of an alternative match the values `vals`. */
  predicate LiteralsMatch(pats: seq<PrimPat>, vals: seq<int>)
    requires |vals| == |pats|
  {
    forall i :: 0 <= i < |pats| && pats[i].lit.Some? ==> vals[i] == pats[i].lit.value
  }

  /** The variables of `pats` are bound at stack slots holding `vals`. */
  predicate BoundTo(pats: seq<PrimPat>, info: map<VarId, Info>, stack: map<int, int>, vals: seq<int>)
    requires |vals| == |pats|
  {
    forall i :: 0 <= i < |pats| ==>
      InfoOf(info, pats[i].v).Pos? && InfoOf(info, pats[i].v).sp in stack &&
      stack[InfoOf(info, pats[i].v).sp] == vals[i]
  }

  /** The emitted guard lets control reach the body exactly when every
      literal pattern equals the value bound to its variable. */
  lemma {:induction false} GuardMeansLiteralMatch(pats: seq<PrimPat>, info: map<VarId, Info>,
                                                  stack: map<int, int>, vals: seq<int>)
    requires |vals| == |pats|
    requires BoundTo(pats, info, stack, vals)
    requires GuardTests(pats, info).Ok?
    ensures GuardPasses(GuardTests(pats, info).value, stack) <==> LiteralsMatch(pats, vals)
  {
    if pats != [] {
      assert BoundTo(pats[1..], info, stack, vals[1..]) by {
        forall i | 0 <= i < |pats| - 1
          ensures InfoOf(info, pats[1..][i].v).Pos? && InfoOf(info, pats[1..][i].v).sp in stack &&
                  stack[InfoOf(info, pats[1..][i].v).sp] == vals[1..][i]
        {
          assert pats[1..][i] == pats[i + 1];
        }
      }
      GuardMeansLiteralMatch(pats[1..], info, stack, vals[1..]);
      var rest := GuardTests(pats[1..], info).value;
      var tests := GuardTests(pats, info).value;
      assert LiteralsMatch(pats, vals) <==>
             ((pats[0].lit.Some? ==> vals[0] == pats[0].lit.value) && LiteralsMatch(pats[1..], vals[1..])) by {
        if LiteralsMatch(pats[1..], vals[1..]) && (pats[0].lit.Some? ==> vals[0] == pats[0].lit.value) {
          forall i | 0 <= i < |pats| && pats[i].lit.Some? ensures vals[i] == pats[i].lit.value {
            if i > 0 { assert pats[1..][i - 1] == pats[i]; }
          }
        }
        if LiteralsMatch(pats, vals) {
          forall i | 0 <= i < |pats| - 1 && pats[1..][i].lit.Some? ensures vals[1..][i] == pats[1..][i].lit.value {
            assert pats[1..][i] == pats[i + 1];
          }
        }
      }
      if pats[0].lit.None? {
        assert tests == rest;
      } else {
        assert tests == [TestInt(InfoOf(info, pats[0].v).sp, pats[0].lit.value)] + rest;
        assert GuardPasses(tests, stack) <==> (vals[0] == pats[0].lit.value && GuardPasses(rest, stack)) by {
          if GuardPasses(tests, stack) {
            assert tests[0] == TestInt(InfoOf(info, pats[0].v).sp, pats[0].lit.value);
            assert stack[InfoOf(info, pats[0].v).sp] == vals[0];
            forall j | 0 <= j < |rest| && rest[j].TestInt?
              ensures rest[j].pos in stack && stack[rest[j].pos] == rest[j].value
            {
              assert tests[j + 1] == rest[j];
            }
          }
          if vals[0] == pats[0].lit.value && GuardPasses(rest, stack) {
            forall j | 0 <= j < |tests| && tests[j].TestInt?
              ensures tests[j].pos in stack && stack[tests[j].pos] == tests[j].value
            {
              if j > 0 { assert tests[j] == rest[j - 1]; }
            }
          }
        }
      }
    }
  }

  /** The meaning of a compiled primitive case on the values `vals`: the
      first alternative whose literals match runs; if none does, the
      trailing panic is reached (None). A pattern without a literal matches
      anything. */
  function SelectPrimAlt(palts: seq<PrimAlt>, vals: seq<int>): (r: Option<nat>)
    requires forall i :: 0 <= i < |palts| ==> |palts[i].pats| == |vals|
    ensures r.Some? ==> r.value < |palts| && LiteralsMatch(palts[r.value].pats, vals)
    ensures r.Some? ==> forall i :: 0 <= i < r.value ==> !LiteralsMatch(palts[i].pats, vals)
    ensures r.None? ==> forall i :: 0 <= i < |palts| ==> !LiteralsMatch(palts[i].pats, vals)
  {
    if palts == [] then None
    else if LiteralsMatch(palts[0].pats, vals) then Some(0)
    else
      match SelectPrimAlt(palts[1..], vals)
      case None => None
      case Some(k) => Some(k + 1)
  }

  /** SelectPrimAlt picks alternative `j` exactly when `j` matches and no
      earlier alternative does. */
  lemma SelectIsFirstMatch(palts: seq<PrimAlt>, vals: seq<int>, j: nat)
    requires forall i :: 0 <= i < |palts| ==> |palts[i].pats| == |vals|
    requires j < |palts|
    ensures SelectPrimAlt(palts, vals) == Some(j) <==>
              LiteralsMatch(palts[j].pats, vals) && forall i :: 0 <= i < j ==> !LiteralsMatch(palts[i].pats, vals)
  {
    var r := SelectPrimAlt(palts, vals);
    if LiteralsMatch(palts[j].pats, vals) && forall i :: 0 <= i < j ==> !LiteralsMatch(palts[i].pats, vals) {
      assert r.Some? && r.value <= j;
    }
  }
}
