# Hugs bytecode code generator, modelled in Dafny

This project models `ghc/interpreter/codegen.c`, the Hugs code generator.
The generator turns STG trees into staged bytecode objects (BCOs,
continuations, CAFs and constructor objects) by calling the assembler.
It then links one module's objects into the heap by moving each code-list
entry's closure field from tree to staged object (MPtr) to heap closure
(CPtr).

The assembler is not part of this model. Each staged object is an abstract
log of the instructions appended to it (`Asm.Op`), with its kind and
whether its `asmEnd*` call has been made. Simulated stack positions come
from a counter.

Modules:

- `Stg`: the STG tree, the read-only symbol tables (`Env`), errors and results.
- `Asm`: instructions, staged objects, closure and info cells, and the frame predicates `Grows`, `Preserves`, `NewComplete` and `Ends`.
- `Atoms`: pushAtom's choice of instruction, and endTop's reference slots.
- `Alts`: cgAlts's omit-test condition and its walk over the alternatives; testPrimPats's literal guards.
- `Bindings`: alloc's AP size, build's PAP-or-AP choice, and the agreement between the two.
- `Linker`: reference resolution, the patch-back of heap addresses, and the tree, MPtr, CPtr progression.
- `CodeGen`: the class `Generator`. It holds the mutable closure table, info cells, staged objects, position counter and heap placement. Each C function of the code generator is a method of this class.

Internal errors (`internal`, an `assert` that fails, undefined behaviour on a malformed tree) become `Internal(where)` results. The `assert(0)` stubs become `Unsupported(where)`. A failed native symbol lookup becomes `MissingObjectSymbol`. An error ends the enclosing method at once, the way the C code aborts.

Three behaviours of the code that are easy to misread, modelled as the code has them:

- A constructor alternative binds its fields last field first (`map1Proc(cgBind,bco,reverse(vs))`), not in forward order.
- beginTop records the staged object in the top-level variable's info cell (`setObj`). The closure field becomes an MPtr only in cgModule's second loop.
- The mid-module sanity check is a debug `ASSERT`. Here it is the lemma `Linker.StagedEntriesAreObjectsOrHeap`, proved to hold whenever staging succeeds.

## Model

| member | source | states |
|---|---|---|
| Atoms.PushChoice | ghc/interpreter/codegen.c:227-313 | pushAtom fails exactly for a variable without info, or for a name with no closure and no native object; otherwise it emits one push instruction, and a reference for a name, variable or pointer atom |
| Atoms.GlobalPushFollowsClosure | ghc/interpreter/codegen.c:253-279 | for a name or tuple, a tree gives a symbol reference, a CPtr a no-op reference, an MPtr an object reference, and no closure the native object's no-op reference or a missing-symbol error |
| Atoms.VarPushFollowsInfo | ghc/interpreter/codegen.c:236-251 | for a variable, a stack position gives a load with the variable's rep, a CPtr info a no-op reference, an MPtr info an object reference, and no info an internal error |
| Atoms.PushAll | ghc/interpreter/codegen.c:520-521 | pushing a list succeeds iff every atom pushes; the result has one instruction per atom, in order |
| Atoms.PushAllSnoc | ghc/interpreter/codegen.c:520-521 | pushing one more atom appends exactly its instruction |
| Atoms.PushAllFirstError | ghc/interpreter/codegen.c:520-521 | a list fails with the error of its first rejected atom |
| Atoms.AddPtrChoice | ghc/interpreter/codegen.c:197-207 | cgAddPtrToObject succeeds exactly for a CPtr (no-op slot) or an MPtr (object slot) |
| Atoms.FieldChoice | ghc/interpreter/codegen.c:762-784 | an endTop field slot is an object, no-op or string-object slot, and only a variable, a name or (when strings are objects) a string gets one; a variable's slot exists iff its info names a staged object and refers to that object, and a name's slot is what cgAddPtrToObject chooses for its closure field |
| Linker.FieldResolves | ghc/interpreter/codegen.c:762-784 | after linking, a name's slot resolves to the address its closure field finally holds, whether it was a CPtr or an MPtr when the slot was added, and a variable's slot to the address of the object it was bound to |
| Linker.PushedReferenceResolves | ghc/interpreter/codegen.c:253-279 | whichever closure state a name was pushed in, after linking the reference resolves to the address its field finally holds, or to its native object |
| Linker.PatchOne | ghc/interpreter/codegen.c:875-880 | patching never lowers a field's stage, and an MPtr of a placed object becomes that object's CPtr |
| Linker.PatchBackEffect | ghc/interpreter/codegen.c:875-880 | the patch-back loop changes exactly the code-list entries, each as PatchOne says |
| Linker.StagedEntriesAreObjectsOrHeap | ghc/interpreter/codegen.c:858-863 | after stage-end every code-list entry is an MPtr or a CPtr |
| Linker.ModuleLinked | ghc/interpreter/codegen.c:835-880 | after patch-back every entry is a CPtr, no entry's stage went down, pre-linked entries are unchanged, each staged field links to its object's address, and entries off the code list are untouched |
| CodeGen.Generator.OmitFlag | ghc/interpreter/codegen.c:322-348 | the goto-structured computation of omit_test equals `Alts.OmitTest`: two alternatives, a constructor then a default, whose constructor is a dictionary, a tuple, unit or the sole constructor of a data type |
| Alts.FirstDefault | ghc/interpreter/codegen.c:352-381 | the index of the first default: every earlier alternative is a constructor alternative |
| Alts.AltShapeWalk | ghc/interpreter/codegen.c:352-381 | cgAlts compiles the alternatives before the first default in order, each tested iff the test is not omitted, then the default, or a panic when there is none |
| Alts.PanicIffNoDefault | ghc/interpreter/codegen.c:378-381 | the panic is emitted iff no alternative is a default |
| Alts.AltsAfterDefaultIgnored | ghc/interpreter/codegen.c:356-360 | appending alternatives after a default changes nothing |
| Alts.OmittedShape | ghc/interpreter/codegen.c:322-348 | when the test is omitted the walk is one untested alternative and the default |
| CodeGen.Generator.CgAlts | ghc/interpreter/codegen.c:315-383 | a new complete continuation object whose walk is `AltShape(alts, OmitTest(alts, env))` and whose code is exactly one segment per step, in order, then `Panic` iff the walk ends in a panic; a tested segment is its header with `Test(tag)` at its second slot, the body, the end and, last, the fix of that test; an untested one has no test; the default binds its variable first |
| CodeGen.OmittedCode | ghc/interpreter/codegen.c:322-376 | when the test is omitted the continuation is exactly two segments: the constructor alternative, whose header holds no `Test`, then the default |
| CodeGen.Generator.CgConAlt | ghc/interpreter/codegen.c:360-376 | the emitted segment is the code of `StepFor(alt, omit)`: the header with `Test(tag)` at its second slot and the fix of that branch as its last instruction when tested, and neither when the test is omitted; the end of the alternative sits just before the fix, or last |
| CodeGen.Generator.ConAltHead | ghc/interpreter/codegen.c:360-373 | the header is begin-alt, the tag test unless omitted, the slot of the returned value, then the unbox or the unpack of the fields last first; an unknown constructor is an internal error |
| CodeGen.Generator.BindFields | ghc/interpreter/codegen.c:367-373 | a boxing constructor unboxes into its first variable; any other constructor unpacks and binds its fields last first |
| Alts.GuardTests | ghc/interpreter/codegen.c:385-401 | one integer test per literal pattern; it fails iff some literal pattern's variable has no stack position or is not INT_REP |
| Alts.FixOps | ghc/interpreter/codegen.c:393-396 | the fixes of k nested tests close them innermost first |
| Alts.FixedOnce | ghc/interpreter/codegen.c:393-396 | every test's branch is fixed exactly once |
| Alts.GuardMeansLiteralMatch | ghc/interpreter/codegen.c:385-401 | the emitted tests pass on a stack exactly when every literal pattern equals the value bound to its variable |
| Alts.SelectPrimAlt | ghc/interpreter/codegen.c:475-485 | the meaning of the alternatives loop on given values: the first alternative whose literals match, and no match means the panic |
| Alts.SelectIsFirstMatch | ghc/interpreter/codegen.c:475-485 | `SelectPrimAlt` picks alternative j iff j matches and no earlier alternative does |
| CodeGen.EmittedGuardsSelect | ghc/interpreter/codegen.c:385-401 | on a stack holding the values bound to the pattern variables, the guard emitted in alternative j passes iff its literals match; control reaches alternative j's body iff `SelectPrimAlt` picks j, and the panic iff it picks none |
| CodeGen.Generator.TestPrimPats | ghc/interpreter/codegen.c:385-401 | the object grows by the literal tests, outermost first, then the code compiled for the body (whatever cgExpr emits), then the fixes of the tests innermost first; it fails whenever a literal's variable has no position or is not INT_REP |
| CodeGen.Generator.TestLiteral | ghc/interpreter/codegen.c:390-396 | the same layout for a list that opens with a literal pattern: its test, the rest guarded, then its fix last |
| CodeGen.Generator.CgPrimAlts | ghc/interpreter/codegen.c:475-506 | the code is one segment per alternative, each at the offset the previous ended and each as `PrimAltCode` says, then `Panic` |
| CodeGen.Generator.CgPrimAlt | ghc/interpreter/codegen.c:476-483 | one alternative is begin-alt, the binds of its pattern variables (reversed after a primitive call, in order after a variable), the literal tests, the body, the fixes and end-alt; malformed guards fail |
| CodeGen.Generator.CgPrimScrut | ghc/interpreter/codegen.c:466-512 | a primitive scrutinee emits begin-prim, its arguments last first and end-prim; a variable emits begin-case, its push and an end-alt; it succeeds iff those pushes do, and any other scrutinee is unsupported |
| CodeGen.Generator.CgPrimCase | ghc/interpreter/codegen.c:464-516 | the code is the scrutinee's `ScrutCode`, one `PrimAltCode` segment per alternative, then `Panic`; a malformed scrutinee fails, and one that is neither a primitive call nor a variable is unsupported |
| CodeGen.CgExprCases | ghc/interpreter/codegen.c:439-566 | every expression is a tail call, refused (`Rejected`: an INT_REP variable is unsupported, another non-pointer variable, a literal or a constructor is an internal error, an odd primitive-case scrutinee is unsupported), or one of the compound forms |
| CodeGen.Generator.CgExpr | ghc/interpreter/codegen.c:434-567 | compiling grows only the current object, leaves older objects untouched, ends every new one on success, and refuses the malformed forms |
| CodeGen.Generator.Enter | ghc/interpreter/codegen.c:517-553 | a tail call emits begin-enter, the pushes of the atoms and end-enter against the root; it succeeds iff every atom pushes |
| CodeGen.Generator.CgLambdaEnter | ghc/interpreter/codegen.c:448-454 | a lambda is entered through an object reference to the BCO just compiled for it |
| CodeGen.Generator.CgCase | ghc/interpreter/codegen.c:455-463 | the code is begin-case, a reference to the new continuation, the scrutinee's code, then end-case; the continuation is complete and holds exactly the walk of the alternatives as `CgAlts` states it (`AltShape`, `AltsFit`, `AltsCode`) |
| CodeGen.Generator.CgPrimTail | ghc/interpreter/codegen.c:554-562 | a primitive in tail position is emitted and then refused as unsupported |
| CodeGen.Generator.CgLetRec | ghc/interpreter/codegen.c:441-448 | the code is every binding's alloc code in order, then every binding's build code in order, then the body; the builds start from the info and position the allocs left, where every binder has a position or an object (unless a later lambda was compiled in between) |
| CodeGen.Generator.AllocAll | ghc/interpreter/codegen.c:443 | the alloc loop emits `AllocCode` for each binding under the info the previous allocs left, and each non-lambda binder takes the next stack position |
| CodeGen.Generator.BuildAll | ghc/interpreter/codegen.c:444 | the build loop emits `BuildCode` for each binding; only a thunk's build may change the variable info |
| CodeGen.AllocsPlace | ghc/interpreter/codegen.c:443 | without lambdas and with distinct binders, after the allocs the j-th binder sits at the start position plus j |
| CodeGen.BuildsSeeAllocs | ghc/interpreter/codegen.c:444 | without thunks, every build reads the variable info the alloc loop left |
| CodeGen.LetRecBuildsFillAllocs | ghc/interpreter/codegen.c:441-448 | without lambdas or thunks and with distinct binders, the j-th build fills the object at the stack position the j-th alloc reserved |
| CodeGen.Generator.CgLambda | ghc/interpreter/codegen.c:404-417 | a new complete BCO whose argument check binds the parameters last first |
| CodeGen.Generator.ArgCheck | ghc/interpreter/codegen.c:408-410 | the argument check binds the variables at consecutive positions after the root |
| CodeGen.Generator.CgRhs | ghc/interpreter/codegen.c:419-431 | a new complete BCO with an empty argument check |
| CodeGen.BindOps | ghc/interpreter/codegen.c:187-195 | one bind of each variable's representation, in order |
| CodeGen.BindPositionLast | ghc/interpreter/codegen.c:187-195 | binding a list puts each variable at its own consecutive position, the last occurrence winning |
| CodeGen.BindLeavesOthers | ghc/interpreter/codegen.c:187-195 | binding a list leaves every other variable's info unchanged |
| CodeGen.Generator.BindVars | ghc/interpreter/codegen.c:187-195 | the binds are appended and the info cells set as `Bound` says |
| Bindings.ApSize | ghc/interpreter/codegen.c:592-604 | the AP payload is defined iff every argument is a name or a variable |
| Bindings.ApSizeAppend | ghc/interpreter/codegen.c:595-602 | the payload is additive over a split of the arguments |
| Bindings.ApSizeReverse | ghc/interpreter/codegen.c:595-602 | the order of the arguments does not change the payload |
| CodeGen.Generator.AllocAp | ghc/interpreter/codegen.c:592-605 | the loop computes `ApSize`; on success it reserves an AP of that payload at the next position, otherwise it fails with nothing emitted |
| CodeGen.Generator.AllocCon | ghc/interpreter/codegen.c:580-591 | a boxing constructor pushes its field and boxes it; any other reserves a constructor of its layout; either way the variable takes the next position, and an unknown constructor is an internal error |
| CodeGen.Generator.Alloc | ghc/interpreter/codegen.c:572-613 | the emitted code is `AllocCode` for the binding; every binder but a lambda's takes the next stack position, a lambda's its staged BCO, and any other right-hand side reserves an empty AP |
| Bindings.ItsaPAP | ghc/interpreter/codegen.c:639-652 | a PAP is built exactly when a name's arity or a variable's lambda takes more arguments than given; any other function is an internal error |
| Bindings.LetBoundPAP | ghc/interpreter/codegen.c:643-649 | when the body table agrees with a group of let bindings (`BodiesAgree`), applying a let-bound variable is a PAP exactly when its own binding is a lambda over more parameters than the arguments given |
| CodeGen.Generator.BuildAp | ghc/interpreter/codegen.c:634-691 | the arguments are pushed last first, then the function, inside a PAP or an AP as `ItsaPAP` decides |
| CodeGen.Generator.BuildCon | ghc/interpreter/codegen.c:621-633 | nothing for a boxing constructor; otherwise the fields are packed last first at the variable's position |
| CodeGen.Generator.Build | ghc/interpreter/codegen.c:615-720 | the emitted code is `BuildCode` for the binding: nothing for a lambda, a pack, PAP or AP filled at the binder's position, or, for a thunk, an AP of a reference to the first object its compilation staged (a BCO), filled at the binder's position as the info is afterwards; only a thunk may change the variable info |
| CodeGen.Generator.BuildThunk | ghc/interpreter/codegen.c:712-718 | any other right-hand side becomes an AP, filled at the binder's position, of a reference to a new BCO |
| Bindings.PushWidthIsApSize | ghc/interpreter/codegen.c:592-604 | the words pushed for the arguments equal the payload summed for them |
| Bindings.BuildFillsWhatAllocReserved | ghc/interpreter/codegen.c:592-604 | build pushes exactly the words alloc reserved for an application |
| CodeGen.TopKind | ghc/interpreter/codegen.c:732-753 | the kind of object beginTop stages; it fails only for a constructor without attributes |
| CodeGen.Generator.BeginTop | ghc/interpreter/codegen.c:732-753 | one new incomplete object of that kind, recorded in the variable's info cell |
| CodeGen.FieldsAll | ghc/interpreter/codegen.c:762-784 | the fields succeed iff each does, one slot per field in order |
| CodeGen.Generator.EndCon | ghc/interpreter/codegen.c:760-788 | the fields loop appends exactly `FieldsAll` and succeeds iff it does |
| CodeGen.Generator.EndTop | ghc/interpreter/codegen.c:755-808 | ends the object beginTop staged with its fields, argument check and body, or CAF reference; an invalid object is an internal error |
| CodeGen.Generator.StageBegin | ghc/interpreter/codegen.c:835-844 | every entry that is not a CPtr is a tree and its variable now names a newly staged object |
| CodeGen.Generator.StageEnd | ghc/interpreter/codegen.c:846-854 | afterwards every pre-linked entry is unchanged, entries off the list are untouched, and every other entry was a tree and is now the MPtr of its own object: the one its variable's info cell named when its endTop ran, now complete; every object staged meanwhile is complete |
| CodeGen.Generator.AllocateHeapSpace | ghc/interpreter/codegen.c:865-872 | every staged object gets its own address above the old heap top |
| CodeGen.Generator.PatchClosures | ghc/interpreter/codegen.c:875-880 | the loop computes `PatchBack` |
| CodeGen.ModuleAddressesFresh | ghc/interpreter/codegen.c:872-880 | every patched entry points into the space just allocated |
| CodeGen.Generator.CgModule | ghc/interpreter/codegen.c:815-889 | on success every code-list entry is a CPtr, linked from its staged state; an entry that was a tree holds the heap address of its own ended object; pre-linked entries keep their address, new addresses are fresh, other entries are untouched, and the staging area is empty |
| CodeGen.Generator.LookupHugsName | ghc/interpreter/codegen.c:173-185 | the text of the first in-use name whose closure is the heap closure at the address, or none iff there is no such name |

## Left out

- liftModule (lambda lifting) is an external collaborator. CgModule starts from the code list as lifted.
- cptrFromName builds a symbol name with `sprintf` and looks it up with `lookupOTabName`. The model replaces both with the table `env.native` from names to native addresses. A miss is `MissingObjectSymbol`.
- Float and bignum constants are carried as a `real` and a digit string. Their conversions are not modelled.
- The assembler's internals are not modelled. Instructions are logged, stack positions come from a counter, and object sizes are not computed.
- CodeGen.Generator.AllocateHeapSpace: objects are placed one address apart from the old heap top. The real per-object sizes are not modelled.
- asmCopyAndLink's physical copy is not modelled. Only the resolution of each reference kind is (`Linker.Resolve`).
- The garbage-collection window between allocation and copy is a runtime-system concern.
- The `#if 0`, CRUDE_PROFILING and DEBUG_CODEGEN sections and debug printing are not modelled. So is `codegen()`, the control switch that forwards to liftControl.
- currentTop, a profiling and debugging global, is not modelled.
- asmStringObj is folded into the instruction that refers to the string (`PushStringObj`, `AddStringObj`).
- Reading a name outside the name table is undefined in C. In itsaPAP (`name(fun).arity`) the model reports it as an internal error. In cgAlts's omit-test condition (`name(con).parent`) such a constructor is treated as not exhaustive, so the test is kept; a constructor outside the constructor table then fails in `AltHeader` with `Internal("stgDiscrTag")`.
- Bindings.ItsaPAP: the body of a variable (`stgVarBody`) is read from the table `env.varBody`, which the model does not derive from the tree. `LetBoundPAP` states the decision under `BodiesAgree`, the condition that the table holds each let binding's own right-hand side; no method requires it.
- CodeGen.Generator.CgExpr: the contract states only the frame and the refused forms. The instructions of each compound form are stated on its own method (`CgCase`, `CgLetRec`, `CgLambdaEnter`, `CgPrimCase`, `Enter`).
- CodeGen.Generator.EndTop: a constructor field whose name is still a tree makes cgAddPtrToObject fail, so the outcome depends on code-list order. This is modelled as the code does it, and no lemma characterises which orders succeed.
- CodeGen.Generator.CgLetRec: compiling a lambda or thunk right-hand side may rebind variables, so `Allocated` keeps an escape for binders allocated before a lambda.
- CodeGen.LetRecBuildsFillAllocs: stated only for bindings with no lambda or thunk right-hand side and with distinct binders, because compiling a lambda or thunk may rebind variables.
