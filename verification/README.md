# Verification of the native WebAssembly prototype

This project models the native WebAssembly prototype of V8 (`src/wasm`): the decoder that turns the prefix-order
bytes of a function into a TurboFan graph, the encoder and the module decoder, the compiler from asm.js statements
to those bytes, the linker, and the arithmetic lowered for machines without bit-count instructions.
`dafny verify dfyconfig.toml` checks everything.

## Main results

- **Function decoder.** `FunctionMeaning.GraphMeansBody` and `DecodeFunction.DecodedGraphMeansBody`: the graph built
  from a body ends in an outcome (a returned value and the final effect, or a trap) if and only if a direct
  interpreter of the expression trees does, for all bodies, all inputs and any meaning of the operators. The graph's
  meaning is independent of its construction: a walk along control edges that takes, at every merge or loop header,
  the phi inputs of the edge it came by.
- The decoder is modelled three times, each proved against the next: a class with environments that share and steal
  arrays of locals on the heap (`LrDecoder`, `Decode`), a functional shift-reduce machine over an arena of
  environments (`Lr`), and a recursive construction over trees (`Ssa`). `Decode.DecodeBody` equals the machine for
  all bytes; `LrSsa.RunTreeRel` refines the machine to the construction; `LrInvariant.RunSound` holds in every state
  of every run.
- **Accepted bodies.** `DecodeFunction.AcceptedIff` and `BodyTyping.AcceptedIffTyped` are exact, on a partial parse
  that every byte string has: whole trees, then a spine of unfinished ones. `BodyTyping.CutOffAccepted` shows that a
  body with an unfinished production can be accepted once control is dead; the meaning theorem covers such bodies.
- **Types.** `BodyTyping.OperandsExact`, `Typing.TypeIsJoin` and `GraphTyping.DecodedGraphTyped`: operands have exactly
  the types their consumers want, a block has the type on which all arrivals agree, and the graph is well typed.
  The rules have their own table of operands; `Typing.CheckIff` ties the decoder's checks to it.
- **Bytes.** `Assembly.FetchIff`: instructions are read exactly where they are written, in an assembly language that
  names all of them but the table switch. `ModuleParts` does the same for the parts of a module, by position.
- **Loop headers.** `Loops.DecodedLoops`: one for each loop that control enters alive, and no other.
- **Stores in dead code.** An assignment in dead code is stored through a null pointer when a graph is built.
  `BodyTyping.DeadStore` is such a body, `BodyTyping.StraysIff` says exactly which bodies do it, and the theorems about
  graphs are about the bodies that are built (`DecodeFunction.Builds`): accepted, and without such a store.
- **asm.js.** `AsmRename.BuiltMeans`: statements, compiled to bytes, their variables renumbered inside those bytes,
  decoded and built into a graph, end as the statements do. `AsmRename.BuiltAccepted`: that function is accepted if
  and only if it is well typed. Both hold for the functions `AsmParse.FitFrom` describes whose numbers and counts fit
  sixteen bits, which is exactly when the decoder can tell the variables apart (`Encoder.AddressedIff`). The count of
  a block is right exactly under the condition of `AsmMeaning.CountIff`, and `AsmMeaning.EmptyMiscounts` is a block
  that fails it.
- **Modules.** `ModuleRoundTrip.RoundTrip`: decoding a written module gives it back. `Modules.AcceptedWellFormed`:
  whatever bytes are accepted, all indices name something, all bodies are in bounds, and bodies that were verified
  are accepted in the environment of the finished module.
- **Linking, bit counts, layout.** No call is left on a placeholder and indirect calls reach exactly the entry with
  the right signature; the folded sums count bits of every word; parameters and globals do not overlap.

## Reading the model

- Nodes are numbered; node 0 stands for null. A graph is the sequence of its nodes. The effect is kept as
  one more slot after the locals, and an operator with an effect makes one value node and one effect node.
- An operator that can trap makes one check node, which stands for the branch to the trap block; `sem.traps` says
  when it is taken. The meaning of every operator is a parameter of the theorems (`Graph.Sem`).
- `Stmt` and `End` are the types of trees without a value and of trees control does not come out of.
- `fuel` bounds the turns of loops in the interpreter; the equivalences quantify over it.
- Where the two inline loops of `Goto` repeat `CreateOrMergeIntoPhi`, the model calls that method.
- The first error of a reader or decoder is kept and ends the run.
- A constant is a new node each time; the graph's cache of constants is not visible.
- 32-bit accumulation of LEB128 groups with `|` is written as addition modulo 2^32 of groups that do not overlap;
  `Leb128.OrIsAdd` shows on 32-bit words that `|` and `+` agree on those.
- `IsJump` of the syntax tree is not part of the repository. `Asm.IsJump` takes it to hold of break, continue and
  return only; where it also holds of an if with two jumping arms or of a block that ends in a jump, the compiler
  emits less dead code than the model.
- Acceptance (`DecodeFunction.Decode`) is that of decoding with or without a graph builder; `DecodeFunction.BuildMode`
  is decoding with one.
- In `AsmParse.Fit`, arms and loop bodies emit something and jump distances are below 256; these are what the one-byte
  immediates and the decoder's operand counts demand.

## Model

| member | source | states |
|---|---|---|
| `FunctionMeaning.GraphMeansBody` | src/wasm/ast-decoder.cc:640-799 | For every sequence of trees that can be built, unfinished ones included, every start store and every outcome: the constructed graph has a walk from its start to an end with that outcome if and only if the expression-tree interpreter reaches it with some amount of fuel |
| `FunctionMeaning.GraphFollows` | src/wasm/ast-decoder.cc:640-799 | For every amount of fuel the graph makes the moves the interpreter makes: it ends the same way, or, when fuel runs out in a loop, has walked at least as many moves as turns were taken |
| `FunctionMeaning.RunsAgree` | src/wasm/ast-decoder.cc:1119-1190 | The graph is deterministic: a walk that reaches an end extends every other walk from the same control and values |
| `FunctionMeaning.OneEnd` | src/wasm/ast-decoder.cc:1119-1190 | With the same values at one control only one outcome is possible, because every control is consumed at most once |
| `FunctionMeaning.BuiltOk` | src/wasm/ast-decoder.cc:600-632 | The finished graph is well formed, every control output is consumed at most once, and it ends in the implicit return of the last tree when control falls out |
| `DecodeFunction.DecodedGraphMeansBody` | src/wasm/ast-decoder.cc:106-156 | From bytes: for every body whose graph is built, whether or not its last tree is finished, the graph ends in an outcome if and only if the interpreter does on the trees the body stands for |
| `DecodeFunction.UnfinishedIff` | src/wasm/ast-decoder.cc:242-276 | After the last byte the production stack is empty if and only if the bytes are a sequence of whole trees |
| `DecodeFunction.DecodeIsBuild` | src/wasm/ast-decoder.cc:260-276 | For whole trees, the shift-reduce decoder computes exactly the recursive construction over the parsed trees |
| `DecodeFunction.AcceptedIff` | src/wasm/ast-decoder.cc:130-142 | Exactly which bodies are accepted, on the partial parse into whole trees and a spine of unfinished ones: the construction over the trees and down the spine succeeds, and if the code ends inside a tree control is dead there |
| `DecodeFunction.AcceptedIsBuild` | src/wasm/ast-decoder.cc:106-156 | Every accepted body, cut off or not, gives exactly the graph of the recursive construction over its trees, unfinished trees standing as one tree with marks where the code ends |
| `DecodeFunction.LaterGlobals` | src/wasm/module-decoder.cc:120-130 | A body that is accepted before all globals are known is decoded to the same graph when they are |
| `CutOff.SpineRel` | src/wasm/ast-decoder.cc:290-578 | From where no whole tree follows, for any code: the shift-reduce decoder reaches the state, or the failure, of the recursive descent through the unfinished trees |
| `CutOff.CloseRuns` | src/wasm/ast-decoder.cc:131-142 | Unfinished trees, closed with end marks and built as one tree, give exactly the graph there is where the code ends |
| `CutOff.OpenRel` | src/wasm/ast-decoder.cc:640-799 | One unfinished tree of any kind: decoder and construction agree on the state its next child begins in |
| `BodyTyping.AcceptedIffTyped` | src/wasm/ast-decoder.cc:106-156 | Exactly the well-typed bodies are accepted, where types are judged on the trees alone, without a graph |
| `BodyTyping.StraysIff` | src/wasm/ast-decoder.cc:893-905 | For all bytes: the decoder stores a local through the missing array of a dead environment if and only if, judged on the trees, an assignment is completed where control is dead |
| `BodyTyping.DeadStore` | src/wasm/ast-decoder.cc:893-905 | Counterexample: unreachable code that assigns a local is accepted, and building its graph stores through null |
| `BodyTyping.OperandsExact` | src/wasm/ast-decoder.cc:1090-1102 | In every accepted body, cut off or not, each operand control comes out of has exactly the parameter, local or return type its consumer wants |
| `Typing.JudgeRuns` | src/wasm/ast-decoder.cc:640-799 | Every tree in every state: the construction succeeds exactly when the tree is well typed, with the judged type, liveness, arrivals at every open block entry and stray stores |
| `Typing.CheckIff` | src/wasm/ast-decoder.cc:1090-1102 | The check of an operand passes if and only if it meets what the table of operands asks: nothing, any value, or one type, where an operand control does not come out of passes unless the instruction is strict |
| `Typing.SelectTakes` | src/wasm/ast-decoder.cc:741-755 | A select takes any second operand but a statement, and a third of the same type or that control does not come out of |
| `Typing.TypeIsJoin` | src/wasm/ast-decoder.cc:1036-1059 | A block, loop or if-else has a value type if and only if something comes alive to its end and all that comes has that type; the order of arrival does not matter |
| `Typing.JoinPermutes` | src/wasm/ast-decoder.cc:1036-1059 | The type on which arrivals agree does not depend on their order |
| `Typing.DeadJudge` | src/wasm/ast-decoder.cc:87-90 | Where control is dead it stays dead in every well-typed tree, and nothing arrives anywhere |
| `GraphTyping.DecodedGraphTyped` | src/wasm/ast-decoder.cc:106-156 | The graph of every body that is built is well typed: phi inputs have the type of the phi, operands and checks those of the operator, conditions are I32, returns have the return type, effects are effects |
| `GraphTyping.RunTyped` | src/wasm/ast-decoder.cc:640-799 | Every tree keeps the graph, the slots of the current environment and of every open block entry well typed, and gives a node of its own type |
| `GraphTyping.MergeIntoTyped` | src/wasm/ast-decoder.cc:1119-1204 | Control and a value flowing into a block entry keep everything typed, phis made or extended included |
| `Loops.DecodedLoops` | src/wasm/ast-decoder.cc:338-357 | From bytes: the graph has exactly as many loop headers as the body has loops that control enters alive, judged on the trees, so a body without loops has none |
| `Loops.RunLoops` | src/wasm/ast-decoder.cc:640-799 | Every tree in every state adds one loop header for each of its loops that is entered alive, and no other |
| `Loops.GotoHeads` | src/wasm/ast-decoder.cc:1119-1190 | Where control meets, first, second or later, no loop header is made |
| `BodyTyping.CutOffAccepted` | src/wasm/ast-decoder.cc:131-134 | Counterexample: a block cut off after an unreachable first tree is accepted although the bytes are not a sequence of whole trees, because the check for unfinished productions is made only while control is live |
| `LrParse.DecodeTree` | src/wasm/ast-decoder.cc:298-578 | Decoding the bytes of one tree is running that tree and then decoding the rest, in any state of the stacks |
| `LrParse.DecodeTiled` | src/wasm/ast-decoder.cc:298-578 | In every reachable state the finished trees and the productions on the stack tile the bytes read so far |
| `LrParse.BodyParse` | src/wasm/ast-decoder.cc:298-578 | A run that ends with an empty stack has read a sequence of whole trees, and the trees it holds are the parsed ones |
| `LrSsa.RunTreeRel` | src/wasm/ast-decoder.cc:640-799 | Refinement: on an arena of shared environments, with the block and if stacks, the decoder makes the same graph, type and node as the value-level construction, and gives every entry below back unchanged or merged into |
| `LrInvariant.RunSound` | src/wasm/ast-decoder.cc:290-578 | Every state of every run is sound: block entries and pending ifs are laid out by the open productions, and environments that can still be entered are distinct |
| `LrInvariant.InstructionSound` | src/wasm/ast-decoder.cc:298-578 | One instruction of any kind keeps the state sound |
| `LrInvariant.ShiftSound` | src/wasm/ast-decoder.cc:324-384 | Entering a block, a loop, or any other production keeps the state sound |
| `LrInvariant.AttachSound` | src/wasm/ast-decoder.cc:640-799 | Reducing a production by one more child keeps the state sound, whatever the production and the child |
| `LrInvariant.ReduceTreeSound` | src/wasm/ast-decoder.cc:260-276 | The loop that reduces as long as productions are complete keeps the state sound |
| `LrInvariant.SoundMeans` | src/wasm/ast-decoder.cc:324-384 | What soundness gives: as many block entries as blocks and loops are open, two for a loop, and as many if entries as ifs are pending; a branch is nested properly exactly when its depth is below that number; no entry is the current environment, and while control is live no entry or pending environment is dead |
| `LrInvariant.PendingTarget` | src/wasm/ast-decoder.cc:770-799 | An environment still to be entered is not the current one, and is not dead while control is live |
| `LrInvariant.IfPends` | src/wasm/ast-decoder.cc:688-740 | An if past its condition has an entry on the if stack, and the environment its arms merge into is still to be entered |
| `LrInvariant.DecodeIsSteps` | src/wasm/ast-decoder.cc:298-578 | A decoded body is a sequence of single instruction steps, so facts about every step are facts about every run |
| `SsaRun.RunOk` | src/wasm/ast-decoder.cc:640-799 | Running any tree in a valid state gives a valid state: block entries keep all their sources, merges and phis keep one input for each edge, and the result has its type and node |
| `SsaRun.RunDead` | src/wasm/ast-decoder.cc:87-90 | In a dead environment no tree adds a node or changes a block entry |
| `SsaInvariant.MergeIntoOk` | src/wasm/ast-decoder.cc:1119-1204 | Going to a target in any state, first, second or later: every earlier source is still a source on its own edge, and the new environment with its value is a source on the new edge |
| `SsaInvariant.MergeSlotsOk` | src/wasm/ast-decoder.cc:1143-1183 | Merging the locals slot by slot: each slot selects the new value on the new edge and its old value on every earlier edge |
| `SsaInvariant.MergeNodeOk` | src/wasm/ast-decoder.cc:1192-1204 | Creating or extending one phi: the result selects the new node on the last edge and the old one before, and no other node changes |
| `SsaMeaning.Sim` | src/wasm/ast-decoder.cc:640-799 | Simulation of every instruction: from any walk that stands where the construction stood, the graph follows the tree to where the interpreter goes next, or to the branch target, return or trap |
| `SsaMeaning.SimLoop` | src/wasm/ast-decoder.cc:674-687 | Loops: turns taken by the interpreter are turns around the loop header, with the phis of the header taking the values at the back edge |
| `SsaMeaning.SimOp` | src/wasm/ast-decoder.cc:645-660 | An operator makes one check if it can trap, and the value and the effect its operands determine |
| `SsaControl.RunOwned` | src/wasm/ast-decoder.cc:1119-1276 | Every control output is consumed by at most one node: the current environment and each waiting entry own their control |
| `SsaControl.OwnedMerge` | src/wasm/ast-decoder.cc:1119-1190 | Merging hands the control of the current environment to the target and to nothing else |
| `SsaInvariant.EdgeAdded` | src/wasm/wasm-compiler.cc:266-273 | One more control input on a merge or loop header: every phi of the merge is then exactly one input short, nothing else changes, and all slots can be merged on the new edge |
| `LrDecoder.LrWasmDecoder.CreateOrMergeIntoPhi` | src/wasm/ast-decoder.cc:1192-1204 | In place: append to the phi if there is one on this merge, else make one when the nodes differ |
| `LrDecoder.LrWasmDecoder.MergeValues` | src/wasm/ast-decoder.cc:1143-1183 | The loop over the locals of the target, in place on its array |
| `LrDecoder.LrWasmDecoder.Goto` | src/wasm/ast-decoder.cc:1119-1190 | All states of the target: first entry takes the locals over, second makes a merge, later ones extend it; the source is dead after; no other environment changes |
| `LrDecoder.LrWasmDecoder.PrepareForLoop` | src/wasm/ast-decoder.cc:1216-1229 | A loop header with one phi for the effect and one for each local |
| `LrDecoder.LrWasmDecoder.LoopPhis` | src/wasm/ast-decoder.cc:1221-1226 | One phi for each local, in place on the array |
| `LrDecoder.LrWasmDecoder.Split` | src/wasm/ast-decoder.cc:1232-1252 | A copy with its own array of locals; the original is untouched |
| `LrDecoder.LrWasmDecoder.Steal` | src/wasm/ast-decoder.cc:1256-1267 | The array moves to the copy; the original is left without one |
| `LrDecoder.LrWasmDecoder.MergeIntoProduction` | src/wasm/ast-decoder.cc:1036-1059 | The type and node of a production after one more arm, and the environment merged into the target |
| `LrDecoder.LrWasmDecoder.ReduceBreakToExprBlock` | src/wasm/ast-decoder.cc:1025-1034 | A break to a loop continues it and drops the value; a break to a block merges the value |
| `LrDecoder.LrWasmDecoder.ReduceIf` | src/wasm/ast-decoder.cc:688-710 | The two steps of an if without else |
| `LrDecoder.LrWasmDecoder.ReduceIfElse` | src/wasm/ast-decoder.cc:711-740 | The three steps of an if with else: the first arm takes the locals over, the second gets its own |
| `LrDecoder.LrWasmDecoder.ReduceSelect` | src/wasm/ast-decoder.cc:741-769 | A select after its last operand: the operand types agree, and the value is a phi of the two operands |
| `LrDecoder.LrWasmDecoder.ReduceBrIf` | src/wasm/ast-decoder.cc:780-799 | A conditional branch: the break on the true side, control on the false side after |
| `LrDecoder.LrWasmDecoder.ReduceSetLocal` | src/wasm/ast-decoder.cc:893-905 | An assignment of a local replaces the node of the local in the array of the current environment; a dead environment has no array, and the store is recorded as gone astray |
| `LrDecoder.LrWasmDecoder.ReduceReturn` | src/wasm/ast-decoder.cc:878-892 | A return checks its operand, adds a return node if live, and ends the environment |
| `LrDecoder.LrWasmDecoder.ReduceBlock` | src/wasm/ast-decoder.cc:663-673 | The last child of a block goes to its entry, and control continues there |
| `LrDecoder.LrWasmDecoder.ReduceLoop` | src/wasm/ast-decoder.cc:674-687 | The last child of a loop drops the continue entry and leaves like a block |
| `LrDecoder.LrWasmDecoder.Reduce` | src/wasm/ast-decoder.cc:640-799 | Reducing the top production in place is the functional step on the abstract state |
| `LrDecoder.LrWasmDecoder.ReduceTree` | src/wasm/ast-decoder.cc:260-276 | The reduction loop in place is the functional reduction |
| `LrDecoder.LrWasmDecoder.Shift` | src/wasm/ast-decoder.cc:242-258 | Entering a production in place, with the block entries of blocks and loops |
| `LrDecoder.LrWasmDecoder.EnterLoop` | src/wasm/ast-decoder.cc:338-357 | A loop opens a break entry and a continue entry, and prepares the header |
| `LrDecoder.LrWasmDecoder.Leaf` | src/wasm/ast-decoder.cc:231-240 | A leaf instruction in place |
| `LrDecoder.LrWasmDecoder.DecodeFunctionBody` | src/wasm/ast-decoder.cc:290-578 | The decoding loop with its heap of environments computes the functional decoder, result or failure and stray stores, and ends in a sound state |
| `Decode.InitSsaEnv` | src/wasm/ast-decoder.cc:177-229 | Start node, parameters in order, then zeros of each type |
| `Decode.DecodeBody` | src/wasm/ast-decoder.cc:106-156 | The whole imperative decoder, for every declaration and all bytes: the graph or rejection of the functional decoder, and whether a store went astray, which is when building crashes |
| `Decode.Finish` | src/wasm/ast-decoder.cc:600-632 | The checks at the end of a body and the implicit return |
| `Leb128.ReadUnsignedLEB128Operand` | src/wasm/ast-decoder.cc:1431-1456 | Value, length and status of an unsigned LEB128 operand in any bytes at any position, with values modulo 2^32 and the two error cases |
| `Leb128.UnsignedLEB128From` | src/wasm/encoder.cc:500-513 | The bytes are the canonical encoding |
| `Leb128.EmitVarInt` | src/wasm/encoder.cc:41-53 | The bytes are the canonical encoding |
| `Leb128.ReadEncode` | src/wasm/ast-decoder.cc:1431-1456 | Round trip: reading the encoding of any 32-bit number, in front of anything, gives that number and its length |
| `Leb128.EncodeShape` | src/wasm/encoder.cc:500-513 | The encoding of a number of 7n bits has at most n bytes, they carry its value, and every byte but the last has its top bit set |
| `Assembly.FetchIff` | src/wasm/ast-decoder.cc:298-578 | For all bytes at all positions: an instruction is read exactly where one is written, in an assembly language that names every instruction but the table switch, with its meaning and its length |
| `Assembly.ReadsAssembled` | src/wasm/ast-decoder.cc:298-578 | Reading any instruction, wherever it is written and in whatever groups its index or offset is, gives what was written |
| `Assembly.ReadWasAssembled` | src/wasm/ast-decoder.cc:298-578 | Whatever can be read was written: opcodes without a name, missing operands and indices that name nothing are refused |
| `Assembly.SignaturesNamed` | src/wasm/wasm-opcodes.h:133-251 | Every operator has the operand and result types its name says, and exactly the divisions and remainders check their operands |
| `Assembly.OpcodesNamed` | src/wasm/wasm-opcodes.h:133-251 | Every opcode from 0x40 to 0xb5 is the opcode of a named operator |
| `Assembly.AccessesNamed` | src/wasm/wasm-opcodes.h:95-125 | Every load and store has the type of the word it reads or writes part of |
| `AsmBuilder.AsmWasmBuilder.VisitStatement` | src/wasm/asm-wasm-builder.cc:73-217 | Visiting a statement appends its bytes, marks its variable numbers, restores the stack of enclosing statements and counts its elisions |
| `AsmBuilder.AsmWasmBuilder.VisitStatements` | src/wasm/asm-wasm-builder.cc:73-79 | Statements in order up to and including the first jump |
| `AsmBuilder.AsmWasmBuilder.VisitBlock` | src/wasm/asm-wasm-builder.cc:81-97 | A block whose count is patched in after its statements, without disturbing the rest of the body |
| `AsmBuilder.AsmWasmBuilder.VisitIfStatement` | src/wasm/asm-wasm-builder.cc:107-123 | An if with the opcode for its shape, and a nop for a missing first arm |
| `AsmBuilder.AsmWasmBuilder.VisitWhileStatement` | src/wasm/asm-wasm-builder.cc:207-217 | A while loop as a loop of one if with a branch back |
| `AsmBuilder.AsmWasmBuilder.VisitJump` | src/wasm/asm-wasm-builder.cc:125-165 | A break or continue as a branch with its distance in a byte |
| `AsmBuilder.AsmWasmBuilder.BlockDistance` | src/wasm/asm-wasm-builder.cc:125-165 | The search outwards counts one entry for each block and two for each loop on the way to the target |
| `AsmBuilder.AsmWasmBuilder.VisitReturnStatement` | src/wasm/asm-wasm-builder.cc:167-177 | A return and its expression |
| `AsmBuilder.AsmWasmBuilder.VisitAssignment` | src/wasm/asm-wasm-builder.cc:371-390 | An assignment, or nothing but a smaller count for an assignment of a variable to itself |
| `AsmBuilder.AsmWasmBuilder.VisitExpression` | src/wasm/asm-wasm-builder.cc:282-350 | The bytes of an expression in prefix order, with its variable numbers marked |
| `AsmBuilder.AsmWasmBuilder.AddLeb128` | src/wasm/asm-wasm-builder.cc:723-735 | A variable number, with the position where it starts recorded |
| `AsmMeaning.CountIff` | src/wasm/asm-wasm-builder.cc:81-97 | The patched count of a block is the number of expressions emitted for it if and only if that number fits a byte and the statements counted without emission cancel the elisions below ifs and loops, modulo 256 |
| `AsmMeaning.EmptyMiscounts` | src/wasm/asm-wasm-builder.cc:103-103 | Counterexample: a block with one empty statement gets the wrong count |
| `AsmMeaning.DistanceFinds` | src/wasm/asm-wasm-builder.cc:125-165 | The emitted distance names, in the stack of entries the decoder has open there, exactly the entry of the targeted statement: the break entry for break, the continue entry for continue |
| `AsmMeaning.Sim` | src/wasm/asm-wasm-builder.cc:73-217 | The tree of a statement, run by the interpreter, ends the way the statement does, in every store and for any amount of fuel |
| `AsmMeaning.SimWhile` | src/wasm/asm-wasm-builder.cc:207-217 | The same for while loops, with breaks and continues out of any depth |
| `AsmMeaning.SimFrom` | src/wasm/asm-wasm-builder.cc:73-79 | The same for the statements of a block |
| `AsmParse.ParseS` | src/wasm/asm-wasm-builder.cc:73-217 | The emitted bytes of a fitting statement parse back to one tree that stands for it |
| `AsmParse.ParseList` | src/wasm/asm-wasm-builder.cc:73-79 | The emitted bytes of the statements of a block parse back to as many trees as the count says |
| `AsmFunction.CompiledMeans` | src/wasm/asm-wasm-builder.cc:254-272 | End to end: the graph built from the compiled bytes ends in an outcome if and only if the statements do |
| `AsmTyping.AcceptedIffTyped` | src/wasm/asm-wasm-builder.cc:254-272 | The decoder accepts a compiled function if and only if the function is well typed |
| `AsmTyping.Builds` | src/wasm/ast-decoder.cc:1090-1102 | For every statement, in every state: the type checks of the construction pass if and only if the statement is well typed |
| `AsmRename.BuildFunction` | src/wasm/encoder.cc:128-166 | Compile, number the variables, rewrite the body: the bytes are those of the function under the new variable numbers, and the 16-bit counts are those of the declaration the decoder sees |
| `AsmRename.RunRenamed` | src/wasm/encoder.cc:128-166 | Distinct new numbers do not change what a statement does: outcomes are the same up to the permutation of the store |
| `AsmRename.StmtSpells` | src/wasm/encoder.cc:128-149 | The recorded positions are exactly those of variable numbers, and renumbering there is renaming the variables of the statement |
| `AsmRename.FitRenamed` | src/wasm/asm-wasm-builder.cc:371-390 | Renumbering elides the same assignments and keeps every count and distance |
| `AsmRename.BuiltMeans` | src/wasm/encoder.cc:128-166 | End to end with renumbering, for numbers and counts that fit sixteen bits: the graph built from the encoded function ends in an outcome if and only if the statements do under their own variable numbers |
| `AsmRename.BuiltAccepted` | src/wasm/encoder.cc:128-166 | For numbers and counts that fit sixteen bits: the decoder accepts the built function if and only if its statements are well typed with the declared types of the variables |
| `AsmRename.StartPermuted` | src/wasm/encoder.cc:168-211 | Arguments and zeros reach the variables they are for: the first store of the decoder is the first store of the function under the new numbers |
| `Encoder.IndexVars` | src/wasm/encoder.cc:168-211 | In sixteen-bit arithmetic, the numbers, the parameter types and the counts of each type |
| `Encoder.Rewrite` | src/wasm/encoder.cc:134-154 | The rewriting loop replaces each marked number, whatever the lengths of old and new, and copies everything else |
| `Encoder.NewIndexDistinct` | src/wasm/encoder.cc:168-211 | Different variables get different numbers |
| `Encoder.NewIndexOnto` | src/wasm/encoder.cc:168-211 | Every number below the count is the number of some variable |
| `Encoder.NumbersPermuteIff` | src/wasm/encoder.cc:168-211 | In sixteen bits the numbers are a permutation if and only if there are at most 65536 variables |
| `Encoder.ParamOrder` | src/wasm/encoder.cc:196-200 | Parameters come first, in the order they were added |
| `Encoder.AddressedIff` | src/wasm/encoder.cc:168-211 | The decoder finds every variable under a number of its own with its declared type if and only if there are at most 65536 variables and fewer than 65536 locals of each type |
| `Encoder.LocalsVanish` | src/wasm/encoder.cc:168-211 | Counterexample: 65536 integer locals are declared as none |
| `Encoder.NumbersRepeat` | src/wasm/encoder.cc:168-211 | Counterexample: with 65537 parameters two have the same number |
| `Encoder.LocalTypeAt` | src/wasm/ast-decoder.h:37-48 | Taking parameters and then locals of each type off an index gives the type at that index of the concatenated list |
| `ByteDecoder.Decoder.ReadU8` | src/wasm/decoder.h:41-52 | One byte, or an error and nothing read |
| `ByteDecoder.Decoder.ReadU16` | src/wasm/decoder.h:55-74 | Two bytes, little end first, or an error |
| `ByteDecoder.Decoder.ReadU32` | src/wasm/decoder.h:77-102 | Four bytes, little end first, or an error |
| `ByteDecoder.Decoder.ReadU32v` | src/wasm/decoder.h:105-136 | At most five groups of seven bits, or an error; the position moves by what was read |
| `ByteDecoder.Decoder.CheckAvailable` | src/wasm/decoder.h:139-145 | True exactly when the bytes are there; otherwise the first error is recorded |
| `Modules.AcceptedWellFormed` | src/wasm/module-decoder.cc:43-190 | Every accepted module is well formed: every signature and table index names something, every body lies inside the module, names and segment sources start inside it, every list is as long as its section declares, and with verification every body is accepted in the environment of the whole module |
| `Modules.KindsOrdered` | src/wasm/module-decoder.cc:198-231 | No section is read twice, signatures come before functions and functions before the table |
| `Modules.SectionFits` | src/wasm/module-decoder.cc:60-185 | Every section keeps what was decoded so far well formed |
| `Modules.SectionVerifies` | src/wasm/module-decoder.cc:120-130 | Every section, before or after the functions, keeps the bodies accepted in the environment read so far |
| `Modules.SectionCounts` | src/wasm/module-decoder.cc:60-185 | A section fills its list with as many parts as it declares, and no other list |
| `ModuleParts.MemoryIs` | src/wasm/module-decoder.cc:76-80 | For all bytes: the memory section is three bytes, the smallest size, the largest size and whether it is exported, and changes nothing else; shorter is refused |
| `ModuleParts.FunctionIs` | src/wasm/module-decoder.cc:279-331 | For all bytes: which bytes of a function entry are its flags, signature, name, counts of locals and body, and exactly when the entry is refused |
| `ModuleParts.GlobalIs` | src/wasm/module-decoder.cc:271-276 | For all bytes: name, memory type and export of a global, and exactly when it is refused |
| `ModuleParts.SegmentIs` | src/wasm/module-decoder.cc:334-341 | For all bytes: destination, source, size and loading of a data segment, and exactly when it is refused |
| `ModuleParts.SigIs` | src/wasm/module-decoder.cc:454-466 | For all bytes: a signature is read if and only if its count, result and parameters stand there in that order |
| `ModuleParts.MemIs` | src/wasm/wasm-opcodes.h:354-374 | Every memory type has the size its name says, and the smallest value type that holds it |
| `ModuleParts.VerifiedAs` | src/wasm/module-decoder.cc:344-365 | A body is verified with the parameters and result of its signature and its own locals in the order of their types |
| `ModuleParts.VerifiedIn` | src/wasm/ast-decoder.cc:1312-1340 | A body is verified with the value type of every global and the signature of every function under its own number |
| `ModuleDecoder.Decode` | src/wasm/module-decoder.cc:43-190 | The section loop computes the functional module decoder, and what it accepts is well formed and, if asked for, verified |
| `ModuleDecoder.DecodeSection` | src/wasm/module-decoder.cc:62-185 | One section, of any kind, with its order checks |
| `ModuleDecoder.DecodeFunction` | src/wasm/module-decoder.cc:279-331 | One function entry: flags, signature, optional counts, and a body skipped over |
| `ModuleDecoder.DecodeSegment` | src/wasm/module-decoder.cc:334-341 | One data segment |
| `ModuleDecoder.DecodeGlobal` | src/wasm/module-decoder.cc:271-276 | One global |
| `ModuleDecoder.DecodeSig` | src/wasm/module-decoder.cc:454-466 | One signature |
| `ModuleDecoder.DecodeOffset` | src/wasm/module-decoder.cc:387-393 | An offset inside the module, or an error |
| `ModuleDecoder.VerifyFunctions` | src/wasm/module-decoder.cc:120-130 | Every function with a body is decoded, and all are accepted or the module is rejected |
| `ModuleWriter.WriteTo` | src/wasm/encoder.cc:393-498 | Into a buffer of exactly the precomputed size, header cursor and body cursor write the whole module and nothing outside their areas |
| `ModuleWriter.SizePass` | src/wasm/encoder.cc:371-427 | The sizes added up beforehand are the sizes written |
| `ModuleWriter.Serialize` | src/wasm/encoder.cc:228-249 | One function entry |
| `ModuleWriter.PutSection` | src/wasm/encoder.cc:436-438 | A section code and its count |
| `ModuleRoundTrip.RoundTrip` | src/wasm/encoder.cc:393-498 | Decoding what was written gives back the module, with every offset where the bytes are, for every encodable module |
| `ModuleRoundTrip.BackIsSame` | src/wasm/module-decoder.cc:43-190 | What is read back has the same signatures, globals, functions with the same body bytes, segments with the same data, and table |
| `Linker.WasmLinker.GetFunctionCode` | src/wasm/wasm-module.cc:68-87 | The code of a function, or a placeholder made on first use; code compiled before stays aimed right |
| `Linker.WasmLinker.Finish` | src/wasm/wasm-module.cc:89-92 | The compiled code takes the place of the placeholder; calls compiled before it still aim at the function |
| `Linker.WasmLinker.LinkFunction` | src/wasm/wasm-module.cc:115-141 | Each call site of one code object jumps to what its function has now |
| `Linker.WasmLinker.Link` | src/wasm/wasm-module.cc:94-106 | No call site of a finished function is left on a placeholder, each jumps to the function it was meant for, and the table gets the final code |
| `Linker.BuildFunctionTable` | src/wasm/wasm-module.cc:176-188 | The signature number of every entry, in the first half |
| `Linker.LinkModule` | src/wasm/wasm-module.cc:94-106 | Building and linking the table of a well-formed module |
| `Linker.LoadFinds` | src/wasm/wasm-compiler.cc:1192-1240 | The 32-bit offset arithmetic of both loads finds the signature and the code of the key |
| `Linker.IndirectCallSafe` | src/wasm/wasm-compiler.cc:1192-1240 | An indirect call reaches the code of an entry if and only if the key is in range and the entry has the signature asked for; otherwise it traps, for the reason that holds |
| `BitCount.PopcntCounts32` | src/wasm/wasm-compiler.cc:1055-1101 | The halving sums count the ones of every 32-bit word |
| `BitCount.CtzCounts32` | src/wasm/wasm-compiler.cc:987-1018 | Smearing and counting gives the number of trailing zeros, and 32 for zero |
| `BitCount64.PopcntCounts64` | src/wasm/wasm-compiler.cc:1103-1158 | The same for every 64-bit word |
| `BitCount64.CtzCounts64` | src/wasm/wasm-compiler.cc:1020-1053 | The same for 64 bits, and 64 for zero |
| `Layout.ParameterLocations` | src/wasm/wasm-linkage.cc:238-247 | Every parameter gets the next register of its kind exactly while there are any, else stack words; no two parameters share a location, and the stack offset is what was spilled |
| `Layout.Allocator.Next` | src/wasm/wasm-linkage.cc:150-170 | The next register of the kind, or the next stack words |
| `Layout.AllocateGlobalsOffsets` | src/wasm/wasm-module.cc:152-162 | Every offset and the total are, modulo 2^32, the aligned end of the globals before, so they are right exactly when that is below 2^32 |
| `Layout.OffsetsApart` | src/wasm/wasm-module.cc:152-162 | Every global is aligned to its size and inside the total, and globals do not overlap |
| `ModuleParts.GlobalsHold` | src/wasm/wasm-opcodes.h:306-306 | A global takes at most the bytes of a constant of its value type, and exactly those if it is a whole value |
| `ModuleParts.WordsHold` | src/wasm/wasm-linkage.cc:174-178 | A parameter takes the fewest stack words that hold its bytes |

## Left out

- TableSwitch: the opcode is not in the model; a body that uses it is rejected there.
- Functions with several results: signatures have at most one.
- The terminate node of a loop header and the merging of constants in the graph's cache.
- GrowMemory and the memory-size operator as anything but operators with a meaning given from outside; the bounds
  checks of memory accesses are the operator's trap condition.
- asm.js switch, do-while, for, conditional expressions, property accesses, calls and float literals: the statement
  compiler is modelled for the statements of `Asm.Stmt` and for expressions made of integers, variables, annotations
  and operators with a fixed signature.
- Annotations such as `e|0` mean their operand (`Asm.AsIs`), as the compiler emits them.
- Names, error messages, error positions and tracing.
- AddSignature's ordering and sharing of equal signatures in the module builder.
- EmitWithLocal, OpcodeLength and OpcodeArity: small tables and helpers.
- The sizes of data segments against the module and the memory: the module decoder does not check them.
- The module-size limit, memory allocation, JavaScript wrappers and instantiation.
- AsmFunction.CompiledMeans: is about compiled functions whose graph is built; which assignments the compiler emits
  into dead code is stated on the compiled trees (`BodyTyping.StraysIff`), not on the statements.
- AsmRename.BuiltMeans: the same.
