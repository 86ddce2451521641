# VarCheck in Dafny

A Dafny model of the core of VarCheck, a Kotlin tool that checks a subset of
LLVM IR for variables that are used before they are defined (registers) or
loaded before they are stored (stack slots). The model covers five parts.

- **The bit-vector lattice** (`BitVectors`). `BitVector` is a class over a
  word array kept one flag per bit, padding included. `set` updates it in
  place, and `clone` shares the array, as in the source. `not`, `or`, `and`
  and `equals` are related to pure functions on the logical bits.
- **The dataflow analysis.**
  - `Flows` holds the checkpoint list of a block and `converge`.
  - `VarCheckers` holds `checkFunc` with `setDefined`, `setStored` and
    `DataFlowValue`.
  - `Dataflow` states the fixed-point shape the worklist reaches: OUT = IN ∪
    gen, and IN is the intersection of the predecessors' OUT values.
  - `setStored` is modelled as written: it looks up every `Store` target but
    never sets a bit, so the Stored gen vector is all zeros.
  - The analysis reports nothing. The source has no reporting scan, so the
    model has none either.
- **The IR.**
  - The `llvm.lang` classes: `Instructions`, `Values`, `Types`, `Scopes`,
    `Blocks` and `Funcs`.
  - The earlier `varcheck.lang` snapshot of the same classes: the
    `Snapshot*` modules. Its `Value`, `Symbol` and `Type` classes are not
    part of this model and stand as opaque values (`SnapshotValues`).
  - Block edges, scopes and parameter registration are classes updated in
    place. Instructions, values and types are datatypes.
- **The breadth-first block walk** (`Bfs`, `BfsTrace`). `BfsIterator` is a
  class whose `next` is proved against a replay function. Lemmas about that
  function show:
  - every block is yielded at most once;
  - levels are shortest distances;
  - the walk yields exactly the blocks reachable from the entry.
- **The front end.**
  - `Tokens` covers the llvm `Token`. The three `Location` classes are
    `LlvmLocations`, `ParseLocations` and the mutable `JavaLocations`.
  - `Lexers.Lexer` is the character-level state machine. Its `NextToken` is
    proved to compute the lexing function `Scan`, and `TokenStreams` builds
    the token stream from that function.
  - `Parsers.Parser` is the recursive-descent parser with its look-ahead
    buffer. Each parse method is proved to compute the matching function of
    `ParserSpec` on that stream. `ParserFacts` states what those functions
    accept and reject.

Exceptions become `Wrappers.Result` / `Outcome` values, with a `Failure`
naming the exception kind. For a parse error, the failure holds the location,
the expected names and the found name, and `ParserSpec.Message` renders the
text.

Java's 32-bit `Int` arithmetic is modelled where it is observable: hash codes,
and location columns, which wrap at 2^32 (`Jvm`). Character classes are ASCII.

## Model

| member | source | states |
|---|---|---|
| BitVectors.WordCount | src/wzh/llvm/analysis/BitVector.kt:5 | the words of a fresh vector hold all `size` bits with no spare word, and an empty vector still gets one word |
| BitVectors.BitVector.constructor | src/wzh/llvm/analysis/BitVector.kt:5 | `BitVector(size)` allocates a fresh word array, every bit (padding included) cleared, so its value is all zeros |
| BitVectors.BitVector.Get | src/wzh/llvm/analysis/BitVector.kt:21-27 | `get` succeeds exactly when the index is below `size` and its word lies inside the array, otherwise throws IndexOutOfBounds; in range it returns that bit of the value |
| BitVectors.FlatPos | src/wzh/llvm/analysis/BitVector.kt:53-55 | the array slot a (possibly negative) index reaches under truncating division and a shift count taken modulo 64 |
| BitVectors.FlatPosInjectiveOnNat | src/wzh/llvm/analysis/BitVector.kt:53-55 | distinct non-negative indices reach distinct bits |
| BitVectors.BitVector.Set | src/wzh/llvm/analysis/BitVector.kt:29-39 | `set` succeeds exactly when `get` would; it then writes that one bit in place, reads back the new bit, and every other bit keeps its value; a failure leaves the words alone |
| BitVectors.BitVector.Not | src/wzh/llvm/analysis/BitVector.kt:7 | `not` builds a new vector whose every word bit, padding included, is flipped; its value is the complement |
| BitVectors.BitVector.Or | src/wzh/llvm/analysis/BitVector.kt:9-13 | `or` throws IllegalArgument exactly when the sizes differ; otherwise a new vector over the common word length holding the bitwise disjunction, whose value is the union |
| BitVectors.BitVector.And | src/wzh/llvm/analysis/BitVector.kt:15-19 | `and` throws IllegalArgument exactly when the sizes differ; otherwise a new vector holding the bitwise conjunction, whose value is the intersection |
| BitVectors.BitVector.ToString | src/wzh/llvm/analysis/BitVector.kt:48-49 | `toString` is the rendering of the value, highest index first |
| BitVectors.Render | src/wzh/llvm/analysis/BitVector.kt:48-49 | a rendering has one character per bit |
| BitVectors.RenderInjective | src/wzh/llvm/analysis/BitVector.kt:41-49 | two values render alike exactly when they are equal, so comparing renderings decides equality |
| BitVectors.BitVector.Equals | src/wzh/llvm/analysis/BitVector.kt:41-44 | `equals` holds exactly when the sizes and the values agree; padding bits play no part |
| BitVectors.BitVector.Clone | src/wzh/llvm/analysis/BitVector.kt:46 | `clone` is a new object sharing the same word array, with the same value |
| BitVectors.CloneSharesWords | src/wzh/llvm/analysis/BitVector.kt:46 | a bit set through a clone is seen through the original |
| BitVectors.BitIterator.constructor | src/wzh/llvm/analysis/BitVector.kt:59-60 | an iterator starts at index 0 of its vector |
| BitVectors.BitIterator.HasNext | src/wzh/llvm/analysis/BitVector.kt:61 | more bits remain exactly while the index is below the size |
| BitVectors.BitIterator.Next | src/wzh/llvm/analysis/BitVector.kt:62 | `next` returns `get` of the old index and advances the index even when `get` throws |
| BitVectors.Complement | src/wzh/llvm/analysis/BitVector.kt:7 | the complement keeps the length |
| BitVectors.Union | src/wzh/llvm/analysis/BitVector.kt:12 | the union keeps the length |
| BitVectors.Intersect | src/wzh/llvm/analysis/BitVector.kt:18 | the intersection keeps the length |
| BitVectors.DoubleComplement | src/wzh/llvm/analysis/BitVector.kt:7 | complementing twice gives back the value |
| BitVectors.ComplementFlips | src/wzh/llvm/analysis/BitVector.kt:7 | each bit of the complement is the flipped bit |
| BitVectors.UnionCommutes | src/wzh/llvm/analysis/BitVector.kt:9-13 | union is commutative |
| BitVectors.IntersectCommutes | src/wzh/llvm/analysis/BitVector.kt:15-19 | intersection is commutative |
| BitVectors.UnionAssociates | src/wzh/llvm/analysis/BitVector.kt:9-13 | union is associative |
| BitVectors.IntersectAssociates | src/wzh/llvm/analysis/BitVector.kt:15-19 | intersection is associative, so a fold of meets does not depend on grouping |
| BitVectors.IntersectComplementIsZero | src/wzh/llvm/analysis/BitVector.kt:7 | a value and its complement share no bit |
| BitVectors.UnionIsUpperBound | src/wzh/llvm/analysis/BitVector.kt:9-13 | both operands are included in their union |
| BitVectors.IntersectIsGreatestLowerBound | src/wzh/llvm/analysis/BitVector.kt:15-19 | the intersection is included in both operands and includes every common lower bound |
| BitVectors.OnesIsIntersectIdentity | src/wzh/llvm/analysis/BitVector.kt:15-19 | the all-ones vector is the identity of intersection, the starting value of a meet fold |
| BitVectors.CountMonotone | src/wzh/llvm/analysis/BitVector.kt:15-19 | inclusion cannot raise the number of set bits, and equal counts under inclusion mean equal values |
| Flows.Checkpoints | src/wzh/llvm/analysis/Flow.kt:8-14 | the intended checkpoint list: one slot per instruction boundary, IN first, OUT last, zero vectors between |
| Flows.CheckpointsAsWritten | src/wzh/llvm/analysis/Flow.kt:8-14 | as written, the list cast fails with ClassCast exactly for an empty block, and otherwise is the intended list |
| Flows.EmptyBlockFlowFails | src/wzh/llvm/analysis/Flow.kt:8-14 | an empty block gets no flow as written, where the intended list is just `[IN]` |
| Flows.Flow.constructor | src/wzh/llvm/analysis/Flow.kt:5-14 | a new flow holds its block, meet and initial value, and the intended checkpoint list |
| Flows.CheckpointsAccessors | src/wzh/llvm/analysis/Flow.kt:8-26 | a fresh flow's `inVal` is IN and its `outVal` is OUT, or IN for an empty block |
| Flows.Flow.InVal | src/wzh/llvm/analysis/Flow.kt:16-17 | `inVal` reads the first checkpoint |
| Flows.Flow.SetInVal | src/wzh/llvm/analysis/Flow.kt:18-20 | setting `inVal` replaces the first checkpoint only |
| Flows.Flow.OutVal | src/wzh/llvm/analysis/Flow.kt:22-23 | `outVal` reads the last checkpoint |
| Flows.Flow.SetOutVal | src/wzh/llvm/analysis/Flow.kt:24-26 | setting `outVal` writes the slot at the block's size, and throws IndexOutOfBounds when that slot does not exist |
| Flows.EmptyBlockInIsOut | src/wzh/llvm/analysis/Flow.kt:16-26 | for an empty block IN and OUT are the same checkpoint |
| Flows.PredOuts | src/wzh/llvm/analysis/Flow.kt:40-41 | the predecessors' OUT values, one per predecessor, in order |
| Flows.Fold | src/wzh/llvm/analysis/Flow.kt:40-42 | `fold` combines the values from left to right, starting from the initial value; with a meet that keeps the width and values of the initial value's width, the result has that width too |
| Flows.FoldSnoc | src/wzh/llvm/analysis/Flow.kt:40-42 | folding one more value meets it with the fold of the others |
| Flows.FoldOfIntersection | src/wzh/llvm/analysis/Flow.kt:38-43 | with intersection as the meet, a bit survives the fold exactly when it is set in the initial value and in every folded value |
| Flows.Flow.Converge | src/wzh/llvm/analysis/Flow.kt:38-43 | `converge` keeps IN when there is no predecessor, fails with "Invalid block-flow map" when one has no flow, and otherwise sets IN to the fold of the predecessors' OUT values, changing nothing else |
| VarCheckers.DefGen | src/wzh/llvm/analysis/VarChecker.kt:66-70 | the Defined gen vector has the scope's width |
| VarCheckers.ParamGen | src/wzh/llvm/analysis/VarChecker.kt:29 | the entry's seeded IN has the scope's width |
| VarCheckers.DefsCoverStores | src/wzh/llvm/analysis/VarChecker.kt:66-76 | a `Store` defines its target, so when every definition resolves in the scope every stored target does too |
| VarCheckers.SetDefined | src/wzh/llvm/analysis/VarChecker.kt:66-70 | `setDefined` fails with a null dereference exactly when some definition is missing from the scope; otherwise bit i of the result is set iff it was set before or i is the index of a symbol the block defines |
| VarCheckers.SetStored | src/wzh/llvm/analysis/VarChecker.kt:72-76 | `setStored` fails exactly when some store target is missing from the scope, and otherwise returns the vector unchanged: the indexing expression is never assigned |
| VarCheckers.SeedParams | src/wzh/llvm/analysis/VarChecker.kt:29 | seeding the entry fails exactly when some parameter is missing from the scope; otherwise bit i is set iff it was before or i is a parameter's index |
| VarCheckers.DataFlowValue.constructor | src/wzh/llvm/analysis/VarChecker.kt:79-81 | the fields hold the given transfer, IN and OUT vectors |
| VarCheckers.DataFlowValue.Create | src/wzh/llvm/analysis/VarChecker.kt:79-86 | construction throws IllegalArgument exactly when the transfer's size is not `size`; otherwise a fresh value with OUT all ones |
| VarCheckers.DataFlowValue.Update | src/wzh/llvm/analysis/VarChecker.kt:88-91 | `update` sets OUT to IN ∪ transfer and keeps IN; vectors of different sizes make `or` throw and leave OUT alone |
| VarCheckers.UpdateBounds | src/wzh/llvm/analysis/VarChecker.kt:88-91 | after `update`, OUT includes both IN and the transfer |
| VarCheckers.Uniform | src/wzh/llvm/analysis/VarChecker.kt:81 | a snapshot holding the same vector for every block name and nothing else |
| VarCheckers.Seeded | src/wzh/llvm/analysis/VarChecker.kt:27-29 | the IN snapshot after `associateWith`: the seed for the entry, zeros for every other block, no other key |
| VarCheckers.SeededZeros | src/wzh/llvm/analysis/VarChecker.kt:32-36 | seeding with zeros is the uniform all-zeros snapshot Stored starts from |
| VarCheckers.StartSnapshots | src/wzh/llvm/analysis/VarChecker.kt:24-36 | values that start with OUT all ones and the seeded IN have exactly those IN and OUT snapshots |
| VarCheckers.DefinedValue | src/wzh/llvm/analysis/VarChecker.kt:24-31 | the value for one block of Defined succeeds exactly when its definitions (and, for the entry, the parameters) resolve; its transfer is the gen vector, its IN the parameter vector for the entry and zeros otherwise, its OUT all ones |
| VarCheckers.KeysUpToStep | src/wzh/llvm/analysis/VarChecker.kt:24-31 | entering block k extends the map's keys by its name and keeps every key on its own object |
| VarCheckers.ValuesUpToStep | src/wzh/llvm/analysis/VarChecker.kt:24-31 | entering block k keeps every entered value what `associateWith` makes for its block |
| VarCheckers.Enter | src/wzh/llvm/analysis/VarChecker.kt:24-31 | one pass of the Defined `associateWith`: fails exactly when block k's definitions (or, for k = 0, the parameters) do not resolve; otherwise the map covers the first k+1 blocks with their values |
| VarCheckers.CollectDefined | src/wzh/llvm/analysis/VarChecker.kt:24-31 | the whole Defined `associateWith` fails exactly when some block's definitions or the parameters do not resolve; otherwise one fresh value per block name with the stated contents |
| VarCheckers.DefinedFacts | src/wzh/llvm/analysis/VarChecker.kt:24-31 | the finished Defined map has one key per block name, no shared value, the seeded IN snapshot, OUT all ones and each block's gen vector |
| VarCheckers.BuildDefined | src/wzh/llvm/analysis/VarChecker.kt:24-31 | `associateWith` for Defined, stated about the function as it was: fails iff a definition or parameter is unresolved, else the start values |
| VarCheckers.BuildStored | src/wzh/llvm/analysis/VarChecker.kt:32-36 | `associateWith` for Stored cannot fail once Defined succeeded; every transfer and IN is all zeros and OUT all ones, on fresh objects shared with neither map |
| VarCheckers.ApartOf | src/wzh/llvm/analysis/VarChecker.kt:17-18 | a value under one block name is shared with no other key of either map |
| VarCheckers.SnapshotUpdate | src/wzh/llvm/analysis/VarChecker.kt:47-58 | when only the value under one name changes, the IN and OUT snapshots change only at that name |
| VarCheckers.Refresh | src/wzh/llvm/analysis/VarChecker.kt:47-58 | one analysis' part of an iteration: IN becomes the meet of the predecessors' OUT values (the entry keeps its own), OUT becomes IN ∪ gen, no other value changes, and `changed` holds iff OUT changed |
| VarCheckers.Process | src/wzh/llvm/analysis/VarChecker.kt:43-61 | both analyses refresh the block's value; the result says whether either OUT differs from its previous value |
| VarCheckers.BlockNamesOf | src/wzh/llvm/analysis/VarChecker.kt:24 | every block of the function has its name among the map's keys |
| VarCheckers.Step | src/wzh/llvm/analysis/VarChecker.kt:42-62 | one pass of the loop keeps the loop invariant for both analyses and either strictly lowers the number of set OUT bits or shortens the queue |
| VarCheckers.Worklist | src/wzh/llvm/analysis/VarChecker.kt:39-63 | the worklist loop ends; afterwards the entry was processed and both analyses satisfy the invariant with an empty queue |
| VarCheckers.ApartAll | src/wzh/llvm/analysis/VarChecker.kt:17-18 | injective and disjoint maps keep every block's two values apart |
| VarCheckers.InitialLoopInv | src/wzh/llvm/analysis/VarChecker.kt:24-39 | the start values satisfy the loop invariant with only the entry queued |
| VarCheckers.Associate | src/wzh/llvm/analysis/VarChecker.kt:22-36 | both `associateWith` calls: fail iff a definition or parameter is unresolved, else disjoint fresh start values for Defined and Stored |
| VarCheckers.VarChecker.constructor | src/wzh/llvm/analysis/VarChecker.kt:16-18 | a new checker has no scope and empty maps |
| VarCheckers.VarChecker.Publish | src/wzh/llvm/analysis/VarChecker.kt:22-36 | the assignments to `scope`, `defined` and `stored` keep the start values intact |
| VarCheckers.VarChecker.Solve | src/wzh/llvm/analysis/VarChecker.kt:39-63 | the worklist over the published maps terminates and leaves both analyses at a post-fixpoint with the entry seeded |
| VarCheckers.VarChecker.CheckFunc | src/wzh/llvm/analysis/VarChecker.kt:20-64 | `checkFunc` throws IndexOutOfBounds for a function without blocks and a null dereference iff a definition or parameter is unresolved; otherwise both maps cover every block, hold its gen vector, and are a post-fixpoint of the dataflow equations, stable for every processed block when edges are mutual |
| Dataflow.MeetOuts | src/wzh/llvm/analysis/VarChecker.kt:50-55 | the fold of the predecessors' OUT values keeps the width |
| Dataflow.MeetOutsIsIntersection | src/wzh/llvm/analysis/VarChecker.kt:50-55 | a bit survives the fold exactly when it is set in the start value and in every predecessor's OUT |
| Dataflow.MeetOutsFrame | src/wzh/llvm/analysis/VarChecker.kt:50-55 | the meet depends only on the predecessors' OUT values |
| Dataflow.MeetOutsMonotone | src/wzh/llvm/analysis/VarChecker.kt:50-55 | smaller OUT values give a smaller meet |
| Dataflow.InOf | src/wzh/llvm/analysis/VarChecker.kt:49-56 | the IN a block gets keeps the width: the entry keeps its own, every other block the meet from all ones |
| Dataflow.StepKeepsPostFixpoint | src/wzh/llvm/analysis/VarChecker.kt:47-58 | from a post-fixpoint, updating one block only shrinks its OUT and leaves a post-fixpoint |
| Dataflow.StepKeepsStable | src/wzh/llvm/analysis/VarChecker.kt:47-62 | a block stays stable after an update unless an OUT it reads changed and it was not queued |
| Dataflow.StepKeepsAllStable | src/wzh/llvm/analysis/VarChecker.kt:47-62 | after an update every processed block off the queue is stable, since a changed OUT queues all successors |
| Dataflow.LoopInvInit | src/wzh/llvm/analysis/VarChecker.kt:24-39 | OUT all ones everywhere with the entry queued satisfies the loop invariant |
| Dataflow.LoopInvHead | src/wzh/llvm/analysis/VarChecker.kt:42-48 | the polled block belongs to the function and its values have the width, so `defined[block]!!` cannot fail |
| Dataflow.LoopInvStep | src/wzh/llvm/analysis/VarChecker.kt:42-62 | one iteration shrinks the block's OUT and keeps the loop invariant when successors are queued on a change |
| Dataflow.TotalShrinks | src/wzh/llvm/analysis/VarChecker.kt:40-63 | shrinking one block's OUT never raises the number of set bits and strictly lowers it on a change, so the loop terminates |
| Blocks.BasicBlock.constructor | src/wzh/llvm/lang/BasicBlock.kt:3-7 | a new block has its name and empty instruction, predecessor and successor lists |
| Blocks.BasicBlock.Size | src/wzh/llvm/lang/BasicBlock.kt:9 | `size` is the number of instructions |
| Blocks.BasicBlock.ToString | src/wzh/llvm/lang/BasicBlock.kt:26 | `toString` is `%` followed by the name |
| Blocks.BasicBlock.Equals | src/wzh/llvm/lang/BasicBlock.kt:19-22 | blocks are equal exactly when they print alike, and equal blocks hash alike |
| Blocks.BasicBlock.HashCode | src/wzh/llvm/lang/BasicBlock.kt:24 | a block hashes as its name's `String.hashCode` (congruent to the polynomial in its characters) |
| Blocks.BasicBlock.HasSucc | src/wzh/llvm/lang/BasicBlock.kt:14 | `succ.contains(to)` holds when `to` itself is a successor, and exactly when some successor prints as `to` does, i.e. has its name |
| Blocks.BasicBlock.Connect | src/wzh/llvm/lang/BasicBlock.kt:13-17 | `connect` changes nothing when a block equal by name is already a successor, and otherwise appends `to` to the successors and this block to `to`'s predecessors; afterwards `to` is a successor and nothing else changes |
| Blocks.EqualsByName | src/wzh/llvm/lang/BasicBlock.kt:19-26 | blocks are equal exactly when their names are, and equal blocks hash and print alike |
| Blocks.Link | src/wzh/llvm/lang/BasicBlock.kt:13-17 | in a graph whose names are unique, edges stay inside, and `pred`/`succ` mirror each other without repeats, `connect` keeps all of that and links the two blocks |
| Blocks.LinkNew | src/wzh/llvm/lang/BasicBlock.kt:15-16 | connecting blocks not yet linked adds exactly one edge each way and keeps the graph consistent |
| Blocks.BlockNamesMember | src/wzh/llvm/lang/BasicBlock.kt:19-24 | a name is among the blocks' names exactly when some block of the list carries it |
| Blocks.BlockNamesSnoc | src/wzh/llvm/lang/BasicBlock.kt:19-24 | one more block adds its name to the name set |
| Funcs.AddAllSnoc | src/wzh/llvm/lang/Func.kt:12-14 | adding a list of symbols and then one more is adding the extended list |
| Funcs.Func.constructor | src/wzh/llvm/lang/Func.kt:3-14 | a new function has no blocks and no exits, and its fresh scope holds the parameters as `add` registers them one by one |
| Funcs.Func.Entry | src/wzh/llvm/lang/Func.kt:7 | `entry` is the first block and throws IndexOutOfBounds while there are no blocks |
| Funcs.ParamList | src/wzh/llvm/lang/Func.kt:18 | the joined parameter list is empty exactly when there are no parameters |
| Funcs.ParamsRegistered | src/wzh/llvm/lang/Func.kt:12-14 | the scope gets every parameter name exactly once, and with distinct names exactly the parameters in order, parameter i at index i |
| Funcs.DuplicateParamRegisteredOnce | src/wzh/llvm/lang/Func.kt:12-14 | of two parameters with one name only the first is registered |
| Funcs.Func.ToString | src/wzh/llvm/lang/Func.kt:18 | the rendered function starts with the return type, ` @`, the name and `(` and ends with `)` |
| Funcs.NoParamsText | src/wzh/llvm/lang/Func.kt:18 | a function without parameters prints `<ret> @<name>()` |
| Scopes.NamesAppend | src/wzh/llvm/lang/Scope.kt:21-27 | appending a symbol adds its name to the name set |
| Scopes.AddAllNames | src/wzh/llvm/lang/Scope.kt:21-27 | repeated `add` keeps names distinct, registers every name of both lists and keeps the old list as a prefix |
| Scopes.AddAllFresh | src/wzh/llvm/lang/Scope.kt:21-27 | symbols with new distinct names are appended in order |
| Scopes.AddFresh | src/wzh/llvm/lang/Scope.kt:23-26 | appending a new name at index `size` keeps list, index map and name table in agreement |
| Scopes.AddFreshAppends | src/wzh/llvm/lang/Scope.kt:23-26 | a new name is appended |
| Scopes.AddFreshKeys | src/wzh/llvm/lang/Scope.kt:23-26 | after appending, the index map and the name table have exactly the list's names as keys |
| Scopes.AddFreshPositions | src/wzh/llvm/lang/Scope.kt:23-25 | after appending, every symbol's index is its position |
| Scopes.AddFreshTable | src/wzh/llvm/lang/Scope.kt:24-26 | after appending, every table entry sits at its index in the list |
| Scopes.AddKnown | src/wzh/llvm/lang/Scope.kt:22 | a name already present is skipped |
| Scopes.Scope.constructor | src/wzh/llvm/lang/Scope.kt:3-6 | a new scope is empty and consistent |
| Scopes.Scope.Size | src/wzh/llvm/lang/Scope.kt:8 | `size` is the number of symbols |
| Scopes.Scope.Contains | src/wzh/llvm/lang/Scope.kt:10 | `contains` holds exactly when a symbol of that name was added |
| Scopes.Scope.GetAt | src/wzh/llvm/lang/Scope.kt:13 | `get(index)` is the symbol at that position and throws IndexOutOfBounds outside `[0, size)` |
| Scopes.Scope.IndexOf | src/wzh/llvm/lang/Scope.kt:16 | `get(symbol)` succeeds exactly when the name is present, giving the position of the symbol of that name, and otherwise throws a null dereference |
| Scopes.Scope.Lookup | src/wzh/llvm/lang/Scope.kt:19 | `get(name)` succeeds exactly when the name is present, giving a registered symbol of that name, and otherwise throws a null dereference |
| Scopes.Scope.Symbols | src/wzh/llvm/lang/Scope.kt:29 | iteration yields `size` symbols with distinct names |
| Scopes.Scope.Add | src/wzh/llvm/lang/Scope.kt:21-27 | `add` of a known name changes nothing; a new name is appended at index `size` in the list, the index map and the table; the scope stays consistent |
| Scopes.Scope.IndexOfGetAt | src/wzh/llvm/lang/Scope.kt:13-16 | the symbol at position i has index i |
| Scopes.Scope.GetAtIndexOf | src/wzh/llvm/lang/Scope.kt:13-19 | the symbol at a present symbol's index is the one registered under its name, and the symbol itself when it was the one added |
| Scopes.Scope.IndexByName | src/wzh/llvm/lang/Scope.kt:16 | lookup is by name: two symbols with the same name have the same index |
| Instructions.SymbolsOfMembers | src/wzh/llvm/lang/Instruction.kt:24 | `filterIsInstance<Symbol>()` keeps exactly the symbol values and never lengthens the list |
| Instructions.SymbolsOfAppend | src/wzh/llvm/lang/Instruction.kt:31 | filtering a concatenation concatenates the filtered parts |
| Instructions.SymbolsOfConstants | src/wzh/llvm/lang/Instruction.kt:31 | a list of constants filters to nothing |
| Instructions.UseIsSymbolOperands | src/wzh/llvm/lang/Instruction.kt:10-70 | for every instruction kind `use` is exactly the symbols among the values it reads |
| Instructions.Def | src/wzh/llvm/lang/Instruction.kt:11-71 | only `br` and `ret` define nothing; every other instruction, `store` included, defines its `dst` |
| Instructions.Use | src/wzh/llvm/lang/Instruction.kt:10-70 | a symbol is used exactly when it is one of the instruction's operands |
| Instructions.ToString | src/wzh/llvm/lang/Instruction.kt:12-72 | `store`, `br` and `ret` print their opcode first; every other instruction starts with the `%` of the symbol it defines |
| Instructions.ConstantOperandsDropped | src/wzh/llvm/lang/Instruction.kt:22-70 | constant operands of binary, icmp, store, ret and br are not uses |
| Instructions.DefPrintedFirst | src/wzh/llvm/lang/Instruction.kt:12-51 | every defining instruction other than `store` prints as `%dst = ...` |
| Instructions.UnconditionalBrText | src/wzh/llvm/lang/Instruction.kt:61-62 | an unconditional branch prints `br label %target` |
| Instructions.ConditionalBrWithoutFalseTarget | src/wzh/llvm/lang/Instruction.kt:63-64 | a conditional branch without a false target prints `null` in its place |
| Values.SymbolEqualsIffSameName | src/wzh/llvm/lang/Value.kt:11-14 | symbols are equal exactly when their names are |
| Values.SymbolEqualityIgnoresType | src/wzh/llvm/lang/Value.kt:11-14 | two symbols with one name and different types are equal |
| Values.ConstEqualsIffSameValue | src/wzh/llvm/lang/Value.kt:24-27 | constants are equal exactly when their values are |
| Values.SymbolNeverEqualsConst | src/wzh/llvm/lang/Value.kt:11-27 | a symbol and a constant are never equal, in either order |
| Values.EqualsIsEquivalence | src/wzh/llvm/lang/Value.kt:11-27 | value equality is reflexive, symmetric and transitive |
| Values.Equals | src/wzh/llvm/lang/Value.kt:11-14 | two values are equal exactly when they print alike, and equal values have equal hash codes |
| Values.HashCode | src/wzh/llvm/lang/Value.kt:16-29 | a symbol hashes as its name's `String.hashCode` (congruent to the polynomial in its characters), its type playing no part; a constant hashes as itself |
| Values.ToString | src/wzh/llvm/lang/Value.kt:18-31 | a rendering is non-empty and starts with `%` exactly when the value is a symbol |
| Values.ConstTypeIsI32 | src/wzh/llvm/lang/Value.kt:23 | a constant's type is `i32` |
| Values.ConstToStringRoundTrip | src/wzh/llvm/lang/Value.kt:31 | a constant's rendering reads back as its value |
| Values.SymbolToStringIsName | src/wzh/llvm/lang/Value.kt:18 | a symbol prints as `%` and its name, never its type |
| Types.Stars | src/wzh/llvm/lang/Type.kt:28 | n pointer levels print as n stars |
| Types.Equals | src/wzh/llvm/lang/Type.kt:10-24 | type equality holds exactly for structurally identical types |
| Types.HashCode | src/wzh/llvm/lang/Type.kt:15-26 | a type hashes as the width of the integer type it ends in, whatever its pointer depth |
| Types.ToString | src/wzh/llvm/lang/Type.kt:17-28 | a rendering starts with `i` and ends with `*` exactly when the type is a pointer |
| Types.IntegerNeverEqualsPointer | src/wzh/llvm/lang/Type.kt:10-24 | an integer type never equals a pointer type, in either order |
| Types.HashConsistent | src/wzh/llvm/lang/Type.kt:15-26 | equal types have equal hash codes |
| Types.ToStringShape | src/wzh/llvm/lang/Type.kt:17-28 | a type prints as `i`, its base width and one star per pointer level |
| Types.BaseAndDepthDetermine | src/wzh/llvm/lang/Type.kt:9-28 | the base width and the pointer depth determine a type |
| Types.ToStringInjective | src/wzh/llvm/lang/Type.kt:17-28 | two types print alike exactly when they are the same type |
| Types.IntToStringNoStar | src/wzh/llvm/lang/Type.kt:17 | the width's decimal text contains no star |
| Types.TrailingStarsOf | src/wzh/llvm/lang/Type.kt:28 | the stars a rendering ends with are exactly the pointer levels |
| Types.StarSuffix | src/wzh/llvm/lang/Type.kt:17-28 | two renderings that agree have the same base text and pointer depth |
| Jvm.StringHash | src/wzh/llvm/lang/Value.kt:16 | `String.hashCode` agrees modulo 2^32 with the sum of each character times 31 to the power of the characters after it |
| Jvm.Wrap | src/wzh/llvm/lang/Type.kt:9 | truncation to a 32-bit `Int` is congruent to its input modulo 2^32 and the identity in range |
| Jvm.NatToString | src/wzh/llvm/lang/Value.kt:31 | decimal text is non-empty digits without a leading zero |
| Jvm.IntToStringRoundTrip | src/wzh/llvm/lang/Value.kt:31 | `Int.toString` reads back as the integer |
| Jvm.IntToStringInjective | src/wzh/llvm/lang/Value.kt:31 | distinct integers print differently |
| Jvm.IntToString | src/wzh/llvm/lang/Value.kt:31 | `Int.toString` is non-empty, starts with a minus sign exactly for negative values and is otherwise digits |
| Jvm.IntPairInjective | src/wzh/llvm/parse/Location.kt:12 | two integers joined by `, ` can be split back apart |
| LlvmLocations.Location.NewLine | src/wzh/llvm/parse/Location.kt:7 | `newLine` gives column 0 of the next line, the line wrapping at 32 bits |
| LlvmLocations.Location.Shift | src/wzh/llvm/parse/Location.kt:9 | `shift` keeps the line and moves one column, wrapping at 32 bits |
| LlvmLocations.Start | src/wzh/llvm/parse/Location.kt:5 | the no-argument constructor gives line 0, column 0 |
| LlvmLocations.StepsWithinRange | src/wzh/llvm/parse/Location.kt:7-9 | away from the 32-bit limit each step moves by exactly one, and a shift is forgotten by the next new line |
| LlvmLocations.Location.ToString | src/wzh/llvm/parse/Location.kt:11 | a location prints as `Location{` ... `}`, with `}` only as its last character |
| LlvmLocations.ToStringInjective | src/wzh/llvm/parse/Location.kt:11 | distinct locations print differently |
| ParseLocations.Location.NewLine | src/wzh/varcheck/parse/Location.kt:7-9 | `newLine` gives column 0 of the next line, the line wrapping at 32 bits |
| ParseLocations.Location.Shift | src/wzh/varcheck/parse/Location.kt:11-13 | `shift` keeps the line and moves one column, wrapping at 32 bits |
| ParseLocations.Start | src/wzh/varcheck/parse/Location.kt:5 | the no-argument constructor gives line 0, column 0 |
| ParseLocations.StepsWithinRange | src/wzh/varcheck/parse/Location.kt:7-13 | away from the 32-bit limit each step moves by exactly one, and a shift is forgotten by the next new line |
| ParseLocations.Location.ToString | src/wzh/varcheck/parse/Location.kt:15-17 | a location prints as `Location{` ... `}`, with `}` only as its last character |
| ParseLocations.ToStringInjective | src/wzh/varcheck/parse/Location.kt:15-17 | distinct locations print differently |
| JavaLocations.Location.constructor | src/wzh/varcheck/parse/Location.java:7-10 | the fields hold the given line and column |
| JavaLocations.Location.Clone | src/wzh/varcheck/parse/Location.java:12-15 | `clone` is a new object with the same fields |
| JavaLocations.Location.NewLine | src/wzh/varcheck/parse/Location.java:17-20 | `newLine` resets the column to 0 and advances the line in place, wrapping at 32 bits |
| JavaLocations.Location.Shift | src/wzh/varcheck/parse/Location.java:22 | `shift` advances the column in place and keeps the line |
| JavaLocations.CloneIsIndependent | src/wzh/varcheck/parse/Location.java:12-22 | moving a clone leaves the original where it was |
| Bfs.BfsIterator.constructor | src/wzh/llvm/plot/BfsIterator.kt:16-19 | `init` queues the entry at level 0 and marks it visited |
| Bfs.BfsIterator.HasNext | src/wzh/llvm/plot/BfsIterator.kt:21-23 | `hasNext` holds exactly while the queue is non-empty |
| Bfs.BfsIterator.Next | src/wzh/llvm/plot/BfsIterator.kt:25-34 | `next` on an empty queue throws NoSuchElement and changes nothing; otherwise it returns the head and the state advances by one step: the head leaves the queue and every not yet visited successor is queued one level deeper and marked visited |
| Bfs.FaithfulExtend | src/wzh/llvm/plot/BfsIterator.kt:26-27 | the successor lists recorded for yielded entries remain the blocks' own lists |
| Bfs.Enqueue | src/wzh/llvm/plot/BfsIterator.kt:27-32 | the successor loop appends, in order and at the given level, each successor whose name is neither visited nor carried by an earlier successor, and marks all the successors visited |
| Bfs.Create | src/wzh/llvm/plot/BfsIterator.kt:11-19 | an iterator over a function without blocks throws IndexOutOfBounds from `func.entry`; otherwise it starts at the entry |
| Bfs.Invariant | src/wzh/llvm/plot/BfsIterator.kt:11-34 | every reachable iterator state satisfies the breadth-first trace invariant |
| Bfs.FirstIsEntry | src/wzh/llvm/plot/BfsIterator.kt:17 | the first entry yielded is the entry block at level 0 |
| Bfs.YieldedOnce | src/wzh/llvm/plot/BfsIterator.kt:14-30 | no block is yielded twice or yielded and still queued, and `visited` is exactly the names yielded or queued |
| Bfs.LevelsOrdered | src/wzh/llvm/plot/BfsIterator.kt:25-34 | yielded levels start at 0 and never decrease |
| Bfs.Reachable | src/wzh/llvm/plot/BfsIterator.kt:25-34 | every yielded or queued block is reached from the entry by a successor walk with as many edges as its level |
| Bfs.WalksCovered | src/wzh/llvm/plot/BfsIterator.kt:25-34 | once the queue is empty, every block a walk from the entry reaches in a closed graph with unique names has been yielded, at a level no larger than the walk's length |
| Bfs.ShortestLevels | src/wzh/llvm/plot/BfsIterator.kt:25-34 | once the queue is empty, each yielded level is the shortest distance from the entry |
| BfsTrace.AppendedFacts | src/wzh/llvm/plot/BfsIterator.kt:27-32 | the queued successors are at the next level, were unvisited, have distinct names and carry exactly the unvisited successor names |
| BfsTrace.StepInv | src/wzh/llvm/plot/BfsIterator.kt:25-34 | one `next` step keeps the trace invariant: numbering, layering, discovery by a parent and coverage of read successors |
| BfsTrace.StartInv | src/wzh/llvm/plot/BfsIterator.kt:16-19 | the initial state satisfies the trace invariant |
| BfsTrace.StepKeepsInv | src/wzh/llvm/plot/BfsIterator.kt:25-34 | advancing the iterator state by one yielded entry keeps the invariant |
| BfsTrace.ReplayInv | src/wzh/llvm/plot/BfsIterator.kt:25-34 | every state reached by `next` calls that each yielded an entry satisfies the invariant |
| BfsTrace.WalkTo | src/wzh/llvm/plot/BfsIterator.kt:29 | following parent links gives a successor walk from the entry to any trace entry, as long as its level |
| BfsTrace.TraceInGraph | src/wzh/llvm/plot/BfsIterator.kt:27-29 | in a closed graph every traced block belongs to the graph |
| BfsTrace.Exhaustive | src/wzh/llvm/plot/BfsIterator.kt:21-34 | with nothing left to yield, every block reachable by a walk is in the trace at a level no larger than the walk's length |
| SnapshotBlocks.BasicBlock.constructor | src/wzh/varcheck/lang/BasicBlock.kt:3-7 | a new block has its name and empty instruction, predecessor and successor lists |
| SnapshotBlocks.BasicBlock.Connect | src/wzh/varcheck/lang/BasicBlock.kt:9-13 | `connect` changes nothing when `to` itself is already a successor, and otherwise appends it to the successors and this block to its predecessors |
| SnapshotBlocks.Link | src/wzh/varcheck/lang/BasicBlock.kt:9-13 | in a graph whose edges stay inside, mirror each other and do not repeat, `connect` keeps all of that and links the blocks |
| SnapshotBlocks.ConnectByIdentity | src/wzh/varcheck/lang/BasicBlock.kt:10 | without a name-based `equals`, two distinct blocks with one name both become successors |
| SnapshotFunctions.Function.constructor | src/wzh/varcheck/lang/Function.kt:3-13 | a new function has no blocks and no exits, and its fresh scope holds the parameters as `add` registers them |
| SnapshotFunctions.Function.Entry | src/wzh/varcheck/lang/Function.kt:6 | `entry` is the first block and throws IndexOutOfBounds while there are none |
| SnapshotFunctions.ParamsRegistered | src/wzh/varcheck/lang/Function.kt:11-13 | the scope gets every parameter name exactly once, and with distinct names exactly the parameters in order |
| SnapshotFunctions.AddAllFresh | src/wzh/varcheck/lang/Function.kt:11-13 | parameters with new distinct names are appended in order |
| SnapshotFunctions.DuplicateParamRegisteredOnce | src/wzh/varcheck/lang/Function.kt:11-13 | of two parameters with one name only the first is registered |
| SnapshotInstructions.Def | src/wzh/varcheck/lang/Instruction.kt:8-47 | exactly the non-terminators define a symbol, their `dst` |
| SnapshotInstructions.Use | src/wzh/varcheck/lang/Instruction.kt:8-47 | a value is used exactly when it sits in one of the instruction's operand fields |
| SnapshotInstructions.ConstantsAreUsed | src/wzh/varcheck/lang/Instruction.kt:18-47 | in this snapshot non-symbol operands count as uses |
| SnapshotInstructions.UseLength | src/wzh/varcheck/lang/Instruction.kt:8-42 | binary and icmp use two values, a branch at most one, alloca none |
| SnapshotScopes.NamesAppend | src/wzh/varcheck/lang/Scope.kt:26-32 | appending a symbol adds its name |
| SnapshotScopes.AddAllSnoc | src/wzh/varcheck/lang/Scope.kt:26-32 | adding a list and then one more symbol is adding the extended list |
| SnapshotScopes.AddAllNames | src/wzh/varcheck/lang/Scope.kt:26-32 | repeated `add` keeps names distinct, registers every name of both lists and keeps the old list as a prefix |
| SnapshotScopes.AddFresh | src/wzh/varcheck/lang/Scope.kt:28-31 | appending a new name at index `size` keeps list, symbol index and name table in agreement |
| SnapshotScopes.Scope.constructor | src/wzh/varcheck/lang/Scope.kt:3-6 | a new scope is empty and consistent |
| SnapshotScopes.Scope.Size | src/wzh/varcheck/lang/Scope.kt:8 | `size` is the number of symbols |
| SnapshotScopes.Scope.Contains | src/wzh/varcheck/lang/Scope.kt:10-12 | `contains` holds exactly when a symbol of that name was added |
| SnapshotScopes.Scope.GetAt | src/wzh/varcheck/lang/Scope.kt:14-16 | `get(index)` is the symbol at that position and throws IndexOutOfBounds outside `[0, size)` |
| SnapshotScopes.Scope.IndexOf | src/wzh/varcheck/lang/Scope.kt:18-20 | `get(symbol)` succeeds exactly for a symbol that was added, giving its position, and otherwise throws a null dereference |
| SnapshotScopes.Scope.Lookup | src/wzh/varcheck/lang/Scope.kt:22-24 | `get(name)` succeeds exactly when the name is present, giving the symbol added under it, and otherwise throws a null dereference |
| SnapshotScopes.Scope.Add | src/wzh/varcheck/lang/Scope.kt:26-32 | `add` of a known name changes nothing; a new name is appended at index `size` in the list, the symbol index and the table |
| SnapshotScopes.Scope.ToArray | src/wzh/varcheck/lang/Scope.kt:34-36 | `toArray` is a new array holding the symbols in insertion order |
| SnapshotScopes.Scope.IndexOfGetAt | src/wzh/varcheck/lang/Scope.kt:14-20 | the symbol at position i has index i |
| SnapshotScopes.Scope.GetAtIndexOf | src/wzh/varcheck/lang/Scope.kt:14-20 | `get(get(s))` is s for every added symbol |
| Tokens.TagName | src/wzh/llvm/parse/Token.kt:42-57 | every tag prints as a non-empty name |
| Tokens.TagNameText | src/wzh/llvm/parse/Token.kt:42-57 | no tag name contains `,` or `}` |
| Tokens.TagNameInjective | src/wzh/llvm/parse/Token.kt:42-57 | two tags print alike exactly when they are the same tag |
| Tokens.Token.StrNoPrefix | src/wzh/llvm/parse/Token.kt:23-27 | `strNoPrefix` drops the first character of a global or local identifier, throws IndexOutOfBounds for an identifier with empty text, and is the whole text for every other tag |
| Tokens.Token.HashCode | src/wzh/llvm/parse/Token.kt:35-39 | the hash is `31 * tag.hashCode() + str.hashCode()` modulo 2^32 |
| Tokens.WithTag | src/wzh/llvm/parse/Token.kt:6 | `Token(loc, tag)` has empty text |
| Tokens.Pattern | src/wzh/llvm/parse/Token.kt:8 | `Token(tag, str)` sits at the start location |
| Tokens.EqualsEquivalence | src/wzh/llvm/parse/Token.kt:29-33 | token equality is an equivalence that ignores the location |
| Tokens.HashConsistent | src/wzh/llvm/parse/Token.kt:29-39 | equal tokens have equal hash codes |
| Tokens.PatternMatches | src/wzh/llvm/parse/Token.kt:8-33 | a token equals a pattern exactly when tag and text agree |
| Tokens.StrNoPrefixRoundTrip | src/wzh/llvm/parse/Token.kt:23-27 | putting the sigil back in front of `strNoPrefix` gives the identifier's text |
| Tokens.Token.IsOperand | src/wzh/llvm/parse/Token.kt:16-21 | holds exactly for the `LOCAL_ID` and `DIGITS` tags |
| Tokens.Token.Equals | src/wzh/llvm/parse/Token.kt:29-33 | two tokens are equal exactly when they differ at most in their location |
| Tokens.ToString | src/wzh/llvm/parse/Token.kt:12-14 | a token prints as `Token{`, its location's text, then tag and text, closing with `}` |
| Tokens.ToStringInjective | src/wzh/llvm/parse/Token.kt:12-14 | two tokens print alike exactly when location, tag and text all agree |
| Tokens.TagSplit | src/wzh/llvm/parse/Token.kt:13 | a tag name followed by `, ...` determines the tag and the rest |
| Lexers.Scan | src/wzh/varcheck/parse/Lexer.kt:29-129 | a token read from inside the text leaves the pointer no earlier than where it started and never past the end |
| Lexers.Finish | src/wzh/varcheck/parse/Lexer.kt:97-122 | a finished run leaves the pointer at or after the run's end and never past the end of the text |
| Lexers.Shifted | src/wzh/varcheck/parse/Lexer.kt:152-160 | n columns further on the same line, wrapping at 32 bits |
| Lexers.RunEnd | src/wzh/varcheck/parse/Lexer.kt:97-122 | a run is the longest stretch of characters of its class from its start |
| Lexers.LineEnd | src/wzh/varcheck/parse/Lexer.kt:72 | the first line break at or after a position, or none when the input has no further line break |
| Lexers.ScanWellScanned | src/wzh/varcheck/parse/Lexer.kt:29-129 | every token the lexer returns has its tag's documented shape and is the source text just before the new pointer; a buffered token is as long as possible; only end of file leaves the pointer in place, at the end of the input; a line-break token never ends an empty line |
| Lexers.RunStart | src/wzh/varcheck/parse/Lexer.kt:39-69 | a letter, mark, digit or sign starts a buffered run whose text has its tag's shape |
| Lexers.SigilMatches | src/wzh/varcheck/parse/Lexer.kt:47-69 | the text of a token started by `@`, `%`, `#` or `-` has its tag's shape |
| Lexers.Skipped | src/wzh/varcheck/parse/Lexer.kt:70-93 | a comment, an empty line or a blank is skipped and lexing goes on further along |
| Lexers.FinishWellScanned | src/wzh/varcheck/parse/Lexer.kt:97-122 | a finished run yields a well-formed token, also after skipping `target` lines |
| Lexers.FinishSkips | src/wzh/varcheck/parse/Lexer.kt:104-113 | `target` skips through the end of its line (failing with IndexOutOfBounds without a line break) and `attributes` ends the input with end of file |
| Lexers.FinishPlain | src/wzh/varcheck/parse/Lexer.kt:114-122 | any other run is returned as a token of its text, placed where it began |
| Lexers.RunEndAt | src/wzh/varcheck/parse/Lexer.kt:97-122 | a run known to stop at j ends at j |
| Lexers.ShiftBack | src/wzh/varcheck/parse/Lexer.kt:135 | `loc.column - str.length` after reading the text gives back the column where it began |
| Lexers.ShiftedStep | src/wzh/varcheck/parse/Lexer.kt:152-160 | one more column after n columns is n + 1 columns |
| Lexers.ScanSigil | src/wzh/varcheck/parse/Lexer.kt:47-69 | after a sign the next character must be of the token's class, else the lexer raises "Expect <class>, got <c>." at the location after the sign |
| Lexers.Lexer.constructor | src/wzh/varcheck/parse/Lexer.kt:9-27 | a new lexer holds the text, at pointer 0, location (0, 0), with an empty buffer and no tag |
| Lexers.Lexer.Read | src/wzh/varcheck/parse/Lexer.kt:157-162 | `read` returns the current character and moves the location to the next line on a line break and one column on otherwise; past the end it throws IndexOutOfBounds, the pointer moving on all the same |
| Lexers.Lexer.Shift | src/wzh/varcheck/parse/Lexer.kt:152 | `shift` reads one character into the buffer |
| Lexers.Lexer.Skip | src/wzh/varcheck/parse/Lexer.kt:155 | `skip` reads one character and drops it |
| Lexers.Lexer.Clear | src/wzh/varcheck/parse/Lexer.kt:146-149 | `clear` empties the buffer and forgets the tag |
| Lexers.Lexer.CreateFromBuffer | src/wzh/varcheck/parse/Lexer.kt:132-136 | `createFromBuffer` makes a token of the buffered text, placed as many columns back as the text is long, and empties the buffer |
| Lexers.Lexer.CreateFromTag | src/wzh/varcheck/parse/Lexer.kt:139-143 | `createFromTag` makes a textless token at the current location and skips its character |
| Lexers.Lexer.SkipLine | src/wzh/varcheck/parse/Lexer.kt:72 | `while (read() != '\n')` stops just after the next line break, on column 0 of the next line, and throws IndexOutOfBounds when there is none |
| Lexers.Lexer.NextToken | src/wzh/varcheck/parse/Lexer.kt:29-129 | `nextToken` returns exactly the token (or failure) the lexing function gives from the current pointer and location, and leaves the lexer where that function says |
| Lexers.Lexer.Flush | src/wzh/varcheck/parse/Lexer.kt:127-128 | at the end of the input the buffered token is returned, or end of file at the current location |
| Lexers.Lexer.Extend | src/wzh/varcheck/parse/Lexer.kt:97-122 | a character of the run's class is shifted into the buffer |
| Lexers.Lexer.Begin | src/wzh/varcheck/parse/Lexer.kt:38-96 | one pass with no token begun either finishes the call as the lexing function says or leaves a state it continues from |
| Lexers.Lexer.StartRun | src/wzh/varcheck/parse/Lexer.kt:39-45 | a letter, mark or digit sets the tag without reading |
| Lexers.Lexer.Sigil | src/wzh/varcheck/parse/Lexer.kt:47-69 | a sign and (except after `-`) the character after it are buffered, or the lexer raises the expected-class failure |
| Lexers.Lexer.Comment | src/wzh/varcheck/parse/Lexer.kt:70-73 | a comment is skipped through the end of its line |
| Lexers.Lexer.Single | src/wzh/varcheck/parse/Lexer.kt:74-94 | punctuation gives its token, a line break ends a non-empty line or is skipped on an empty one, blanks are skipped, anything else raises "Unknown character" |
| Lexers.Lexer.Complete | src/wzh/varcheck/parse/Lexer.kt:97-122 | a run ended by a character outside its class is returned, or a `target`/`attributes` word skips code |
| Lexers.Lexer.SkipCode | src/wzh/varcheck/parse/Lexer.kt:104-113 | after `target` the lexer resumes on the next line; after `attributes` it ends the input |
| Lexers.Lexer.SkipTarget | src/wzh/varcheck/parse/Lexer.kt:105-109 | the rest of a `target` line is skipped, failing with IndexOutOfBounds without a line break |
| TokenStreams.ScanFacts | src/wzh/varcheck/parse/Lexer.kt:29-129 | end of file is returned at the end of the input, every other token moves the pointer forward |
| TokenStreams.Lex | src/wzh/varcheck/parse/Lexer.kt:29-129 | the stream of successive `nextToken` results starts at the given position |
| TokenStreams.EofRepeats | src/wzh/varcheck/parse/Lexer.kt:127-128 | after end of file a further call returns end of file again |
| TokenStreams.LexChain | src/wzh/varcheck/parse/Lexer.kt:29-129 | a lexer standing where the stream says after k tokens delivers token k and then stands where the stream says after k + 1 |
| TokenStreams.LexWellShaped | src/wzh/varcheck/parse/Lexer.kt:29-129 | every token of a stream has its tag's shape, and only its end is end of file |
| TokenStreams.LexIsLexed | src/wzh/varcheck/parse/Lexer.kt:29-129 | the stream agrees with the lexer at every step |
| Parsers.Parser.constructor | src/wzh/varcheck/parse/Parser.kt:3-6 | a new parser holds its lexer, an empty look-ahead buffer and no token read, and stands at the start of the stream that lexer delivers |
| Parsers.Parser.Peek | src/wzh/varcheck/parse/Parser.kt:122-127 | `peek(idx)` returns the token `idx` places after the ones read, pulling tokens from the lexer into the buffer until it is there, and reads nothing |
| Parsers.Parser.Read | src/wzh/varcheck/parse/Parser.kt:115-120 | `read` returns the next token of the stream and moves on by one, `loc` becoming where the token after it begins |
| Parsers.Parser.ExpectToken | src/wzh/varcheck/parse/Parser.kt:101-106 | `expect(token)` reads one token and fails naming the expected token unless the two are equal |
| Parsers.Parser.ExpectTag | src/wzh/varcheck/parse/Parser.kt:108-113 | `expect(tag)` reads one token and returns it when it has that tag, else fails naming the tag |
| Parsers.Parser.ParsePrimType | src/wzh/varcheck/parse/Parser.kt:89-93 | a primitive type is the word read, located where it began |
| Parsers.Parser.ParsePtrType | src/wzh/varcheck/parse/Parser.kt:95-99 | a `*` after a type makes a pointer to it at the same location |
| Parsers.Parser.ParseTypeDef | src/wzh/varcheck/parse/Parser.kt:81-87 | `parseTypeDef` computes what the type-definition function of the stream gives, and ends after the tokens it consumed |
| Parsers.Parser.ParseParamDef | src/wzh/varcheck/parse/Parser.kt:70-75 | `parseParamDef` computes what the parameter function gives: a type, then a local name |
| Parsers.Parser.ParseParamList | src/wzh/varcheck/parse/Parser.kt:41-68 | `parseParamList` computes what the parameter-list function gives |
| Parsers.Parser.ParseParams | src/wzh/varcheck/parse/Parser.kt:45-66 | the loop of `parseParamList` computes what the parameter-loop function gives from an empty list |
| Parsers.Parser.ParamStep | src/wzh/varcheck/parse/Parser.kt:46-65 | one pass of the parameter loop does what the one-step function says: close on `)`, add a parameter on a reserved word or on a comma after one, or fail |
| Parsers.Parser.ParamAfterComma | src/wzh/varcheck/parse/Parser.kt:52-54 | a comma after a parameter is read and the next parameter parsed |
| Parsers.Parser.ParseFuncSig | src/wzh/varcheck/parse/Parser.kt:31-39 | `parseFuncSig` computes what the signature function gives |
| Parsers.Parser.ParseSigName | src/wzh/varcheck/parse/Parser.kt:35-38 | the part of `parseFuncSig` after the return type computes what its function gives |
| Parsers.Parser.ParseSigTail | src/wzh/varcheck/parse/Parser.kt:36-38 | the part of `parseFuncSig` after the name computes what its function gives |
| Parsers.Parser.ParseFuncBody | src/wzh/varcheck/parse/Parser.kt:77-79 | `parseFuncBody` always throws a RuntimeException |
| Parsers.Parser.ParseFuncDef | src/wzh/varcheck/parse/Parser.kt:24-29 | `parseFuncDef` fails with the signature's failure or, after a signature, with the body's |
| Parsers.Parser.ParseModule | src/wzh/varcheck/parse/Parser.kt:9-22 | `parseModule` returns what the module function of the stream gives (with the failure for an unexpected token thrown) |
| ParserSpec.TokenString | src/wzh/varcheck/parse/Parser.kt:138-144 | a token is named by a non-empty string: a reserved word with text by its text, every other token by its tag's name |
| ParserSpec.Error | src/wzh/varcheck/parse/Parser.kt:131-135 | the failure sits at the offending token's location, names each expected token in its place and names the token found |
| ParserSpec.Message | src/wzh/varcheck/parse/Parser.kt:134 | the message reads `Expect [`, the expected names, then `], got ` and the token found, ending with `.` |
| ParserSpec.Names | src/wzh/varcheck/parse/Parser.kt:131-134 | one name per expected token |
| ParserSpec.NamesAt | src/wzh/varcheck/parse/Parser.kt:131-134 | each expected token is named by `tokenString` in its own place |
| ParserSpec.ModuleAt | src/wzh/varcheck/parse/Parser.kt:9-22 | a module parses exactly when the next token is end of file, giving no functions; a lexing failure is passed on unchanged |
| ParserSpec.ReadAt | src/wzh/varcheck/parse/Parser.kt:115-120 | a read succeeds exactly when the token and the one after it lex, gives that token, and otherwise fails with the lexer's failure |
| ParserSpec.ExpectTokAt | src/wzh/varcheck/parse/Parser.kt:103-106 | `expect(token)` passes exactly when the token read equals the expected one |
| ParserSpec.ExpectTagAt | src/wzh/varcheck/parse/Parser.kt:109-113 | `expect(tag)` succeeds exactly when the token read has the tag, and returns that token |
| ParserSpec.TypeDefAt | src/wzh/varcheck/parse/Parser.kt:81-99 | a parsed type consumes at least one token and ends on a token that lexes |
| ParserSpec.ParamDefAt | src/wzh/varcheck/parse/Parser.kt:70-75 | a parsed parameter consumes at least two tokens |
| ParserSpec.ParamStepAt | src/wzh/varcheck/parse/Parser.kt:46-65 | each pass that goes on consumes a token, and a pass that closes the list consumes the `)` |
| ParserSpec.ParamLoop | src/wzh/varcheck/parse/Parser.kt:45-66 | the loop ends after the token it started on |
| ParserSpec.ParamListAt | src/wzh/varcheck/parse/Parser.kt:41-68 | a parameter list takes at least its two brackets |
| ParserSpec.FuncSigAt | src/wzh/varcheck/parse/Parser.kt:31-39 | a signature takes at least six tokens: `define`, a type, a name, two brackets and the attribute group |
| ParserSpec.SigNameAt | src/wzh/varcheck/parse/Parser.kt:35-38 | the rest of a signature after its type takes at least four tokens |
| ParserSpec.SigTailAt | src/wzh/varcheck/parse/Parser.kt:36-38 | the rest of a signature after its name takes at least three tokens |
| ParserFacts.TypeDefShape | src/wzh/varcheck/parse/Parser.kt:81-99 | a type is a reserved word, or a pointer to one exactly when `*` follows; its location is the word's, and it ends after the word or the `*` |
| ParserFacts.ParamDefShape | src/wzh/varcheck/parse/Parser.kt:70-75 | a parameter is a well-formed type followed by the local name it holds, located where the type is |
| ParserFacts.ParamLoopShape | src/wzh/varcheck/parse/Parser.kt:45-66 | the loop keeps the parameters it had, adds only well-formed ones and stops just after a `)` |
| ParserFacts.ParamItemShape | src/wzh/varcheck/parse/Parser.kt:51-54 | a pass that goes on adds exactly one well-formed parameter at the end |
| ParserFacts.ParamCloseShape | src/wzh/varcheck/parse/Parser.kt:47-50 | a pass that closes the list reads the `)` and keeps the list as it is |
| ParserFacts.ParamListShape | src/wzh/varcheck/parse/Parser.kt:41-68 | a parameter list is well-formed parameters between `(` and `)` |
| ParserFacts.EmptyParamList | src/wzh/varcheck/parse/Parser.kt:43-50 | `()` is the empty parameter list |
| ParserFacts.LeadingCommaRejected | src/wzh/varcheck/parse/Parser.kt:52-58 | a comma before any parameter fails, expecting `)` or a reserved word |
| ParserFacts.StrayTokenRejected | src/wzh/varcheck/parse/Parser.kt:59-64 | any other token fails, and a comma is among the expected tokens exactly when a parameter has been read |
| ParserFacts.CommaOptional | src/wzh/varcheck/parse/Parser.kt:51-54 | a comma between parameters changes nothing but the position: the next parameter is added either way |
| ParserFacts.FuncSigStart | src/wzh/varcheck/parse/Parser.kt:31-34 | a signature begins with `define`, is located there and has a well-formed return type |
| ParserFacts.FuncSigRest | src/wzh/varcheck/parse/Parser.kt:35-38 | a signature's name is a global identifier, its parameters are well-formed and it ends on an attribute group |
| ParserFacts.SigNameShape | src/wzh/varcheck/parse/Parser.kt:35-38 | the rest of a signature keeps its location and return type and reads a global name |
| ParserFacts.SigTailShape | src/wzh/varcheck/parse/Parser.kt:36-38 | the rest of a signature keeps location, type and name, and ends on an attribute group |
| ParserFacts.ModuleAccepts | src/wzh/varcheck/parse/Parser.kt:9-22 | a module parses exactly when the stream is at end of file, and then it has no definitions |
| ParserFacts.DefinitionFails | src/wzh/varcheck/parse/Parser.kt:13 | a definition always fails: with the signature's failure, or with the body's runtime exception |
| ParserFacts.ErrorNames | src/wzh/varcheck/parse/Parser.kt:131-135 | a parse failure is placed at the token found and names, in order, every expected token and then the token found |
| ParserFacts.TokenStringNames | src/wzh/varcheck/parse/Parser.kt:138-144 | a token is named by its tag, except a reserved word with text, which is named by its text; no name is empty |
| ParserFacts.ModuleMessage | src/wzh/varcheck/parse/Parser.kt:15-18 | a stray comma at the top level is reported as expecting `define, EOF` and getting `COMMA` |
| ParserFacts.ModuleLoopStalls | src/wzh/varcheck/parse/Parser.kt:15-18 | as written, a stray token leaves the loop where it was, while the intended behaviour fails with the parse error |

## Left out

- `VarChecker.check` (src/wzh/llvm/analysis/VarChecker.kt:11-14) only prints the module name and calls `checkFunc` on each function; printing is I/O, and `CheckFunc` is modelled.
- VarCheckers.VarChecker.CheckFunc: requires the blocks of the function to have distinct names and to be closed under `pred`/`succ`; the source leaves this to the IR builder, and the model needs it to bound the worklist.
- VarCheckers.VarChecker.CheckFunc: states the fixed-point shape (`Dataflow.Stable`) only for a graph whose `pred` and `succ` lists mirror each other, which `BasicBlock.connect` maintains.
- SnapshotScopes.Scope.IndexOf: symbol keys are compared with the structural equality of the stand-in `SnapshotValues.Symbol` (name and type), because the `equals`/`hashCode` of the snapshot `Symbol` class are not part of this model; whether a different symbol object with an added name finds an index (identity equality: no; name equality: yes) is therefore not stated.
- `DataFlowValue`s are held in maps keyed by block name rather than by block object; block equality is by name in the source, so the lookups agree.
- In `VarCheckers` and `Flows` the bit vectors are sequences of booleans (`Bits`), not `BitVector` objects; the vector operations they use are the pure functions that `BitVectors.BitVector` is proved against.
- The 64-bit word packing of `BitVector` (`LongArray` and masks) is abstracted to one flag per bit; the number of words, the range checks and the aliasing of `clone` are kept.
- JVM hash codes of tags, blocks and strings are parameters or are left to key equality in maps and sets.
- The Unicode-aware `Character.isUpperCase`/`isLowerCase`/`isDigit` calls are modelled for ASCII only.
- The `Lexer` constructor reads its text from a file (src/wzh/varcheck/parse/Lexer.kt:17-27); the model takes the text as a parameter.
- Lexers.Lexer.Shift: requires a character to be left; every call in `nextToken` shifts only a character it has just peeked, so the out-of-range throw of `read` cannot happen there.
- Lexers.Lexer.Skip: requires a character to be left, for the same reason as `Shift`.
- The state a lexer or parser is left in after it throws is not specified; the source does not use the object again.
- `Lexer.kt` uses `TokenTag.NEW_LINE`, which the llvm `Token.kt` enum lacks; the model adds it to `TokenTag`. The varcheck `Token` class is not part of this model.
- src/wzh/varcheck/parse/Lexer.java and src/wzh/varcheck/Main.java are an unfinished draft superseded by Lexer.kt.
- Parsers.Parser.ParseModule: has no loop. Every definition throws, because `parseFuncBody` always throws, and end of file leaves the loop, so the loop body runs once (with the stray-token branch throwing, see Findings).
- Parsers.Parser.ParseParamList: the loop runs in `ParseParams`, with one pass per `ParamStep` call and the comma case in `ParamAfterComma`; `ParseFuncSig` is split the same way into `ParseSigName` and `ParseSigTail`.
- AST nodes are the datatypes of `AstNodes`. `FuncBody` has no contents, because no body is ever parsed.
- `ParseError` message formatting is kept as the failure's parts, with `ParserSpec.Message` giving the text for parse failures; the lexer's own messages are kept as their text.
- src/wzh/llvm/plot/Plotter.kt (LaTeX layout and file writing), src/wzh/llvm/parse/Builder.kt (its AST classes are not part of this model) and the two `Main` files are left out; `connect` and scope interning, which Builder uses, are modelled.

## Findings

| source | as written | input that shows it | evidently intended | confidence | as-written member | corrected member |
|---|---|---|---|---|---|---|
| src/wzh/llvm/analysis/Flow.kt:8-14 | `Array(block.size + 1) {...}.toList() as ArrayList` | a block with no instructions: `toList` of a one-element array is a singleton list, so the cast throws ClassCastException | the checkpoint list `[IN]` | not executed | Flows.EmptyBlockFlowFails | Flows.Checkpoints |
| src/wzh/varcheck/parse/Parser.kt:15-18 | the top-level `else` branch calls `error(...)` without `throw` | a token stream whose first token is `,`: nothing is read, so the loop sees the same token forever | throw the parse error "Expect [define, EOF], got COMMA." | not executed | ParserFacts.ModuleLoopStalls | ParserFacts.ModuleAccepts |
