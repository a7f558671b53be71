# Verification models for the calc compiler and runtime

calc is a small language with a compiler written in Go, a runtime written in the language
itself, and a copy of the libuv headers. This project models seven parts of it in Dafny and
proves what they promise:

* **Generators** (`GeneratorSyntax`, `GeneratorLayout`, `GeneratorLowering`, `GeneratorDirect`,
  `GeneratorEmitted`, `GeneratorCorrect`, `GeneratorSimulation`, `GeneratorExact`,
  `GeneratorPrograms`): code with
  `yield` becomes basic blocks, a context struct and a stored resume address. The emitted blocks,
  run by a machine for blocks, are proved to do what direct execution of the source does exactly
  when that never falls off a body which the code leaves unjoined.
* **Coroutines and the event loop** (`AwaitProtocol`, `AwaitExact`, `AwaitProgress`, `AwaitHistory`,
  `SchedulerPool`, `LockOrder`, `EventQueue`):
  state machines whose steps are the statements that touch shared memory, interleaved over any
  number of threads.
* **Module loading** (`ModuleLoader`, `ModuleCycles`): one process per source file, channels and the
  emission lock.
* **Escape analysis and type definitions** (`EscapeAnalysis`, `TypeFixpoint`).
* **The TCP read buffer** (`ReadStream`): a window over blocks shared with delivered buffers.
* **The expression parser** (`ExprGrammar`, `ExprParser`, `ExprRoundTrip`, `ExprPrecedence`).
* **Heap structures** (`RedBlackShape`, `RedBlackMemory`, `RedBlackTree`, `SplayMemory`,
  `SplayTree`, `LinkedList`, `GrowableSlice`): the trees, the list and the slice over objects
  with pointer fields that the methods update in place.

Code that updates things in place is a class or a method with loops here too, proved against a
function or relation on values; protocols are transition systems with an invariant and theorems
over every run. Heap proofs take the fields of a set of nodes as one map, so that what a pointer
update does is a lemma about maps.

## Model

| member | source | states |
|---|---|---|
| GeneratorExact.KeptExactlyWhen | compiler/ast/function.go:335-382 | For every program without awaits and else-branch definitions in which no body of an if ends with the end block of an if inside, all arguments and any enclosing block: StepNext and GetCurrent show the values, and the locals at each suspension, that direct execution yields, and StepNext first answers false when direct execution ends, if and only if direct execution answers no call after it has fallen off the end of a body that no branch joins to the rest. |
| GeneratorExact.ReturnsExactlyWhen | compiler/ast/function.go:335-382 | For the same programs, from any suspension: a call of StepNext returns if and only if direct execution reaches a yield or the end without falling off such a body; otherwise the call is left without a return; where a body leads nowhere this stands for a block that has no terminator. |
| GeneratorExact.LoweringKeepsMeaning | compiler/ast/function.go:335-382 | Whatever nesting of ifs, loops and yields: a program all of whose bodies are joined, which shows in its text, keeps its meaning for all arguments, every finite sequence of observations and the end alike. |
| GeneratorExact.KeptWhenNeverFalling | compiler/ast/function.go:335-382 | A program of any shape, bodies that end with an inner if included, keeps its meaning for arguments with which it never falls off a body. |
| GeneratorSimulation.LoweringMeans | compiler/ast/function.go:335-382 | For every program without awaits and else-branch definitions, joined or not: the emitted blocks show what the source shows when the end of an unjoined body leads nowhere, or, after an inner if, back to the start of the block that holds the outer one. |
| GeneratorExact.YieldInIfNotJoined | compiler/ast/cond.go:109-125 | if 1 { yield 5 }: from the initial context StepNext answers once, with 5, as direct execution does, and its second call, where direct execution ends, does not return: it runs into a block that has no terminator. |
| GeneratorExact.IfInIfGoesRound | compiler/ast/cond.go:109-125 | if 1 { if 1 {} }: direct execution ends and the first call of StepNext never returns, because the inner end leads back to the block that holds the outer if. |
| GeneratorExact.SetOnceKept | compiler/ast/cond.go:109-125 | A program that falls off a body ending with an inner if and keeps its meaning all the same, so the condition of KeptExactlyWhen decides only without such bodies. |
| GeneratorPrograms.OperatorsShow | compiler/ast/ast.go:173-192 | For all arguments a and b, StepNext and GetCurrent of the compiled yield a op b show exactly a + b, a - b, a * b, and 1 or 0 as a < b or a == b holds, and then StepNext answers false. |
| GeneratorPrograms.SumsShow | compiler/ast/loop.go:32-68 | For every n, the compiled loop for ; i < n; i = i + 1 { s = s + i; yield s } over variables that start at zero shows k(k+1)/2 for each k below n in turn, and then StepNext answers false. |
| GeneratorPrograms.LargerShows | compiler/ast/cond.go:140-161 | For all a and b, a compiled if a < b { m = b } else { m = a } followed by yield m shows the larger of the two. |
| GeneratorPrograms.ShadowsShow | compiler/ast/scope.go:216-247 | For every a, a variable defined in an if with the name of a parameter is the one meant inside, and behind the if the parameter is shown as it was called. |
| GeneratorPrograms.RedefinesShow | compiler/ast/scope.go:147-157 | A second definition of a name in one scope is passed over, and a yield without a value shows the last value again. |
| GeneratorPrograms.TraceOnce | compiler/ast/function.go:335-400 | What a generator shows before it ends is one sequence of observations, whatever else is tried. |
| GeneratorEmitted.JoinedIsDirect | compiler/ast/cond.go:109-161 | As long as a run never falls off a body, what the emitted code does over the source is direct execution. |
| GeneratorSimulation.Follow | compiler/ast/generator.go:159-173 | One step over the source, whatever statement it is and wherever a body falls, is matched by some ticks of the emitted machine that end in a related state, in a suspension at the related resume block, in the final return, or stuck when the body leads nowhere. |
| GeneratorSimulation.RunForward | compiler/ast/function.go:335-382 | Whatever the run over the source reaches next, a yield or the end, the machine reaches by returning true or false, with its stored resume address at the rest of the program. |
| GeneratorSimulation.RunBackward | compiler/ast/function.go:335-382 | If the machine returns, the run over the source yields or ends: no emitted code returns on its own. |
| GeneratorSimulation.StepNextFollows | compiler/ast/function.go:335-382 | One call of StepNext goes to the next yield or to the end and no further, and leaves the context suspended there. |
| GeneratorSimulation.StepNextOnce | compiler/ast/function.go:335-382 | A call of StepNext has one outcome: the same answer and the same context. |
| GeneratorSimulation.TracesAgree | compiler/ast/function.go:335-400 | From any suspension the traces over the source, as the emitted code takes it, and of the machine agree in both directions. |
| GeneratorSimulation.FollowBack | compiler/ast/loop.go:59-68 | The back edge of a loop, the step and the branch at its head decide as direct execution does and keep the enclosing frames. |
| GeneratorSimulation.FollowYield | compiler/ast/generator.go:159-173 | A yield stores the value, if any, and then the address of the fresh block, returns true, and the rest of the program is laid out at that block. |
| GeneratorSimulation.StartsSame | compiler/ast/function.go:354-382 | The zeroed context with the stored arguments holds what the parameters and locals hold when direct execution starts. |
| GeneratorCorrect.Laid | compiler/ast/cond.go:109-161 | Emitting any statement list without awaits and without definitions in else branches leaves blocks in which it is laid out: executing from its first instruction performs its statements in order and then its terminator. |
| GeneratorCorrect.LaidIfElse | compiler/ast/cond.go:140-161 | Both branches of an if/else are laid out at the blocks of its conditional branch; each leads to the end block, which starts empty, unless its last block is left open. |
| GeneratorCorrect.LaidIf | compiler/ast/cond.go:109-125 | The body of an if is laid out at the target of its conditional branch and ends with the branch to the end block, with none, or with the branch back that an if inside leaves. |
| GeneratorCorrect.LaidFor | compiler/ast/loop.go:32-68 | The loop body is laid out at the target of its entry branch and leads to the loop head, which holds the step and the same branch again. |
| GeneratorCorrect.StmtsGrow | compiler/ast/cond.go:109-161 | Emission only appends to the current block and adds blocks; every other block stays as it was. |
| GeneratorCorrect.StmtsFinish | compiler/ast/cond.go:116-122 | Where the emission of a list ends, with which terminator, and whether it has closed its first block follow from its last statement that adds blocks. |
| GeneratorLowering.Emitter.CalcAll | compiler/ast/ast.go:691-708 | The emitter loop over a statement list, with blocks and current block updated in place, computes the emission function. |
| GeneratorLowering.Emitter.CalcIf | compiler/ast/cond.go:109-125 | The updates of IfNode, including the overwritten terminators, compute the emission function. |
| GeneratorLowering.Emitter.CalcIfElse | compiler/ast/cond.go:140-161 | The updates of IfElseNode compute the emission function. |
| GeneratorLowering.Emitter.CalcFor | compiler/ast/loop.go:32-68 | The updates of ForNode, the end block becoming current before the body is emitted, compute the emission function. |
| GeneratorLowering.Emitter.InChild | compiler/ast/scope.go:125-145 | Emission into a child scope leaves the current block, scope and parent of this one as they were. |
| GeneratorLowering.Build | compiler/ast/function.go:335-382 | Emitting the body and then the two final terminators gives the compiled blocks about which the simulation is proved. |
| GeneratorLayout.LayoutTyped | compiler/ast/generator.go:69-145 | For any nesting of definitions, awaits, ifs and loops the path of the k-th declared node or parameter leads, in the frame type, to the declared type of that node; the frame starts with the three header fields and ends with resume address and result. |
| GeneratorLayout.LayoutDisjoint | compiler/ast/generator.go:19-35 | No two slots overlap, not even one inside the other, and none reaches the header, the resume address or the result. |
| GeneratorLayout.NodesSeparate | compiler/ast/generator.go:19-35 | The path table set by setVals is injective up to overlap, lies in the body of the frame, and has every declared node. |
| GeneratorLayout.AllSlotted | compiler/ast/generator.go:69-145 | Every declaration and every parameter gets a path. |
| GeneratorLayout.SetDoneKeepsResult | compiler/ast/function.go:304-333 | SetDone sets the done field, zeroes every local and parameter, and leaves the continuation, the mutex, the resume address and the result as they were. |
| GeneratorLayout.ContextBuilder.Build | compiler/ast/generator.go:37-145 | The loop that appends to types and idxmap while counting fields computes the layout function. |
| GeneratorLayout.ContextBuilder.SetVals | compiler/ast/generator.go:19-35 | The recursive walk that installs each node's field path installs exactly the table of the slots. |
| AwaitProtocol.WakeupExactlyOnce | compiler/ast/coro.go:51-95 | With any number of workers, in every reachable state, for the last await of every task, whatever it awaits and however often: if it saw the other task done, it is never pushed for that await; if it registered and no later registration took its place, it is parked (not queued, not held by any thread, not pushed) while the other is unfinished, and once the other is done it has been pushed exactly once for that await or the completer holding the lock is about to push it; if its registration was overwritten, it stays parked. |
| AwaitProtocol.PushesOne | runtime/coro/coro.calc:71-84 | With any number of workers, a completion pushes the task registered last and no other, exactly once: nothing is pushed before the task is done or when none is registered, and once it is done the push has been made or the completer holding the lock is about to make it. |
| AwaitExact.OverwrittenExactlyWhen | compiler/ast/coro.go:68-77 | A task loses its registration in the step that registers a further task where it stood, in no other step, and for good. |
| AwaitExact.OverwriteRun | compiler/ast/coro.go:68-77 | With any worker at all, two tasks that await a third one that is not done can lose a wakeup: a concrete run. |
| AwaitProgress.AllWokenInTheEnd | runtime/coro/coro.calc:71-93 | From any reachable state, whatever the order of the threads: the statements of awaits, returns and completions run out within a number computed from the state, and when no thread can go on, every task that registered with a task that is done, and was not overwritten, has been pushed exactly once for that await. |
| AwaitProgress.RestMeansAllWoken | runtime/coro/coro.calc:71-93 | When no thread can go on, every wakeup that is due has been given, no task is locked, and no thread is in the middle of an await or a completion. |
| AwaitProgress.StepsRunOut | compiler/ast/coro.go:51-95 | Every statement of an await, a return or a completion reduces the work left. |
| AwaitProtocol.RightToRunAlone | runtime/coro/coro.calc:107-120 | With any number of workers, in every reachable state one thread at most has the right to run a task, and none while it is queued, and no task completes twice. A thread gives the right away when it registers the task, although it has not left StepNext yet. |
| AwaitExact.SingleRunnerExactlyWhen | compiler/ast/coro.go:89-95 | Two threads can be inside the StepNext of one task, each with a write to the task to come, if and only if there are at least two workers and releasing the lock and storing the resume address are two steps, as they are in the code. |
| AwaitHistory.ResumesWithResult | compiler/ast/coro.go:89-121 | With any number of workers, on every run: whenever a compiled task is stepped, the task it has begun to await last is done, and its result field holds the value that some step of the run returned from it or completed it with, and no step returned another. With one worker, or with unlocking and storing the address as one step, the task goes on after exactly as many awaits as it has begun. |
| AwaitHistory.ResultIsReturned | compiler/ast/ast.go:962-981 | If a step of a run begins to return v from a task, or to complete a native task with v, then v is its result in every later state in which it is done. |
| AwaitHistory.DoneMeansReturned | compiler/ast/ast.go:962-981 | A task is done only after a step has returned from it or completed it, and its result is the value of that step. |
| AwaitHistory.GoesOnWrongExactlyWhen | compiler/ast/coro.go:89-95 | In some run a task goes on elsewhere than after the last await it has begun if and only if there are at least two workers and releasing the lock and storing the resume address are two steps, as they are in the code. |
| AwaitHistory.QueuedOnce | runtime/coro/coro.calc:71-93 | On every run, for each of its awaits a task joins the end of the queue at most once, and the wakeups and the awaited task in its record are those the run shows. |
| AwaitExact.StaleExactlyWhen | compiler/ast/coro.go:89-95 | A step from a stale resume address is reachable if and only if there are at least two workers and releasing the lock and storing the resume address are two steps, as they are in the code. |
| AwaitProtocol.NextKeeps | runtime/coro/coro.calc:71-93 | Every statement of await, return and completion, by any thread, in every setting, keeps the invariant that ties queue, locks, registrations, results and program counters together. |
| AwaitProtocol.Reached | runtime/coro/coro.calc:107-120 | The invariant holds along every run of any number of tasks, callback threads and workers, in the setting the code has and in the safe ones. |
| AwaitExact.StaleRun | compiler/ast/coro.go:89-95 | A concrete run of two workers and a callback: the second worker enters the task from its stale resume address while the first has yet to store the new one. |
| ModuleLoader.EmissionsInOrder | compiler/parser/parser.go:849-856 | Over any run on any import graph: no two emissions overlap, no module is emitted twice, and each emission begins only after those of everything it imports have ended. |
| ModuleLoader.GoesOnAfterEmission | compiler/parser/parser.go:788-794 | A file, or the compiler itself, goes on past an import only after the emission of that module has ended. |
| ModuleCycles.PanicsExactlyWhenCyclic | compiler/parser/parser.go:263-268 | In some order of loading the check of the father set fires if and only if the imports reachable from the roots form a cycle. |
| ModuleCycles.CycleMayHang | compiler/parser/parser.go:788-794 | A cycle may also go unnoticed: a concrete run in which two files of one module ask for two modules that import each other ends with nothing failed, nothing finished and nothing able to go on. |
| ModuleLoader.AcyclicNeverStuck | compiler/parser/parser.go:757-857 | On an acyclic graph no reachable state panics, every unfinished one can go on, and no run is longer than the number of things that can happen. |
| ModuleLoader.RunsAreBounded | compiler/parser/parser.go:788-801 | On any graph, cyclic ones included, every action happens at most once, so every run is finite. |
| ModuleLoader.FinishedEmitsAll | compiler/parser/parser.go:745-756 | A finished run has emitted exactly the modules reachable from the ones asked for. |
| ModuleLoader.FinishedMeansAcyclic | compiler/parser/parser.go:263-268 | A run that finishes proves the reachable imports acyclic. |
| ModuleLoader.FinishesExactlyWhenAcyclic | compiler/parser/parser.go:757-857 | Some run finishes if and only if the imports reachable from the roots form no cycle; with AcyclicNeverStuck every run then finishes. |
| ModuleLoader.NeverPanics | compiler/parser/parser.go:263-268 | On an acyclic graph the check of the father set never fires, whatever the interleaving. |
| ModuleLoader.StepKeeps | compiler/parser/parser.go:788-856 | Every step keeps the invariant on phases, waiting files, the emission lock and the emission order. |
| RedBlackTree.Tree.Insert | libuv_helper/uv/tree.h:597-626 | On a linked red-black search tree: returns the node that has the key, the argument itself if that is linked already, and keeps the contents, or puts exactly the new node at its place in the order; afterwards the tree is again linked both ways, in search order, with no red node below a red one, equal black heights and a black root. |
| RedBlackTree.Tree.Remove | libuv_helper/uv/tree.h:530-595 | Takes exactly the given node out of the order and returns it; the tree is again linked both ways, in search order and red-black. |
| RedBlackTree.Tree.Find | libuv_helper/uv/tree.h:628-644 | Returns the node with the key if and only if the tree has one linked. |
| RedBlackTree.Tree.Search | libuv_helper/uv/tree.h:604-614 | The descent ends at the node with the key or at the one empty place where it belongs: everything before the place is smaller and everything after it larger. |
| RedBlackTree.Tree.InsertColor | libuv_helper/uv/tree.h:407-449 | From a tree red-black but for a red node under a red parent to a red-black tree of the same order. |
| RedBlackTree.Tree.RemoveColor | libuv_helper/uv/tree.h:451-528 | From a tree one black node short below one place to a red-black tree of the same order. |
| RedBlackTree.Tree.RotateLeft | libuv_helper/uv/tree.h:342-360 | The six pointer updates rotate the linked tree below any context and keep the order and the nodes. |
| RedBlackTree.Tree.RotateRight | libuv_helper/uv/tree.h:362-380 | The mirror image of RotateLeft. |
| RedBlackTree.Tree.RemoveDouble | libuv_helper/uv/tree.h:539-594 | With two children the successor is unlinked, takes over the removed node's fields and links, and the colour is settled at the successor's old place. |
| RedBlackTree.Tree.RemoveSingle | libuv_helper/uv/tree.h:579-594 | With at most one child the child takes the node's place and the colour is settled there. |
| RedBlackTree.Tree.Promote | libuv_helper/uv/tree.h:559-570 | Copying the fields and relinking the neighbours puts one node in another's place in the linked tree. |
| RedBlackTree.Tree.InsertStep | libuv_helper/uv/tree.h:411-447 | One pass of the loop keeps the order and moves the red-red spot up or removes it. |
| RedBlackShape.StaysLow | libuv_helper/uv/tree.h:53-61 | A red-black tree of n nodes, as Insert and Remove leave it, has no path of more than 2 lg (n + 1) nodes. |
| RedBlackShape.CloseBalanced | libuv_helper/uv/tree.h:407-449 | A balanced subtree in a balanced context is a red-black tree. |
| RedBlackShape.OpenBalanced | libuv_helper/uv/tree.h:451-528 | The converse: a red-black tree splits at any place into a balanced subtree and a balanced context of some height. |
| RedBlackShape.RecoloredFits | libuv_helper/uv/tree.h:416-420 | With a red uncle, recolouring leaves a red grandparent that fits one level up. |
| RedBlackShape.RotatedLeftFits | libuv_helper/uv/tree.h:422-429 | With a black uncle, painting and rotating leaves a subtree that fits where the grandparent was. |
| RedBlackShape.BlackNephewsFit | libuv_helper/uv/tree.h:465-471 | With black nephews, painting the sibling red moves the shortage up one level. |
| RedBlackShape.RedSiblingFits | libuv_helper/uv/tree.h:460-464 | With a red sibling, painting and rotating keeps the shortage at the same node with a black sibling. |
| RedBlackShape.BorrowedBalanced | libuv_helper/uv/tree.h:483-489 | With a red outer nephew, painting and rotating ends the shortage. |
| RedBlackShape.SuccessorFits | libuv_helper/uv/tree.h:539-546 | The successor's place is balanced with its child in it, one short if the successor was black. |
| RedBlackShape.PlugInOrder | libuv_helper/uv/tree.h:320-336 | The order of a whole tree is what lies before a place, the subtree at it, and what lies after it. |
| RedBlackMemory.RotLLinked | libuv_helper/uv/tree.h:342-360 | The field updates of a rotation link exactly the rotated tree, parents included. |
| RedBlackMemory.SubstituteLinked | libuv_helper/uv/tree.h:559-570 | The field updates of a substitution link exactly the tree with the node replaced. |
| SplayTree.Tree.Splay | libuv_helper/uv/tree.h:209-242 | The loop ends; the in-order sequence of nodes is unchanged and the root has the key, or is the last node before its place or the first after it; nothing outside the tree changes. |
| SplayTree.Tree.Insert | libuv_helper/uv/tree.h:164-186 | Returns the node that has the key, the argument itself if that is linked already, and keeps the contents, or adds exactly the new node at its place in the order. |
| SplayTree.Tree.Remove | libuv_helper/uv/tree.h:188-207 | Takes out the one node with the argument's key and returns the argument, or returns null exactly when no node has the key. |
| SplayTree.Tree.Find | libuv_helper/uv/tree.h:126-137 | Returns the node with the key if and only if there is one, and keeps the order. |
| SplayTree.Tree.MinMax | libuv_helper/uv/tree.h:247-278 | Splaying to either end returns the first or the last node, null for an empty tree, and keeps the order. |
| SplayTree.Tree.JoinChildren | libuv_helper/uv/tree.h:197-202 | After splaying the left subtree for a key above it all, its root has no right child, so the right subtree can hang there and nothing is lost. |
| SplayTree.Tree.Assemble | libuv_helper/uv/tree.h:112-117 | Filling the holes of the two spines turns the state of a splay into one tree with the same order. |
| SplayTree.Tree.LinkLeft | libuv_helper/uv/tree.h:100-104 | Setting the root aside on the right keeps the order, and everything set aside stays above the key. |
| SplayTree.Absent | libuv_helper/uv/tree.h:132-136 | With a neighbour at the root and not the key itself, the key is nowhere in the tree. |
| SplayMemory.AssembledShaped | libuv_helper/uv/tree.h:112-117 | The four updates of assembling link exactly the two filled spines below the root. |
| SplayMemory.RotatedRight | libuv_helper/uv/tree.h:88-92 | A rotation of the tree in focus keeps both spines hanging from the header and the order of the whole. |
| EscapeAnalysis.Analysis.Search | compiler/ast/ast.go:681-690 | For any assignment graph, cycles included, and any order of the escape points, the search ends; a name is on the heap if and only if it was there before or is defined here and reached from an escape point through defined names, and an initialiser is flagged if and only if it was before or is recorded on a reached name. |
| EscapeAnalysis.Analysis.FindEsc | compiler/ast/ast.go:712-726 | Following one list, while lists are deleted as they are taken, handles the list, follows every list taken on the way to its end, and marks nothing that is not reached. |
| EscapeAnalysis.Analysis.FollowName | compiler/ast/ast.go:717-722 | A defined name is marked and its list taken and followed; a name whose list is gone is passed over at once. |
| EscapeAnalysis.Exact | compiler/ast/ast.go:681-690 | When every escape point has been searched, the marks are exactly the reached names and initialisers. |
| EscapeAnalysis.AlongPath | compiler/ast/ast.go:712-726 | After the search every name on a path from an escape point is marked, and its list is gone. |
| ExprRoundTrip.RoundTrip | compiler/parser/numeric.go:12-130 | For every tree of literals, unary signs, shifts, sums and products: printing with minimal parentheses and parsing gives the same tree and stops exactly at its end, whatever token that is no operator follows, or at the end of the input. |
| ExprPrecedence.Precedence | compiler/parser/numeric.go:59-118 | Of two operators between any three operands, the second is applied first exactly when the first is a shift and the second a sum or a product, or the first a sum and the second a product; in every other case the first. All seven token codes are consumed, and the parser stops behind the third operand. |
| ExprPrecedence.LiteralsGroup | compiler/parser/numeric.go:59-118 | The same for three literals: the tree for each of the 49 pairs of operators. |
| ExprPrecedence.OneOperator | compiler/parser/numeric.go:59-118 | Two operands with any of the seven operators between them are joined by it. |
| ExprPrecedence.OperandAlone | compiler/parser/numeric.go:59-118 | Behind an operand the parser stops at any token that is none of the seven operators. |
| ExprPrecedence.SignedOperand | compiler/parser/numeric.go:120-132 | A sign binds tighter than every binary operator and takes one literal. |
| ExprPrecedence.LeftParensGroup | compiler/parser/numeric.go:42-57 | A sum, product or shift in parentheses is one operand of the operator behind it. |
| ExprPrecedence.RightParensGroup | compiler/parser/numeric.go:42-57 | A sum, product or shift in parentheses is one operand of the operator before it. |
| ExprRoundTrip.Parsed | README.md:66-75 | Completeness for the whole grammar: any text of it, with variables, calls and initialisers as their parser reads them at their place and with any redundant parentheses, that no operator of its level or a tighter one follows is parsed to its tree and no further. |
| ExprRoundTrip.ParsesExactly | compiler/parser/numeric.go:59-117 | The parser of a level answers a tree and a place if and only if the tokens up to that place are a text of the grammar for that tree and no operator of its level or a tighter one follows. |
| ExprRoundTrip.Sound | compiler/parser/numeric.go:59-117 | Soundness: whatever is parsed is a text of the grammar with that tree, left associative on all levels, and no operator of its level follows. |
| ExprRoundTrip.Unambiguous | README.md:66-75 | Two texts of the grammar at the same place, neither followed by an operator, are the same text and have the same tree. |
| ExprRoundTrip.PlainUnambiguous | README.md:66-75 | Two texts without variables, calls and initialisers that read the same have the same tree, whatever stands around them. |
| ExprGrammar.ShownShortest | README.md:66-75 | Printing uses as few parentheses as possible: no text of the grammar for the same tree is shorter. |
| ExprGrammar.Shown | README.md:66-75 | The printed text is one of the grammar and stands for the tree. |
| ExprParser.Parser.ParseExp | compiler/parser/numeric.go:80-98 | The loop over shifts finds what the recursive description of the level finds, panics exactly when that fails, and leaves the lexer where that stops. |
| ExprParser.Parser.ParseAddedFactor | compiler/parser/numeric.go:99-117 | The same for sums. |
| ExprParser.Parser.ParseFactor | compiler/parser/numeric.go:59-79 | The same for products, with the source's guard, whose end-of-input test covers only the first operator. |
| ExprParser.Parser.ParseSymbol | compiler/parser/numeric.go:119-130 | A sign takes a number, not another sign; otherwise the lexer goes back and a number is parsed. |
| ExprParser.Parser.ParseNumber | compiler/parser/numeric.go:12-57 | The fallback order string, variable or initialiser, number, parenthesis, with the lexer restored between the attempts. |
| ExprParser.Parser.ScanType | compiler/lexer/lexer.go:242-264 | Answers the text exactly when the next token has the code, and otherwise leaves the position, up to the end of the input, as it was. |
| ReadStream.RunConserves | runtime/libuv/tcp.calc:160-216 | Over any run of reads, allocations and data callbacks, at most one read outstanding: the delivered bytes followed by the window are the bytes of the callbacks that found a reader waiting; each request of the run is answered in turn with exactly its length; a reader waits only while there is less than it asked for, except for a first read of nothing. |
| ReadStream.NextConserves | runtime/libuv/tcp.calc:160-216 | Each of the three events keeps that. |
| ReadStream.AllAcceptedExactlyWhen | runtime/libuv/tcp.calc:186-198 | The bytes received have all been accepted if and only if every data callback of the run found a reader waiting; the others are dropped. |
| ReadStream.Tcp.ReadBuf | runtime/libuv/tcp.calc:163-182 | The job of ReadBufAsync, with its pointer updates, does the step of the abstract stream: served at once when enough bytes wait, except that the first read waits. The abstract stream reads the delivered buffers from memory, so earlier deliveries have not changed. |
| ReadStream.Tcp.DataArrives | runtime/libuv/tcp.calc:183-212 | Received bytes join the window and may complete the read, or are dropped when no reader waits; earlier deliveries have not changed. |
| ReadStream.Tcp.AllocCB | runtime/libuv/tcp.calc:84-93 | With a buffer there, the space offered is of the suggested size and lies behind the window inside the block, the same block or a fresh one; without, no space is offered. Window and deliveries stay. |
| ReadStream.Tcp.LoopReads | runtime/libuv/tcp.calc:84-212 | An allocation callback for n bytes followed by a data callback with at most n bytes, as the loop calls them, does to the connection what the arrival of those bytes does. |
| ReadStream.Tcp.Fill | runtime/libuv/tcp.calc:84-93 | Writing received bytes into the space offered changes neither the window nor any delivered buffer. |
| ReadStream.Buffer.PreWrite | runtime/libuv/buf.calc:34-46 | Makes room behind the window, in a fresh block when there is too little, and leaves the old block as it is. |
| ReadStream.Buffer.Write | runtime/libuv/buf.calc:16-32 | Appends to the window, in a fresh block when there is too little room, bytes from anywhere they do not overlap, its own block included, and changes nothing before the window. |
| ReadStream.StillHeld | runtime/libuv/tcp.calc:186-212 | Bytes written behind the window, and further blocks, change no buffer handed out. |
| SchedulerPool.RunKeeps | runtime/coro/coro.calc:107-120 | On every run of any number of workers and other threads, spurious wakeups included: while a worker sleeps, queued tasks do not outnumber the workers awake without a task, but for one whose signal is due; no shift meets an empty list; the mutex is held by exactly the thread between its lock and unlock. |
| SchedulerPool.StartedInOrder | runtime/coro/coro.calc:107-120 | On every run, the tasks that workers have gone on to step, the one in hand and the queue are, in order, the tasks that QueueTask was called with, in the order in which the calls pushed: none lost, none started twice, no other started. |
| SchedulerPool.EveryCallPushes | runtime/coro/coro.calc:46-52 | On every run each call of QueueTask pushes its task once, or has yet to push it. |
| SchedulerPool.RunsWhatItStarted | runtime/coro/coro.calc:115-118 | On every run a worker runs the task it started until StepNext returns false, also while that task is in a call of QueueTask. |
| SchedulerPool.NextConserving | runtime/coro/coro.calc:46-52 | Every step keeps the bound on queued tasks; a signal that finds no sleeper is no loss. |
| SchedulerPool.NextShiftSafe | runtime/coro/coro.calc:110-115 | Every step keeps that a thread about to shift finds a task. |
| SchedulerPool.NextInOrder | runtime/coro/coro.calc:110-116 | What a step starts, has in hand and leaves in the queue is what was in hand and in the queue before, and what the step pushes. |
| SchedulerPool.NeverStuck | runtime/coro/coro.calc:107-120 | While a task is queued and there is a worker, some thread can go on without a wakeup or a further call. |
| SchedulerPool.AllTasksStarted | runtime/coro/coro.calc:107-120 | From any state of a run with a worker, whatever the order of the steps: without new calls of QueueTask and spurious wakeups the threads come to rest within a number of steps computed from the state, and at rest every task that QueueTask was called with has been started, each as often as it was queued. |
| SchedulerPool.StepsRunOut | runtime/coro/coro.calc:107-120 | Every step but a new call and a spurious wakeup reduces the work left. |
| SchedulerPool.RestMeansAllStarted | runtime/coro/coro.calc:107-120 | When no thread can go on, the tasks started are the tasks pushed, in order, and as a multiset those of all calls of QueueTask. |
| SchedulerPool.RestMeansIdle | runtime/coro/coro.calc:107-120 | When no thread can go on, all workers sleep, no other thread is in the scheduler, and the queue is empty. |
| LockOrder.DeadlocksExactlyWhen | runtime/libuv/uv.calc:49-57 | The threads of the runtime can come to wait for each other in a circle if and only if event jobs call QueueEvJob. |
| LockOrder.NestsExactlyWhen | runtime/coro/coro.calc:71-93 | A thread of some run can hold one lock while it asks for another if and only if the first comes before the second in the order event mutex, task lock, scheduler mutex. |
| LockOrder.UsedAlone | runtime/coro/coro.calc:46-84 | On every run, jobs that queue jobs included, no two threads are at statements that use the task queue, the job list or the same task. |
| LockOrder.RunExclusive | runtime/coro/coro.calc:46-84 | On every run no lock is held twice, by two threads or by one. |
| LockOrder.NoCycle | runtime/coro/coro.calc:46-84 | With calls nested as the code nests them, no threads wait for each other's locks in a circle, of any length. |
| LockOrder.InRankOrder | runtime/coro/coro.calc:71-93 | A thread that waits for a lock holds only locks that come before it in the order event mutex, task lock, scheduler mutex. |
| LockOrder.RunNested | runtime/libuv/evqueue.calc:13-21 | Every run of calls and statements of any number of threads keeps every call stack nested in that way. |
| LockOrder.HolderGoes | runtime/coro/coro.calc:71-84 | Behind every thread that waits, however long the chain of holders, is a thread that can go on. |
| LockOrder.JobQueuesJob | runtime/libuv/uv.calc:49-57 | A run in which the callback waits for the mutex it holds, because a job queued a job. |
| EventQueue.RunKeeps | runtime/libuv/evqueue.calc:13-21 | On every run: a non-empty list implies a pending wakeup, a running drain, or a sender between its push and its send; the list is only shifted when not empty; the mutex is held by exactly the thread between its lock and unlock. |
| EventQueue.CalledInOrder | runtime/libuv/uv.calc:49-57 | On every run, the jobs called, the one about to be called and the list are, in order, the jobs that QueueEvJob was called with, in the order in which the calls pushed: none forgotten, none called twice, no other called. |
| EventQueue.EveryCallPushes | runtime/libuv/evqueue.calc:13-21 | On every run each call of QueueEvJob pushes its job once, or has yet to push it. |
| EventQueue.AllJobsRun | runtime/libuv/uv.calc:49-57 | From any state of a run, whatever the order of the steps, the threads come to rest within a number of steps computed from the state if no further job is queued, and at rest every job that QueueEvJob was called with has been called, each as often as it was queued. |
| EventQueue.NextHeeded | runtime/libuv/evqueue.calc:13-21 | Every step keeps that a job in the list is not forgotten, although wakeups coalesce. |
| EventQueue.NextInOrder | runtime/libuv/uv.calc:49-57 | What a step calls, has in hand and leaves in the list is what was in hand and in the list before, and what the step pushes. |
| EventQueue.RestMeansAllRan | runtime/libuv/evqueue.calc:13-21 | When no thread has anything left to do, the jobs called are the jobs pushed, in order, and as a multiset those of all calls of QueueEvJob. |
| EventQueue.StepsRunOut | runtime/libuv/uv.calc:49-57 | Every step but a new call reduces the work left. |
| TypeFixpoint.EndsExactlyWhen | compiler/ast/ast.go:769-780 | The retry loop ends if and only if the mentions other than self-reference are all defined or known and form no cycle; then it ends within as many passes as there are definitions, with all of them in the table, whatever their order. |
| TypeFixpoint.Globals.CalcGlobals | compiler/ast/ast.go:769-780 | The loop itself ends for such definitions, leaves every definition in the table and no placeholder, after at most as many passes as definitions. |
| TypeFixpoint.Globals.DefFunc | compiler/ast/types.go:510-558 | An attempt succeeds exactly when every mention is known, in the table or the type itself; a failed attempt leaves no placeholder behind and the rest of the table as it was. A second definition of a name keeps the entry of the first when it succeeds and takes it out when it fails. |
| TypeFixpoint.Globals.TryAll | compiler/ast/ast.go:771-776 | One pass computes the pass function: later definitions see those defined earlier in the pass, and exactly the failed ones are kept, in order. |
| TypeFixpoint.PassShrinks | compiler/ast/ast.go:769-780 | While any is left, a pass over resolvable definitions defines at least one. |
| TypeFixpoint.PassesRank | compiler/ast/ast.go:769-780 | What has been defined after any number of passes can be ranked so that every mention has a lower rank. |
| LinkedList.List.Push | runtime/linkedlist/linkedlist.calc:32-46 | The contents become the old ones followed by the value; links, ends and length agree. |
| LinkedList.List.UnShift | runtime/linkedlist/linkedlist.calc:17-29 | The contents become the value followed by the old ones. |
| LinkedList.List.Shift | runtime/linkedlist/linkedlist.calc:60-65 | Takes and returns the first value. |
| LinkedList.List.Pop | runtime/linkedlist/linkedlist.calc:66-70 | Takes and returns the last value. |
| LinkedList.List.Remove | runtime/linkedlist/linkedlist.calc:74-90 | Takes out the node at any place, first, last, only or inner, and nothing else. |
| LinkedList.List.IndexOp | runtime/linkedlist/linkedlist.calc:51-58 | The walk ends at the right value for every index in range. |
| LinkedList.List.WalksAgree | runtime/linkedlist/linkedlist.calc:5-15 | The walk along next from the first node and the walk along prev from the last give the same sequence, the contents. |
| LinkedList.RemovedLinked | runtime/linkedlist/linkedlist.calc:74-90 | Linking a node's neighbours to each other links exactly the sequence without it, forward and back. |
| GrowableSlice.Slice.Push | runtime/slice/slice.calc:23-43 | The contents gain the value; with room left only the slot behind the end is written, with none the slice moves to a fresh larger block, leaves the old one alone, and the recursive call finds room. |
| GrowableSlice.Slice.Append | runtime/slice/slice.calc:45-63 | A new slice with a block of its own holds both contents; neither operand changes. |
| GrowableSlice.Slice.Part | runtime/slice/slice.calc:66-72 | The part shares the block and shows that stretch of the contents, with all room behind its beginning. |
| GrowableSlice.Slice.IndexSetOp | runtime/slice/slice.calc:17-21 | Writes one slot of the block, for every slice that shares it. |
| GrowableSlice.PushOnPart | runtime/slice/slice.calc:23-43 | A push on a part replaces the whole's element behind the part when the part ends inside, and leaves the whole's contents alone otherwise. |

## Left out

- GeneratorExact.KeptExactlyWhen: definitions in else branches and init clauses of loops are outside `GeneratorCorrect.Fragment`: they get no slot, so their variables live in StepNext's own stack frame, whose contents a later call does not find. Stack frames are not modelled.
- GeneratorExact.KeptExactlyWhen: await statements get slots in the layout but are outside the fragment; their suspension is the subject of `AwaitProtocol`. Break and continue, which an inner loop leaves with the wrong targets, return, closures and calls are not modelled.
- GeneratorExact.KeptExactlyWhen: bodies of an if that end with the end block of an if inside are excluded there, because running a block again may come out the same (`SetOnceKept`); `LoweringMeans` says what they do and `KeptWhenNeverFalling` when they do no harm.
- GeneratorExact.YieldInIfNotJoined, ReturnsExactlyWhen: a block without a terminator is not valid LLVM IR, and a program that has one is rejected further down. In the model the block is run all the same and its end is `Stuck`: that a call never returns, or leads nowhere, means this there.
- GeneratorDirect: a variable declared again in a loop body keeps its value, as the emitted code does, and a name that resolves to nothing reads zero and stores nowhere, where the compiler panics.
- Integer widths, floats, implicit casts and pointers in generated code: values are unbounded integers and storage is a map from field paths.
- AwaitHistory.ResumesWithResult: that a task continues where its last await left it holds with one worker, or when releasing the awaited task's lock and storing the own resume address are one step; `GoesOnWrongExactlyWhen` shows that it fails in every other setting, the code's own with several workers included. The other results hold in all settings.
- AwaitProtocol.RightToRunAlone: does not say that one thread at a time is inside a task's StepNext, because with several workers and the two separate statements of the code that is false (`SingleRunnerExactlyWhen`).
- AwaitProtocol.WakeupExactlyOnce: promises no wakeup to a task whose registration was overwritten, because the code gives it none (`OverwrittenExactlyWhen`, `OverwriteRun`).
- AwaitProgress.AllWokenInTheEnd: that a task which is registered on is ever completed is up to the code of that task or to a callback, and is not promised.
- AwaitProtocol: one completion per native task is assumed. Tasks await any task any number of times, and a second registration on an unfinished task overwrites the first, as in the code, because a task has one nextTask field. Tasks made by Run never complete and are not awaited; the word cleared in TryQueueContinuous belongs to a local value and is not modelled.
- AwaitProtocol: pushes to and fetches from the task queue are single steps there; `SchedulerPool` models the mutex and the condition variable.
- ModuleLoader: reading directories and files, cloning and parse errors; every module asked for is assumed to have at least one source file. The order of imports in a file is fixed although Go's map order varies; the results hold for each order.
- TypeFixpoint: in the loop names are distinct (what a redefinition does to the table is in `DefFunc`), and generic definitions, which are kept apart, are not modelled; what a definition's body computes is reduced to the names it looks up.
- EscapeAnalysis: how the assignment lists, the escape points and the closure variables are collected from the statements; the search takes them as they come.
- ExprParser: variables, calls, array and struct initialisers and dereferences are one parameter of the input that fails on literals and parentheses and otherwise consumes something; whether a number literal has a value (strconv and ParseInt) is another. The lexer is modelled at the level of tokens.
- ReadStream: read errors and ends of stream (nread <= 0), several readers at once, and the start of reading; requested lengths are not negative. Readers are assumed not to write into buffers they were given.
- LockOrder.DeadlocksExactlyWhen: waiting for a signal of the condition variable is not waiting for a lock; that no worker sleeps on while tasks are queued is in `SchedulerPool`.
- EventQueue: jobs run to their end and do not queue jobs themselves, which would block (`LockOrder`); the handshake when the loop starts is not modelled.
- SplayTree.Tree.Remove: returns the argument and not the node taken out, as the code does, which matters when the two differ.
- RB_NFIND, RB_NEXT, RB_PREV, RB_MINMAX, SPLAY_NEXT and the augmentation hook of the trees: easier walks over the same structures.
- LinkedList: links of removed nodes are left as they are, as in the code; what a caller that keeps such a node sees is not stated.
- GrowableSlice: 32-bit lengths, negative indices and the missing bounds checks; indices are in range.
- LLVM instruction emission, llir types, trampolines, interface tables, generic instantiation, garbage collection, and the internals of libuv and pthread.
