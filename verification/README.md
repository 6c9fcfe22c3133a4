# Models of Spoq2, with proofs

Spoq2 lowers LLVM control flow into a functional specification language and shrinks specifications before anything is
proved about them.  This project models the parts of it that carry theorems, and proves them.  `dafny verify dfyconfig.toml`
checks all of it.

| file | what it models |
|---|---|
| ControlFlow | clone-and-split of an acyclic region, in place; merging of bridges |
| LoopExits | the exits of a loop led through one postheader and a chain of comparisons |
| SpoqIR, Structuring, GraphRuns | the structured lists, and the walk that builds them from the graph; the graph run edge by edge, which is what the lists are held against |
| LoopLowering, NeverStuck, Frontend | lists to terms, one recursive Fixpoint for each loop; when no register without a value is read; the two translations in a row |
| LoopScoping | which values loops are passed and pass out |
| FlagEncoding | the older translation: break, continue and return as flags in result tuples, loops as a Fixpoint on fuel |
| LeftBreaks | the breaks of inner loops that the older translation leaves pending: what its terms do then, and exactly when that is what the code does |
| InputOutput, ReadingOrder, WrongLists | the analysis that notes which names ifs and loops of the older translation carry along; exactly when its lists are right; what happens when they are not |
| StateSpec, Slicing, BranchMerge | specifications over a record state; hiding writes; merging branches; the loop of both |
| FieldAncestors, ConeOfInfluence | the closure of "lives in"; the backward analysis of fields |
| Bits, MaskAbstraction, PatternMatch | packed words and their fields; rewriting by patterns |
| Canonical, QueryCache | canonical names in solver queries; the cache of answers and its file |
| Examples | a counting loop that meets the hypotheses of the translation results |
| CallGraph, Layering | cycle breaking, reachability, generations and layers of the call graph |

Code that changes things step by step is a class with those fields, or a method with its loops (the block graph, the loop
context, the core map, the cache, queues and counters), proved against specification functions; code that builds terms by
recursion is functions.

Where code and comments disagree the model follows the code: the comment on `recursive_update_pass`
(include/SpoqIRModule.h:500) has pass_in and pass_out the wrong way round.

What the proofs turned up, each with a lemma that shows it:

- `merge_branch` builds `X && Y` and `X && !Y` for the two shapes with the inner `if` in the else branch; `X || Y` and `!X && Y` are needed.
- `is_subfield_of_anyone` only looks downward: a write to a record around an interesting field is hidden.
- The field analysis does not follow the value written into a map.
- In the older translation an inner loop with a break ends the loop around it in the round in which it is first entered,
  and passes over what stands after the next `if` with a break in it.
- A name set in an inner loop with a break and read after it in the round is lost: the analysis does not collect what is
  read after such a loop.
- The analysis of inputs and outputs goes by the order of the text: a name set in two `if`s one after the other may be
  lost, a name set before a loop and in it but not read in it starts from the default, and the code after an outermost
  loop does not ask whether the loop has ended.
- `add_core_map` compares stored terms by address: a pattern that mentions a hole twice never matches.
- The cache file cannot be read back past a statement that contains a closing brace.

## Model

| member | source | states |
|---|---|---|
| ControlFlow.SplitIsFaithful | src/frontend/SpoqIRCFG.cpp:72-104 | For every branch oracle, running a region after clone-and-split executes exactly the instructions it executed before and ends at the same header or return; every block that can still be reached before a stop is entered by one edge only |
| ControlFlow.Region.CloneAndSplit | src/frontend/SpoqIRCFG.cpp:72-104 | In place, on any acyclic region: what hangs below the block becomes a tree whose blocks have one incoming edge each; no old block changes its unfolding, blocks finished with earlier keep their branches, and the tree has exactly as many blocks as the unfolding of the region, which is what cloning leaves unchanged and termination counts; where no two edges meet nothing is changed at all |
| ControlFlow.Region.SplitTarget | src/frontend/SpoqIRCFG.cpp:80-91 | A branch target in which two edges meet gets a full copy and the branch leads to the copy; for any other target the graph stays as it is; afterwards nothing else leads to the target and no block has changed its meaning |
| ControlFlow.Region.Duplicate | src/frontend/SpoqIRCFG.cpp:37-70 | Every block reachable from the original up to the stops gets one copy; copies are distinct new blocks with the code of their originals, their branches lead to copies (or to stops), originals are untouched |
| ControlFlow.Region.CopyTargets | src/frontend/SpoqIRCFG.cpp:50-63 | One block taken from the queue: afterwards each of its targets to be cloned has a copy, and the search has lost track of none |
| ControlFlow.Region.RemapInstructions | src/frontend/SpoqIRCFG.cpp:66-67 | Redirecting the branches of all copies at once completes the duplicate: copies lead to copies, nothing else changes, the region stays acyclic |
| ControlFlow.Region.CloneSubgraph | src/frontend/SpoqIRCFG.cpp:83-87 | Cloning a target and what is below it doubles that part of the graph and leaves every old block as it was |
| ControlFlow.RetargetFolds | src/frontend/SpoqIRCFG.cpp:82-88 | The graph after cloning and redirecting one edge maps onto the graph before by forgetting which copy a block is |
| ControlFlow.ExpandFolds | src/frontend/SpoqIRCFG.cpp:37-91 | Whenever one graph maps onto another in this way, every block unfolds to the same tree in both |
| ControlFlow.RunIsWalk | src/frontend/SpoqIRCFG.cpp:72-104 | Executions of the graph are walks through the unfolded tree, for every oracle |
| ControlFlow.Region.Convert | src/frontend/SpoqIRCFG.cpp:147-154 | One step of the conversion makes the region of the function or of one loop a tree, whatever blocks it has |
| ControlFlow.Region.MergeBridge | src/frontend/SpoqIRCFG.cpp:8-35 | In place, from any block and through all that can be come to from it: chains are spliced until no block is followed by a lone single-predecessor block outside the headers; all executions keep their instructions, blocks dealt with earlier keep their bodies, and joins stay joins |
| ControlFlow.MergeIsFaithful | src/frontend/SpoqIRCFG.cpp:182-186 | After merging from the start of a region every run is the run it was, for every oracle, and no path at all leads to a bridge any more |
| ControlFlow.SpliceFlow | src/frontend/SpoqIRCFG.cpp:20-25 | Splicing a bridge into its predecessor changes no execution of any remaining block |
| ControlFlow.MergedTwice | src/frontend/SpoqIRCFG.cpp:26-32 | Merging composes: what one merge has finished with, a later one leaves finished |
| LoopExits.FlowGraph.NormaliseLoop | src/frontend/SpoqIRCFG.cpp:287-329 | Every exit edge of the loop leads to the new postheader, whose phi node says by which exit; the chain of comparisons and the renamed phi entries send each exit on to where it went, exit 0 from the last block, and no target notes a value for the exit block itself |
| LoopExits.FlowGraph.BuildChain | src/frontend/SpoqIRCFG.cpp:318-329 | The chain has one comparison for each exit but exit 0, in order; every phi entry of a target is moved from its exit block to the chain block that now sends control there, none is left for the exit block, and no other phi entry changes |
| LoopExits.FlowGraph.RedirectExit | src/frontend/SpoqIRCFG.cpp:294-315 | The single outgoing edge of an exiting block is found and led to the postheader; the exit number is the value of the phi node for that block |
| LoopExits.SameTrace | src/frontend/SpoqIRCFG.cpp:287-329 | For every oracle and any number of steps, the sequence of old blocks seen, with the values of their phi nodes, is the same before and after |
| LoopExits.ChainLeads | src/frontend/SpoqIRCFG.cpp:318-329 | From any place of the chain before its own comparison, exit number i lands on the target of exit i with the phi value of its old exit block |
| LoopExits.ChainEnds | src/frontend/SpoqIRCFG.cpp:318-329 | The chain never gets lost: whatever the phi node holds, control leaves the new blocks after at most one step for each |
| LoopExits.StillLeaves | src/frontend/SpoqIRCFG.cpp:241-244 | Leading the exits of an outer loop elsewhere leaves each inner or disjoint loop with the one way out it had from each of its exiting blocks |
| LoopExits.NormaliseAll | src/frontend/SpoqIRCFG.cpp:241-329 | All loops, outer ones first: afterwards the exiting blocks of every loop lead inside or to new blocks only, and every run of the whole function sees the same old blocks and phi values |
| Structuring.DfsFaithful | src/frontend/SpoqIRTranslator.cpp:82-149 | Executing the list built from a block simulates running the graph from it: same results, same state, continue from the same latch, break from the same exiting block, for every depth of nested loops and every fuel; if no loop forgets registers, both end in exactly the same way |
| Structuring.RoundFaithful | src/frontend/SpoqIRTranslator.cpp:151-165 | The same for any number of rounds of one loop, header phi nodes moved at each round |
| GraphRuns.RegionRuns | src/frontend/SpoqIRTranslator.cpp:82-149 | Running a region, inner loops as one instruction, is running the graph edge by edge with nothing said of regions or loops: a latch is where the run takes the edge to the header, a break where it takes the edge to the postheader, with the same registers and state; without enough fuel the run goes on for at least as many steps |
| GraphRuns.RoundRuns | src/frontend/SpoqIRTranslator.cpp:151-165 | The same for the rounds of a loop, its phi nodes set on entry and from each latch |
| GraphRuns.FunctionRuns | src/frontend/SpoqIRTranslator.cpp:82-169 | A whole function ends, run edge by edge, as it does when run by regions; phi nodes stand at headers and postheaders only, as the program asserts |
| Structuring.StructureControlLast | src/frontend/SpoqIRTranslator.cpp:84-148 | If, continue, break, return and unreachable stand only last in a list, at every depth |
| Structuring.Dfs | src/frontend/SpoqIRTranslator.cpp:82-149 | The recursive walk that pushes into a vector appends exactly the list of the specification function, for every region that is acyclic apart from back edges |
| Structuring.LlvmIrToSpoqIr | src/frontend/SpoqIRTranslator.cpp:151-169 | Stepping through the function and its loops in any order gives one list for the function and one for each loop, each with control last |
| LoopLowering.LowerCorrect | src/frontend/SpoqIRTranslator.cpp:963-1037 | The term for a list evaluates to what executing the list gives, at every nesting of loops: results on return, None when undefined, a break tuple with the values of the loop, a tail call that is the next round on continue |
| LoopLowering.LoopCorrect | src/frontend/SpoqIRTranslator.cpp:976-1028 | Applying the generated Fixpoint to arguments that stand for the registers of the loop gives the break tuple exactly when the loop is left by a break, for any number of rounds |
| LoopLowering.LoopBecomesFixpoint | src/frontend/SpoqIRTranslator.cpp:1001-1010 | Called with the values at the preheader, the Fixpoint returns Some exactly when the loop breaks and None exactly when it is undefined; the pattern then binds every passed-out value and postheader phi to its value, and the loop's own registers, passed-in values and header phis, to what they held when it was left |
| LoopLowering.ParamsDistinct | include/SpoqIRModule.h:799-843 | No name occurs twice among the parameters, nor in the pattern of the call |
| LoopLowering.ArgsAgree | include/SpoqIRModule.h:823-843 | Argument list and parameter list name the same value at the same position |
| LoopLowering.TransferArgs | include/SpoqIRModule.h:852-873 | The argument list of the entering call and of a continue stands for the registers after the header phi nodes have been set in parallel from that predecessor |
| LoopLowering.BreakTupleVals | include/SpoqIRModule.h:763-791 | Every position of the break tuple holds the value it is for: passed-in values and header phis what their registers hold when the loop is left, passed-out values and postheader phis likewise; only values without a definition at that exit are left open |
| LoopLowering.PatternOfParams | include/SpoqIRModule.h:799-843 | The name of a register after the loop stands in the pattern exactly where the register stands among the parameters |
| LoopLowering.AfterHolds | include/SpoqIRModule.h:763-815 | Binding the pattern to the break tuple gives the name that each register of the loop has after it the value the register had when the loop was left |
| LoopLowering.HandedOn | include/SpoqIRModule.h:852-873 | A call from inside the loop hands on the passed-in values and the dummies under their own parameters, only the header phis get new values |
| LoopLowering.EnteredWith | src/frontend/SpoqIRTranslator.cpp:1001-1005 | A call from outside passes in the values themselves and the undefined value for the dummies |
| LoopLowering.LeaveAgrees | include/SpoqIRModule.h:799-815 | Binding the pattern to the break tuple gives an environment that agrees with the registers after the loop on everything that may be read then, and shadows no outer value |
| LoopLowering.ExecFrame | src/frontend/SpoqIRTranslator.cpp:976-1037 | Executing a list, loops in it included, changes only the registers it is recorded to set |
| LoopLowering.FunctionCorrect | src/frontend/SpoqIRTranslator.cpp:963-1037 | For a whole function: the specification returns what the lists return, is None when they are undefined, and runs out of fuel when they do |
| Frontend.GraphToSpecification | src/frontend/SpoqIRTranslator.cpp:82-169 | Graph to terms in one statement: unless the lists read a register without a value, the specification and the graph come to the same results and state |
| Frontend.RunToSpecification | src/frontend/SpoqIRTranslator.cpp:82-169 | What the graph ends with when run edge by edge is what the specification gives, results, state and undefinedness, with any fuel if it gives anything and always with as much fuel as the run has steps; if it gives anything the run ends |
| Frontend.SureSpecification | src/frontend/SpoqIRTranslator.cpp:82-169 | The condition that no register without a value is read can be told from the lists: they read only what is known, and after a loop only what the loop has set whichever way it has been left; then graph and specification agree for every machine, argument and fuel |
| Frontend.GraphIsSpecification | src/frontend/SpoqIRTranslator.cpp:82-169 | When no loop is left with registers forgotten, well-scoped lists are enough: the specification and the graph come to the same results and state, and the graph reads no register without a value |
| Frontend.AnyFuel | src/frontend/SpoqIRTranslator.cpp:82-169 | The fuel does not matter: once the graph has come to an end, the specification comes to the same end with any fuel that is enough for it, and as much as the graph has had is enough |
| NeverStuck.SureRuns | src/frontend/SpoqIRTranslator.cpp:82-169 | A list in which only known registers are read never reads a register without a value and never leaves a loop but by a break, however often and by whichever exits its loops are gone through |
| NeverStuck.ScopedIsSure | src/frontend/SpoqIRTranslator.cpp:82-169 | Lists whose loops forget nothing are sure if they are scoped |
| Examples.CountsDownIsTranslated | src/frontend/SpoqIRTranslator.cpp:82-169 | A function with a counting loop, given as a graph, meets every hypothesis of the two translations and of the run edge by edge |
| LoopScoping.LoopContext.RecursiveUpdatePass | include/SpoqIRModule.h:506-526 | One use: the value is added to pass_out of exactly the loops around the definition but not the use, to pass_in of exactly those around the use but not the definition, and never twice |
| LoopScoping.LoopContext.AddPassOut | include/SpoqIRModule.h:536-542 | The value is in the list of that loop once, other lists and the order stay |
| LoopScoping.LoopContext.PassAnalysis | src/frontend/SpoqIRCFG.cpp:191-225 | The recursive walk extends both lists by exactly the sites met on it, whatever was in them before |
| LoopScoping.SitesIff | src/frontend/SpoqIRCFG.cpp:191-225 | The sites of a walk are the uses in the blocks that some path comes to, with the loops that path has entered and not left |
| LoopScoping.LoopsIff | src/frontend/SpoqIRCFG.cpp:191-225 | The loops of a walk are those that some path comes to |
| LoopScoping.Analyse | src/frontend/SpoqIRCFG.cpp:191-225 | From empty lists: a value is in a list if and only if some non-phi use on a path of the walk demands it, no list repeats a value, and every such operand can be routed in scope from its definition to its use |
| LoopScoping.OperandInScope | include/SpoqIRModule.h:499-526 | From the loop of the definition outwards by pass_out and inwards by pass_in there is an unbroken route to the use |
| FlagEncoding.TranslateCorrect | src/frontend/ir2spec.cpp:466-853 | For every body whose noted lists cover what is read later, loops in loops and their breaks included, the term with flags evaluates to what the run it makes gives: same values for every needed name, the flag of the exit taken set, the others clear, same state, None where that run is undefined.  That run is direct execution, except that the break of an inner loop stays pending and ends the outer loop at the next if with a break in it, the next continue or the end of the round |
| FlagEncoding.BranchCorrect | src/frontend/ir2spec.cpp:806-853 | An if whose branches break, continue or return: the rest is skipped exactly when a branch has left |
| FlagEncoding.LoopCorrect | src/frontend/ir2spec.cpp:854-1048 | A loop at any depth, with its initial arguments, its Fixpoint, and what follows it; an inner loop with a break that runs out of fuel gives None, one that breaks leaves its values and its break pending |
| FlagEncoding.FixCorrect | src/frontend/ir2spec.cpp:921-990 | The Fixpoint with fuel n, which runs the earlier rounds first, is the body iterated n times until a break or return, inner loops with breaks included |
| FlagEncoding.RoundsFromFirst | src/frontend/ir2spec.cpp:964-966 | Running the earlier rounds first and the body afterwards is the same as counting rounds from the first one |
| FlagEncoding.FixIsStationary | src/frontend/ir2spec.cpp:931-951 | Once the break or return flag is set, every larger fuel gives the same tuple |
| FlagEncoding.StillRunning | src/frontend/ir2spec.cpp:1011-1014 | If the fuel runs out first: a loop whose only statement is a continue, or an if or loop that hands on nothing but the continue flag, gives None, and so does one with the break flag among its outputs, which every covered loop within a loop with a break has; any other one lets the code after it go on in the state the rounds have reached, with their values for the inputs and for what only the code after the loop reads |
| FlagEncoding.InitValues | src/frontend/ir2spec.cpp:903-912 | A loop starts with its flags unset, its inputs at their values and everything else at 0 |
| FlagEncoding.LoopLeft | src/frontend/ir2spec.cpp:1011-1048 | If a loop breaks within its fuel, the code after it goes on in the state of the loop with its values for all that is read later, and with the break flag set, which a loop within a loop leaves pending |
| FlagEncoding.FunctionCorrect | src/frontend/ir2spec.cpp:466-503 | A whole function: the term returns value and state of the run it makes, and None where that is undefined |
| FlagEncoding.Untouched | src/frontend/ir2spec.cpp:806-848 | Names not among the assigned ones keep their values through ifs and loops, whatever break is pending, so outputs need not list them |
| FlagEncoding.ExitsTell | src/frontend/ir2spec.cpp:812-833 | Whatever way the code is left, the flag for it is among the collected exits |
| LeftBreaks.NotMetSame | src/frontend/ir2spec.cpp:466-853 | As long as no loop within a loop with a break in it is met, the run the term makes is direct execution |
| LeftBreaks.FunctionRuns | src/frontend/ir2spec.cpp:466-503 | So for a function whose run meets none the returned value and state of the term are those of direct execution, and undefined calls give None |
| LeftBreaks.FunctionRightIff | src/frontend/ir2spec.cpp:466-503 | For any function: the term gives the result of direct execution if and only if the run it makes has the same outcome |
| LeftBreaks.RunIsCutShort | src/frontend/ir2spec.cpp:812-848 | Up to the point where the term leaves for a pending break both runs are the same, and from there direct execution goes on with exactly the code the term passes over, if the loops before that point take the same rounds in both |
| LeftBreaks.SameEndIff | src/frontend/ir2spec.cpp:812-848 | So a list ends alike in both runs if and only if nothing is passed over, or what is passed over breaks as well and changes nothing |
| LeftBreaks.RoundsAreCutShort | src/frontend/ir2spec.cpp:921-990 | The rounds of a loop in which an inner loop is met: the term is out after the first such round, direct execution goes on with the code passed over and the rounds after it |
| LeftBreaks.LoopAlikeIff | src/frontend/ir2spec.cpp:921-990 | For every loop, covered lists, all arguments and any fuel: the Fixpoint gives the result of direct execution if and only if the run the term makes has got to the same end, state and values of what is read then |
| LeftBreaks.LoopRightIff | src/frontend/ir2spec.cpp:921-990 | With an inner loop met in round k: the Fixpoint gives the result of direct execution if and only if nothing of that round is passed over, or what is passed over and the rounds after it leave the loop by a break with the same state and the same values of what is read later |
| LeftBreaks.TwoDeepRound | src/frontend/ir2spec.cpp:921-990 | If breaks stand no more than two loops deep, the condition on the rounds of inner loops always holds in the round an inner loop is first met in, unless direct execution runs out of fuel there |
| LeftBreaks.InnerLoopStops | src/frontend/ir2spec.cpp:942-951 | Finding: up to the round in which a loop within the loop with a break in it is first entered, wherever it stands in the body, the Fixpoint goes on as the run does; from that round on every fuel gives the same tuple |
| LeftBreaks.SameRoundsIff | src/frontend/ir2spec.cpp:921-990 | So term and run take the same number of rounds if and only if the run leaves the outer loop in the very round in which it first enters such an inner loop |
| LeftBreaks.BreakSticks | src/frontend/ir2spec.cpp:812-848 | Finding: once the break flag is set on entry, no code in the loop clears it |
| LeftBreaks.NestedBreakGoesWrong | src/frontend/ir2spec.cpp:1011-1014 | Counterexample: two nested loops that both break; direct execution ends with 2, the term with 1 |
| LeftBreaks.NeverMeets | src/frontend/ir2spec.cpp:1160-1298 | Code in which no loop within a loop has a break never meets one, so this can be read off the text |
| ReadingOrder.AnnotateCoversIff | src/frontend/ir2spec.cpp:1160-1298 | For all well-shaped code in which nothing is read undefined, and in which a loop within a loop finds set what its text reads first: the lists noted for ifs and loops, those within loops included, cover what is read later if and only if the text tells what runs read, a condition on the code before it is analysed that mentions no lists |
| ReadingOrder.ToldCovers | src/frontend/ir2spec.cpp:1160-1298 | If the text tells what runs read, the lists noted for every if and every loop at any depth cover what is read later on any path, whatever way the statement is left, and what is live in the annotated code is what a run may read; this is the hypothesis the flag encoding is proved under |
| ReadingOrder.CoversIsTold | src/frontend/ir2spec.cpp:1160-1298 | The other way round: if the noted lists cover what is read later, then what an if sets and a run may read after it is read in the text after it or all that it sets is handed on; what a loop sets and is read after it is read in the text after it, or first in its own text if the loop may leave the round it stands in; and whatever a round may read is read first in the text of its loop |
| ReadingOrder.AnnotateKeepsBreak | src/frontend/ir2spec.cpp:1198-1230 | The lists noted within a loop hand the break flag on through every if and loop of the body |
| ReadingOrder.TidyIsTold | src/frontend/ir2spec.cpp:1160-1298 | A simpler test: if a name set in an if or a loop and set again later is read before that, a loop reads first in its text what its rounds may read first, and a loop that may leave the round it stands in reads first what it sets and the text after it reads, the text tells what runs read |
| ReadingOrder.LiveIsRead | src/frontend/ir2spec.cpp:1180-1185 | A name that some run reads before setting it, and that the text nowhere sets, is read in the text, so the textual scan cannot miss it |
| ReadingOrder.AnalysedFunctionCorrect | src/frontend/ir2spec.cpp:1077-1136 | A function of which the text tells what runs read, analysed and translated: the term returns value and state of the run it makes, and None where that is undefined |
| ReadingOrder.AnalysedFunctionRuns | src/frontend/ir2spec.cpp:1077-1136 | It returns what direct execution returns, and None when a call is undefined, as long as no inner loop with a break is met |
| ReadingOrder.AnalysedFunctionRightIff | src/frontend/ir2spec.cpp:1077-1136 | And if one is met, if and only if the run the term makes has the same outcome |
| ReadingOrder.OuterLoopSameRounds | src/frontend/ir2spec.cpp:921-990 | For analysed code: an outer loop that enters an inner loop with a break gets the same tuple from every larger fuel, wherever the inner loop stands, and takes as many rounds as the run if and only if the run leaves it in that round |
| ReadingOrder.OuterLoopRightIff | src/frontend/ir2spec.cpp:921-990 | For analysed code with breaks no more than two loops deep: such a loop gives state and needed values of direct execution if and only if nothing of the round in which the inner loop is first met is passed over, or what is passed over and the rounds after it leave the loop by a break with the same state and the same values of what is read later |
| InputOutput.ScanOne | src/frontend/ir2spec.cpp:1351-1407 | The recursive scan adds exactly the names read before they are set in the text, and all names set, to the two sets it is given |
| InputOutput.ScanAround | src/frontend/ir2spec.cpp:1306-1331 | Scanning what stands before or after a list, piece by piece, accumulates the same two sets |
| InputOutput.AnalyseOne | src/frontend/ir2spec.cpp:1161-1297 | One statement with everything around it: its output, initialisation, input and argument lists are those of the functional specification |
| InputOutput.AnalyseLoop | src/frontend/ir2spec.cpp:1237-1286 | The body of a loop is gone through twice, and the second pass, between the arguments of the loop, gives the same lists as if there had been no first one |
| InputOutput.AnalyseFunction | src/frontend/ir2spec.cpp:1300-1304 | A whole function with its parameters |
| InputOutput.AnnotateForgets | src/frontend/ir2spec.cpp:1251-1286 | Annotating annotated code is annotating the code: earlier notes have no influence |
| InputOutput.NoQuestionAfterLoop | src/frontend/ir2spec.cpp:1011-1014 | Finding: the break flag is not among the outputs of a loop that stands in no other, so the code after it never asks whether the loop has ended |
| InputOutput.NeverEnds | src/frontend/ir2spec.cpp:918-919 | An analysed loop whose one statement sets nothing but the continue flag, as the text shows, has no result for any rank, machine, environment and code after it |
| InputOutput.OnlyContinuesIff | src/frontend/ir2spec.cpp:918-919 | The test of the translation on the noted lists of an analysed body comes out exactly if the text has one statement that sets nothing but the continue flag |
| InputOutput.ReadFirstIff | src/frontend/ir2spec.cpp:1334-1407 | A name counts as set if the text, gone through from beginning to end with the branches of an if one after the other, sets it anywhere, and as read if the text uses it at some place before which it is not set |
| InputOutput.IfNotedAt | src/frontend/ir2spec.cpp:1161-1236 | The lists of an if, told by the text before, in and behind it: handed on is what it sets and is read later before it is set again, all it sets if it may leave the round, and the return flags; to be initialised is what of this has not been set before |
| InputOutput.LoopNotedAt | src/frontend/ir2spec.cpp:1237-1297 | The lists of a loop, told by the text: besides the same outputs, its arguments are what is read in it, what it sets and is read later unless it may leave the round, and its flags; its inputs are what is read in it and set before |
| WrongLists.NeverLeftGoesOn | src/frontend/ir2spec.cpp:1011-1014 | Counterexample: a loop that is never left, whatever its rank: the run is out of fuel, and yet the term returns 1 |
| WrongLists.SetTwiceRightIff | src/frontend/ir2spec.cpp:1409-1419 | Finding, for all guards, values and machines: a name set in one if and perhaps again in a second counts as set by the second, so the first does not hand it on; term and run agree if and only if the first is not taken, the second is, or the values are the same |
| WrongLists.SetTwiceIsNotTold | src/frontend/ir2spec.cpp:1409-1419 | This code is well-shaped, and the condition of the exact theorem fails for it |
| WrongLists.SetBeforeRightIff | src/frontend/ir2spec.cpp:902-912 | Finding, for all values, operations and machines: a name set before a loop and in it but not read in it starts the loop with the default; when the run ends, term and run agree if and only if the loop sets the name before it is left or the prior value is the default |
| WrongLists.NestedBreakAnalysed | src/frontend/ir2spec.cpp:1011-1014 | The lists of the counterexample with nested loops are those the analysis notes: analysed and run the code ends with 2, analysed and translated with 1 |
| WrongLists.PassedOverRightIff | src/frontend/ir2spec.cpp:1011-1014 | Finding, for all values, guards, machines and ranks: after an inner loop that breaks at once, `if c then break; x := v; break` never sets x in the term; it returns what the run returns if and only if c is taken or v is the value x has, and if c is not x itself, x starts from the default besides |
| WrongLists.PassedOverIsTold | src/frontend/ir2spec.cpp:1160-1298 | This code is well-shaped; with x as the guard its lists are right by the exact theorem, so what goes wrong there is the flag alone; with another guard they are not |
| WrongLists.LostRightIff | src/frontend/ir2spec.cpp:1177-1196 | Finding: the analysis never collects what is read after a loop within a loop with a break; a name set there and read after it in the round is lost, run and term return v and the default, and agree if and only if v is the default |
| WrongLists.LostIsNotTold | src/frontend/ir2spec.cpp:1177-1196 | This code is well-shaped, and the condition of the exact theorem fails for it |
| Examples.CountsDownIsTold | src/frontend/ir2spec.cpp:1160-1298 | A function with a counting loop in the older form: analysed and translated it returns what it returns when run, for every meaning of its operation and every rank |
| Examples.DeadStoreIsTold | src/frontend/ir2spec.cpp:1160-1298 | A name set in an if and overwritten before it is read is told, although the test on the text alone refuses it |
| Slicing.SlicingIsSound | src/optimizations/coi.cpp:438-461 | For a field set closed under the reads that matter (of conditions, relies, arguments of calls, returned values and kept writes, back through lets), with no hidden field above a kept one: every run takes the same branches before and after hide_write, and the returned states agree on every path to a kept field |
| Slicing.SliceSame | src/optimizations/coi.cpp:438-461 | The same for two environments that agree, up to hidden fields, on the names that matter only, through lets, calls and branches |
| Slicing.HiddenCounterIsClosed | src/optimizations/coi.cpp:394-420 | Example: a counter nobody is interested in, counted up by way of a name bound to it, is hidden and the set is closed although the slice still reads it for that name |
| Slicing.DeadLet | src/optimizations/coi.cpp:394-420 | A name nobody asks for in the slice costs nothing: what it is bound to is neither read nor hidden |
| Slicing.HideSame | src/optimizations/coi.cpp:440-458 | Hiding writes inside an expression changes its value in hidden fields only, whatever the names hold that are gone with them |
| Slicing.SameAgrees | src/optimizations/coi.cpp:47-56 | Values equal but for hidden fields agree on every path that ends in a kept field or below one, provided nothing kept lies below a hidden field |
| Slicing.HiddenFieldsAreNotKept | src/optimizations/coi.cpp:47-56 | A write is hidden only if its field is neither interesting nor below an interesting one |
| Slicing.HideWriteShows | src/optimizations/coi.cpp:438-461 | No hidden write is left anywhere in a sliced specification, and one without hidden writes stays as it is |
| Slicing.BelowInterestIsKept | src/optimizations/coi.cpp:47-56 | A path that comes to an interesting field leads to a kept one, however far it goes on below it, and a write along it is not hidden |
| Slicing.ElseNotKept | src/optimizations/coi.cpp:47-56 | A field that is neither interesting nor below an interesting one is not kept, and a write to it is hidden |
| Slicing.WriteAboveKept | src/optimizations/coi.cpp:47-56 | Counterexample: a write to a record that holds a kept field is hidden, and the kept field changes |
| Slicing.WriteIsHarmlessIff | src/optimizations/coi.cpp:445-453 | A write along a path leaves what is read along another path unchanged for all values if and only if the first path is not a prefix of the second |
| BranchMerge.MergeKeepsState | src/optimizations/coi.cpp:488-574 | Rewriting the same-state shape and the two then-nested shapes anywhere in a specification keeps the returned state for every environment |
| BranchMerge.NodeKeepsState | src/optimizations/coi.cpp:488-510 | The three correct shapes at one node, and all nodes left alone |
| BranchMerge.SameStateMerged | src/optimizations/coi.cpp:494-501 | Where both branches return the same state no if is left, and that state is returned |
| BranchMerge.NodeMerges | src/optimizations/coi.cpp:488-574 | A node of one of the five shapes loses an if, every other node stays as it is |
| BranchMerge.FullyMergedIff | src/optimizations/coi.cpp:488-574 | Merging changes nothing if and only if none of the five shapes is found anywhere in the specification |
| BranchMerge.ReturnSameIff | src/optimizations/coi.cpp:464-486 | Two branches return the same if both are None or both are Some with the same state, unless that is a constant on its own |
| BranchMerge.ElseNestedKeepsStateIff | src/optimizations/coi.cpp:511-534 | The two else-nested shapes keep the state in exactly the environments where both conditions agree or the remaining branch happens to return the same state |
| BranchMerge.ElseNestedGoesWrong | src/optimizations/coi.cpp:511-534 | Counterexamples for both shapes |
| BranchMerge.ElseNestedIntended | src/optimizations/coi.cpp:511-534 | With a disjunction of the conditions, and with the second one under the negated first, both shapes keep the state always |
| BranchMerge.MergeShrinks | src/optimizations/coi.cpp:596-621 | A round of merging that changes anything lowers the number of ifs and record writes |
| BranchMerge.HideWriteShrinks | src/optimizations/coi.cpp:596-621 | So does hiding writes, which is also idempotent |
| BranchMerge.MergeKeepsSlice | src/optimizations/coi.cpp:596-621 | Merging brings no hidden write back |
| BranchMerge.CoiReduction | src/optimizations/coi.cpp:581-624 | The loop ends, no larger than the input, with no hidden write and none of the five shapes left anywhere; if in the slice no if in an else branch returns what the then branch may return, and the set is closed, the returned state is the same outside hidden fields for every environment and every machine that treats hidden fields alike |
| FieldAncestors.CollectFieldAncestors | src/libs/project.cpp:963-1018 | The result is exactly the transitive closure of: a field lives in a record that another field, or a map in it, holds |
| FieldAncestors.CollectFathers | src/libs/project.cpp:969-999 | The two tables and their join give exactly the direct relation, maps of records included |
| FieldAncestors.Close | src/libs/project.cpp:1001-1018 | The rounds end, with a relation that contains the first one, is transitive, and holds no pair without a chain |
| FieldAncestors.ComposeAll | src/libs/project.cpp:1004-1016 | One round finds exactly the missing compositions |
| FieldAncestors.PathsAreKnown | src/libs/project.cpp:963-1018 | Every path through the records is one whose later fields are all known to lie below its earlier ones, which is what slicing is proved for |
| ConeOfInfluence.AnalyzeConeOfInfluence | src/optimizations/coi.cpp:371-436 | With unique, well-scoped binders the worklist ends without an unexpected symbol; it finds what the branch conditions, returned states and kept writes of the specification read, through the names bound above them, for the seeds, and nothing the specification does not read for what is found; reported are the white list and what is found but the empty chain and the black list |
| ConeOfInfluence.WorkBounds | src/optimizations/coi.cpp:394-420 | From the branch conditions and returned states, the queue that follows names to the expressions they are bound to comes to exactly this: all that a definition by recursion on the specification asks for the seeds, and nothing that it does not ask for the result |
| ConeOfInfluence.NeedsFound | src/optimizations/coi.cpp:223-317 | Going through an expression while the set grows finds all that it reads for the set as it was |
| ConeOfInfluence.FoundNeeded | src/optimizations/coi.cpp:223-317 | And nothing but what it reads for the set as it is in the end |
| ConeOfInfluence.UsedIsRead | src/optimizations/coi.cpp:92-163 | The chains noted for an expression, none of them empty, hold exactly the fields it reads outside the writes in it |
| ConeOfInfluence.AlongPath | src/optimizations/coi.cpp:65-90 | The chain of a read along a path is that of a write along the path, and the value is what the state holds there |
| ConeOfInfluence.KeyIsNoStep | src/optimizations/coi.cpp:76-84 | A look into a map on the way is no step of the path, but what its key uses is noted |
| ConeOfInfluence.ContainsIff | src/optimizations/coi.cpp:33-45 | One chain is found in another if and only if the other is it with something before and after |
| ConeOfInfluence.WorkKeeps | src/optimizations/coi.cpp:394-420 | From any queue of known nodes the search ends and only adds to the set |
| ConeOfInfluence.NodeDone | src/optimizations/coi.cpp:395-419 | Why it ends: replacing a node by the sources of its symbols lowers the weight of the queue, although the queue may grow |
| ConeOfInfluence.SourcesAbove | src/optimizations/coi.cpp:178-216 | The source of every name along a path only has names bound above it |
| ConeOfInfluence.InitOk | src/optimizations/coi.cpp:322-354 | All nodes the search starts with have known sources |
| ConeOfInfluence.PassBounds | src/optimizations/coi.cpp:281-287 | One pass keeps all chains but the empty one, adds what the specification reads for them, and adds nothing but what it reads for the result, all of it chains that occur in the specification |
| ConeOfInfluence.FindFixpoint | src/optimizations/coi.cpp:278-293 | Repeating passes over a recursive definition ends at a set that another pass leaves unchanged: with every field in it what the specification reads for that is in it; it stays between the seeds and the chains of the specification; the global black list is consulted at every read, and calls of definitions being visited are passed over |
| ConeOfInfluence.MapValuesAreMissed | src/optimizations/coi.cpp:264-273 | Finding, for every expression stored: the value written into a map is not followed, so the set reported is the same whatever is stored, and the slice is closed if and only if what remains of the stored value reads no field whose writes are left out |
| Bits.AddDisjoint | src/frontend/SpoqIRAbstraction.cpp:88-94 | Numbers without a common bit add bit by bit |
| Bits.SameBits | src/frontend/SpoqIRAbstraction.cpp:48-57 | Two numbers with the same bits are the same number |
| MaskAbstraction.ComputeAndMask | src/frontend/SpoqIRAbstraction.cpp:39-98 | Whenever a term is generated it equals packed & mask for every record in range; it is generated if and only if the mask covers fields wholly, at least one of them, or is a run of low bits strictly inside the field at 0 |
| MaskAbstraction.MaskedPack | src/frontend/SpoqIRAbstraction.cpp:42-56 | Masking a packed word by whole fields leaves the packed word of those fields |
| MaskAbstraction.PackBit | src/frontend/SpoqIRAbstraction.cpp:42-56 | Each bit of a packed word is the bit of the one field whose range it is in |
| MaskAbstraction.ComputeAndMaskEq | src/frontend/SpoqIRAbstraction.cpp:123-188 | The generated conjunction holds if and only if every fully covered field meets its own condition; nothing is generated if and only if none is covered |
| MaskAbstraction.MaskEqExactIff | src/frontend/SpoqIRAbstraction.cpp:130-145 | With a constant result the conjunction is equivalent to (packed & mask) = result for all records if and only if the mask touches no field in part and the result has no bit outside the covered fields |
| MaskAbstraction.MaskEqSymbolicIff | src/frontend/SpoqIRAbstraction.cpp:146-177 | With a symbolic result the division form is exact if and only if the result has no bits below any covered rich field |
| MaskAbstraction.ComputeOr | src/frontend/SpoqIRAbstraction.cpp:256-285 | The record term overwrites exactly the fields the flag touches, with the bits of the flag there; none is generated if and only if it touches no field |
| MaskAbstraction.OrExactIff | src/frontend/SpoqIRAbstraction.cpp:263-282 | Packing that record equals the bitwise or of packed word and flag if and only if the flag has no bit outside the fields and brings back all bits the touched fields held |
| MaskAbstraction.ComputeUpgradeOr | src/frontend/SpoqIRAbstraction.cpp:214-234 | The new record has the raw word in its rich field and the bits of the flag in all others |
| MaskAbstraction.UpgradeExactIff | src/frontend/SpoqIRAbstraction.cpp:214-234 | Packing it equals the bitwise or of raw word and flag if and only if the flag has no bit outside the fields and none in the rich field that raw lacks |
| PatternMatch.MatchMeans | src/frontend/SpoqIRAbstraction.cpp:301-380 | If matching succeeds, the raw pattern with its holes filled has the value of the term, cached lets looked through, in every environment that is consistent with the cache; matching ends because the cache is acyclic |
| PatternMatch.InstanceMatches | src/frontend/SpoqIRAbstraction.cpp:301-380 | A pattern in which no hole occurs twice matches each of its instances and finds exactly what its holes were filled with |
| PatternMatch.MatchesIff | src/frontend/SpoqIRAbstraction.cpp:301-380 | A pattern with distinct holes matches a term, names looked up in the cache through chains of names wherever the pattern has an operator, if and only if that term is an instance of it, and finds exactly what its holes are filled with there |
| PatternMatch.AppliedIff | src/frontend/SpoqIRAbstraction.cpp:416-438 | An abstraction with such a pattern is applied to exactly the terms that unfold to an instance of it for which it does not decline, and builds its abstract term for just that instance |
| PatternMatch.NeverAborts | src/frontend/SpoqIRAbstraction.cpp:358-374 | The program fails in matching only if the pattern has a negation of more or less than one part, and fails where such a one meets a constant |
| PatternMatch.HoleIff | src/frontend/SpoqIRAbstraction.cpp:317-331 | A name in the pattern stands for any term if it is the core or a hole, and else for itself only |
| PatternMatch.RepeatedHoleNeverMatches | include/SpoqIRModule.h:107-116 | Finding: stored terms are compared by address, so a pattern with a hole twice matches nothing |
| PatternMatch.MatchContext.CheckPattern | src/frontend/SpoqIRAbstraction.cpp:301-380 | The recursion that fills the core map in place computes the functional matcher, aborts included |
| PatternMatch.ConstructMeans | src/frontend/SpoqIRAbstraction.cpp:382-414 | Putting the core into the abstract term means binding the abstract core to its value |
| PatternMatch.ApplyAbstraction | src/frontend/SpoqIRAbstraction.cpp:416-447 | The first abstraction that matches and does not decline is applied, earlier ones having been passed over, and the term keeps its value whenever raw and abstract terms agree for every core |
| Canonical.CanonDecides | src/optimizations/z3_pcache.hpp:35-58 | Two statements have the same canonical form if and only if, line breaks aside, they share skeleton and sigils and an injective renaming of index strings maps one to the other |
| Canonical.CanonIdempotent | src/optimizations/z3_pcache.hpp:35-58 | Canonicalising twice is canonicalising once |
| Canonical.CanonNumbers | src/optimizations/z3_pcache.hpp:35-58 | In the canonical form variables keep their places and sigils, repeat themselves where they did, and a variable that comes for the first time has the next number, from 1 on |
| Canonical.LexFindsVariables | src/optimizations/z3_pcache.hpp:42-43 | The variables found from left to right are those that stand anywhere in the statement: a sigil, an x and all digits that follow |
| Canonical.StripJoins | src/optimizations/z3_pcache.hpp:38-40 | Line breaks, and nothing else, are taken out |
| Canonical.RenumberSame | src/optimizations/z3_pcache.hpp:45-54 | Renumbering gives equal pieces exactly for equal shapes with indexes repeating in the same places, from any common history |
| Canonical.PatternIsRenaming | src/optimizations/z3_pcache.hpp:45-54 | Repeating in the same places is being related by an injective renaming |
| Canonical.LexPrint | src/optimizations/z3_pcache.hpp:42-43 | Reading back printed pieces gives the pieces, provided digits do not follow an index |
| Canonical.PrintLex | src/optimizations/z3_pcache.hpp:42-43 | Printing what has been read gives the statement back |
| Canonical.DecIsNumber | src/optimizations/z3_pcache.hpp:53-53 | The decimal form of a number is digits with that value, so different numbers are printed differently |
| Canonical.RenumberAll | src/optimizations/z3_pcache.hpp:45-56 | The loop with the table of seen indexes and the counter numbers pieces by first occurrence |
| Canonical.Parse | src/optimizations/z3_pcache.hpp:35-58 | The whole method computes the canonical form |
| QueryCache.SMTHashMapCache.Lookup | src/optimizations/z3_pcache.hpp:201-218 | For any hash function, a lookup answers with the first result put or loaded for a statement of the same canonical form, else -1, and counts hits and queries |
| QueryCache.SMTHashMapCache.Put | src/optimizations/z3_pcache.hpp:220-230 | A put appends to the history and its record to the file; the file still holds the records of all that was loaded or put, and the history can still be reloaded if the statement has no closing brace and no zero character |
| QueryCache.BucketHas | src/optimizations/z3_pcache.hpp:146-151 | A bucket holds exactly the entries whose statements have its hash |
| QueryCache.FirstLineEnds | src/optimizations/z3_pcache.hpp:180-184 | Of the file the text up to the first line break or zero character is read |
| QueryCache.BucketIsEnough | src/optimizations/z3_pcache.hpp:201-218 | Searching one bucket finds what searching the whole history finds |
| QueryCache.SMTHashMapCache.LoadFromFile | src/optimizations/z3_pcache.hpp:173-199 | Loading adds the records of the file behind what is in the buckets, in order, and answers 1, exactly if there is a file whose records all parse; it answers 0 without a file and -1 on a loaded cache, and then changes nothing |
| QueryCache.RecordParses | src/optimizations/z3_pcache.hpp:86-127 | A printed record parses back anywhere in a file, to the place behind it, if its statement has no closing brace |
| QueryCache.RecordsParse | src/optimizations/z3_pcache.hpp:185-196 | So do concatenated records, in order |
| QueryCache.ReloadIff | src/optimizations/z3_pcache.hpp:86-127 | Reloading printed records gives them back if and only if no statement has a closing brace |
| QueryCache.ReadNumber | src/optimizations/z3_pcache.hpp:78-84 | The integer reader passes over space, takes a sign and digits as far as they go, and gives that number if an int holds it; otherwise it throws |
| QueryCache.ReadNothing | src/optimizations/z3_pcache.hpp:78-84 | It throws on a text without digits |
| QueryCache.ReadShow | src/optimizations/z3_pcache.hpp:78-84 | The integer reader undoes the integer printer over the whole range of int, and throws on any other printed number |
| QueryCache.BracesAreForgotten | src/optimizations/z3_pcache.hpp:60-76 | Finding: a statement with a closing brace is never found after reloading |
| QueryCache.ParseNextString | src/optimizations/z3_pcache.hpp:60-76 | The pointer loop stops at the first closing brace after the opening one |
| QueryCache.ParseFromTheFirstLiteralRecord | src/optimizations/z3_pcache.hpp:86-119 | The pointer loop computes the functional record parser, including the inputs on which it throws or never ends |
| QueryCache.Reopen | src/optimizations/z3_pcache.hpp:163-199 | A cache built from the file of a reloadable history, such as any run of puts without closing braces and zero characters leaves, answers every query as the first cache does, even with another hash function |
| CallGraph.Dfs | scripts/preprocessing/gen-layer-llvm.py:302-316 | The search appends exactly the walks that run into themselves, and says whether there is one |
| CallGraph.FindCycle | scripts/preprocessing/gen-layer-llvm.py:318-324 | The cycles found are exactly those walks from the source functions |
| CallGraph.BreakCycle | scripts/preprocessing/gen-layer-llvm.py:326-330 | The function chosen is the last one on the walk that calls anything |
| CallGraph.NoCycleLeft | scripts/preprocessing/gen-layer-llvm.py:437-442 | Once those functions are bottom, no walk from the top through functions that are not bottom repeats a function |
| CallGraph.ComputeReachable | scripts/preprocessing/gen-layer-llvm.py:332-348 | The queue finds exactly the functions that can be reached without passing through a sink |
| Layering.BreakCycles | scripts/preprocessing/gen-layer-llvm.py:437-442 | Bottom only grows, by functions that close a cycle, each of them added once, and all cycles are broken |
| Layering.CountCallers | scripts/preprocessing/gen-layer-llvm.py:353-360 | The counters hold the number of callers that are reachable and not bottom |
| Layering.GetTopologicalSteps | scripts/preprocessing/gen-layer-llvm.py:350-378 | Every reachable function enters the queue exactly once, none before all of its callers have been taken out, and each step is the queue as it was then |
| Layering.AllQueued | scripts/preprocessing/gen-layer-llvm.py:363-373 | No reachable function is left waiting, because a waiting one would give an endless walk without repetition |
| Layering.CalleeIsLater | scripts/preprocessing/gen-layer-llvm.py:363-373 | A callee is in no snapshot that ends before its caller has been taken out |
| Layering.ComputeLayers | scripts/preprocessing/gen-layer-llvm.py:380-408 | The index jumps read every generation back; each function gets one layer and stands in that layer once, bottom functions layer 0, tops the highest, no layer is empty, and a function of a later generation stands strictly lower |
| Layering.NumberStep | scripts/preprocessing/gen-layer-llvm.py:386-397 | One generation numbered, and whether it counts as a layer |
| Layering.LayersAbove | scripts/preprocessing/gen-layer-llvm.py:363-397 | Hence every caller that is not bottom stands strictly above each of its callees that is not bottom |
| Layering.ComputeConfig | scripts/preprocessing/gen-layer-llvm.py:410-451 | The whole configuration: cycles broken, reachable set exact, every reachable or bottom function in one layer, bottom at 0, tops on the highest, no layer empty, callers strictly above callees; tops may be recursive, and may be called by functions that are not reached, are at the bottom, or are put there for ending a cycle |

## Left out

- ControlFlow.Region.CloneAndSplit: a nested loop is one edge from its preheader to its postheader, as `require_jump` treats it; the copying of nested loops themselves, `update_jump`, `fix_headers`, `travel_all` and the phi nodes folded away afterwards are not modelled, nor is `callbr`.
- ControlFlow.Region.MergeBridge: phi entries are not modelled there, and a nested loop is one edge.
- ControlFlow.Region.Convert: the order of the steps is the caller's; positions in a topological order are stored with the blocks to say that a region is acyclic, the code never reads them.
- LoopExits.NormaliseAll: the fake exit of an endless loop, a preheader shared by two loops and an exiting block that returns are not modelled; each block has one phi node.
- Structuring.DfsFaithful: phi nodes are listed beside the blocks; loop and region of a block are given; without the condition that nothing is forgotten the list may get stuck on a register the analysis says has no value, which `NeverStuck.SureRuns` rules out.
- LoopLowering.LowerCorrect: single instructions are uninterpreted operations; types, names of symbols, relies and the term cache are not modelled, and an undefined value reads as 0.
- LoopScoping.Analyse: uses in phi nodes, which the code skips; the instructions of a preheader itself, which the code does not look at either.
- FlagEncoding.TranslateCorrect: that the noted lists cover what is read later is a hypothesis (`Covered`), and `AnnotateCoversIff` says exactly when the analysis meets it; frames of local memory, function pointers, relies inside values and default values other than 0 are not modelled.
- ReadingOrder.AnnotateCoversIff: exits come last in their lists and all returns are of one kind; the direction from lists to text asks of loops within loops that what their text reads first is set before them. That lists which do not cover all reads give a wrong value depends on the values; `SetTwiceRightIff`, `SetBeforeRightIff`, `PassedOverRightIff` and `LostRightIff` say when, for these shapes.
- InputOutput.AnalyseOne: the difference that gives the names to initialise is taken as one of sets; the code takes it of lists whose first two entries are put in front of sorted ones.
- FlagEncoding.LoopCorrect: about the run the term makes, in which the break of an inner loop stays pending; exactly when its result is that of direct execution is said by `LeftBreaks.LoopAlikeIff`, and in terms of the code passed over by `LeftBreaks.LoopRightIff`, which asks of breaks more than two loops deep that the inner loops themselves take the same rounds in both runs.
- FlagEncoding.FunctionCorrect: says nothing when a loop needs more rounds than its rank, an inner loop with a break excepted; `StillRunning` says what happens then.
- Slicing.SlicingIsSound: closedness of the set is a hypothesis, since one pass over a definition does not establish it; what is demanded is followed through names, not through the fields of a record held in one; calls are assumed to treat hidden fields alike.
- BranchMerge.CoiReduction: terms are compared by structure, where the code compares printed text; determinacy marks are not modelled.
- ConeOfInfluence.AnalyzeConeOfInfluence: calls of other specifications are not followed, and the properties of relies are not collected, as in the code.
- ConeOfInfluence.FindFixpoint: the iteration for one recursive specification, with the definitions being visited given; the sets found for the specifications it calls are not added.
- MaskAbstraction.ComputeAndMask: numbers are unbounded, shifts do not overflow at 64 bits; the branch for masks of high bits is not reached for masks that are not negative and is not modelled.
- MaskAbstraction.ComputeAndMaskEq: the mask is a constant; the code dereferences a null pointer otherwise.
- MaskAbstraction.OrExactIff: for flags that do not touch a rich field; the code would store a number where a record is expected.
- PatternMatch.MatchMeans: operators are uninterpreted apart from unary minus.
- QueryCache.Reopen: a file is a string or missing; other programs do not write to the file.
- QueryCache.SMTHashMapCache.LoadFromFile: when a record cannot be read the program stops or never ends; what it has in memory then is not stated.
- Layering.ComputeConfig: parsing of the program, the filters for printing and external functions and the conversion of dots to underscores; top functions are distinct, none is called by a reachable function that stays above the bottom, and callees are listed once. scripts/preprocessing/gen-layer.py has the same algorithm over another input.
- The junctions between `LoopScoping.Analyse` and the scoping of the lists, and between the tree left by `Region.CloneAndSplit` and `Structuring.Region`, are hypotheses: the two sides model the graph at different grain.
- Loop forest, dominance and undefined-value sets are inputs, as computed by LLVM.
- `select` elimination, memory, inline assembly, pointer arithmetic on types, integer overflow.
- Solver calls, the grammar and the printers, type inference, decomposition, invariants, the generic rewrite rules and the proof scripts.
