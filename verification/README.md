# libpcap's packet-filter compiler, in Dafny

libpcap turns a filter expression into a program for the classic BPF machine. This project models the
three parts that have to agree, and proves that they do:

- the code generator, which builds a control-flow graph with its unresolved branches kept as linked
  lists inside the graph itself, and allocates scratch registers for arithmetic;
- the optimizer's analyses and rewrites over that graph, and the emitter that lays the graph out as an
  array of instructions with 8-bit jumps;
- the machine that runs the program and the checker that vets it.

Two neighbours are modelled beside them: the 802.11 address tests built on the generator, and the
capture loop that feeds packets to the machine, with its zero-copy buffer hand-over.

How the C program appears here:

- A `struct block *` is an index into a sequence (`Store` while code is generated, `Graph` afterwards);
  the null pointer is `NIL`. Acyclicity is a rank that falls along every edge (`Ranked`).
- A word is an integer below 2^32, and every place where C wraps says `Wrap`. Bitwise operators work on
  the 32 bits one at a time.
- A run of statements ends in `Next` (go on), `Reject` (a load outside the packet or a division by an X
  that is 0 ends the filter with result 0) or `Trapping` (what C leaves undefined). `RunGraph` is the
  meaning of a graph and `Run` that of a flat program; everything else is measured against these two.
- Marks and bit vectors are sets. Code that updates in place is a class or a method with loops, proved
  against a specification function or predicate; specifications and their theorems are functions and lemmas.
- Passes that walk the level lists take them as one list, from the leaves up; `LevelOrder` and `DownwardOrder` justify this.

The main theorems, and where to find them:

| theorem | file |
|---|---|
| the compiled program returns what the expression says, on every packet, and passes the checker | Compiler |
| the flat program is the graph, whether a branch became a short jump or a long one | Simulation, Emitter |
| the lists threaded through the blocks hold exactly the open exits, under any nesting | CodeGen |
| the machine's loads, operations, comparisons and opcodes obey laws that do not mention how they are computed | MachineLaws |
| arithmetic leaves the tree's value, or rejects, and disturbs no register in use | Arith, Expressions, Relation |
| every reachable state of an accepted program is safe | Validator |
| level order, dominators, edge dominators and closure are the path notions | Levels, Dominators |
| liveness is non-interference, and exactly what some path reads; removing dead stores keeps results | Liveness, LivePaths, DeadStores |
| value numbers describe every run; rewriting a whole graph by them keeps results | ValueRewrite, BlockValues |
| the optimizer gives up only on a division by 0 or an excessive shift that every packet runs into, and stops at nothing it could simplify | Failures, Simplest |
| a dominating edge predicts the branch, exactly where the prediction is certain; promoting an edge keeps results | BranchFolding, GraphEdits |
| all of a round's branch movement keeps results, from analyses made before the first move | BranchMoves |
| branch movement, pull-ups, value rewriting, dead-store removal and interning in sequence, compiled and emitted, keep the filter's answer | Pipeline |
| peephole rewriting keeps the branch taken and the live state, and the graph's result | Peephole, GraphEdits |
| pulling up a test keeps the graph acyclic, and results exactly where the order of the tests does not matter; on field tests always | Pullup, FieldPulls |
| interning keeps results, ends, and leaves no two equal blocks | Intern |
| the 802.11 address tests follow the address layout | Wlan |
| capture delivers every accepted record once and in order, and nothing after it has seen that it should stop | Capture |

Eight claims one might make of the code fail on some inputs. For each there is such an input, and a theorem that
says exactly when the claim holds:

| claim | input | exactly when |
|---|---|---|
| value numbers describe what a statement computes | `UnknownIndexIsConfused` | `OptStmtFaithful`, `OptListExact` |
| fold_edge predicts the branch | `UnknownIsMisfolded` | `FoldExact` |
| a promotion that passes use_conflict keeps results | `GuardMissesReads` | `GuardExact`, for the agreement of live registers that `FoldPreserves` rests on |
| a pull-up keeps results | `PulledRejects` | `PullupPreserves`; on field tests always, `FieldPullupKeeps` |
| the fused load loads what the sequence loaded | `WrappedFusionRejects` | `FusionKeeps` |
| a block depends on no more than in_use | `ReturnedAccumulatorNotCounted` | `ReturnExact` |
| a refused division or shift is one that cannot be made | `RefusesNonzeroDivisor`, `RefusesSmallShift` | `DivisorRefusal`, `SumDivisor`, `ShiftRefusal` |
| jset #0xffffffff is always taken | an accumulator of 0 | `JsetExact` |

The three of them that concern whole graphs are in Counterexamples. They hold of whatever numbers, live registers and
dominators the analyses find on the graph, `opt_peep` and `opt_deadstores` leave all its blocks as they are, and a method
beside each computes these things with the passes themselves.

## Model

| member | source | states |
|---|---|---|
| Machine.EncodeDecode | pcap/bpf.h:130-220 | each operation of the machine has exactly one opcode number, and each number at most one operation |
| Machine.AbsInside | bpf_filter.c:119-161 | the unsigned bound test of an absolute load lets it through exactly when the field ends inside the captured bytes |
| Machine.IndInside | bpf_filter.c:174-200 | the bound tests of an indexed load, made in arithmetic that wraps, let it through exactly when the unbounded sum X + k fits |
| Machine.Filter | bpf_filter.c:87-386 | the interpreter's loop computes the step-by-step run from A = X = 0 and any scratch memory; no program accepts everything |
| Machine.ExecAppend | bpf_filter.c:106-386 | statements in sequence compose, early ends included |
| MachineLaws.FetchIsNumber | extract.h:77-94 | what a load fetches is the number its bytes write to the base 256, the first byte highest |
| MachineLaws.DigitIsByte | extract.h:77-94 | digit j of that number, counted from the front, is byte j, for any number of bytes |
| MachineLaws.LoadTakesBytes | bpf_filter.c:119-201 | an absolute or indexed load rejects exactly if not all its bytes were captured; otherwise A holds those bytes, digit by digit, and nothing else changes |
| MachineLaws.ApplyExact | bpf_filter.c:275-363 | exactly which word each operation gives: sums, differences and products by congruence modulo 2^32, quotient and remainder by their bounds, bitwise operations bit by bit, shifts by powers of 2; a division by 0 gives none |
| MachineLaws.AluExact | bpf_filter.c:275-363 | an arithmetic statement sets A to that word and nothing else, rejects exactly if X divides and is 0, and has no defined result exactly for the constants that make a division by 0 or a shift of 32 or more |
| MachineLaws.CompareExact | bpf_filter.c:243-273 | the four comparisons in terms of the bits: equal bits, the highest bit in which the words differ, a bit in common |
| MachineLaws.MovesExact | bpf_filter.c:169-209 | negation adds up to 0 with its operand; the header length is four times the low half of its byte; lengths are those on the wire |
| MachineLaws.ScratchKeeps | bpf_filter.c:219-233 | what is stored in scratch memory is loaded back, by either register |
| MachineLaws.JumpExact | bpf_filter.c:235-241 | a jump goes a signed 32-bit distance from the next instruction |
| MachineLaws.ReturnsExact | bpf_filter.c:113-117 | the two returns give the constant and the accumulator |
| MachineLaws.OpcodeFields | pcap/bpf.h:130-220 | opcode numbers field by field: class, size, addressing mode, operation, source, as places in tables |
| Machine.MoreFuel | bpf_filter.c:106-386 | a run that has ended ends the same with more turns |
| Validator.Validate | bpf_filter.c:407-528 | the checker's loop decides acceptance |
| Validator.CheckedExactly | bpf_filter.c:417-527 | what the check of one instruction lets through, for every opcode number, the reserved ones included |
| Validator.AcceptedExactly | bpf_filter.c:407-528 | for programs of existing operations, acceptance is: not empty, all jumps inside, scratch indices below 16, no constant divisor 0, ends in a return; both directions |
| Validator.WrappedTarget | bpf_filter.c:469-515 | for a length up to INT_MAX the checker's unsigned wrapping test of a JA target agrees with the interpreter's sign-extended jump landing inside |
| Validator.AcceptedIsSafe | bpf_filter.c:407-528 | after any number of turns of any run of an accepted program the program counter is inside and no scratch index or divisor has failed |
| Validator.ForwardStops | bpf_filter.c:235-241 | an accepted program without backward jumps stops within as many turns as instructions are left |
| CodeGen.ExitFacts | gencode.c:914-952 | an expression's true and false exits both start at its standing block, under opposite senses, and share nothing else |
| CodeGen.ListsShareOnlyLast | gencode.c:914-952 | the two lists share only the standing block |
| CodeGen.Generator.NewBlock | gencode.c:686-696 | a new test is a fragment with both exits open |
| CodeGen.Generator.GenRetblk | gencode.c:709-716 | a return block of the given value |
| CodeGen.Generator.Backpatch | gencode.c:920-935 | walking the threaded list gives exactly its exits the target and touches nothing else |
| CodeGen.Generator.Merge | gencode.c:941-952 | the end of one list is linked to the start of the other |
| CodeGen.Generator.GenAnd | gencode.c:1011-1020 | from fragments of two expressions over different blocks it makes the fragment of their conjunction: both lists acyclic, disjoint up to the standing block, exactly the open exits, inner edges right |
| CodeGen.Generator.GenOr | gencode.c:1022-1030 | likewise for disjunction |
| CodeGen.Generator.GenNot | gencode.c:1032-1036 | likewise for negation, by flipping one sense |
| CodeGen.AndFragment | gencode.c:1011-1020 | what gen_and changes turns two fragments into one, by frame and list lemmas |
| CodeGen.OrFragment | gencode.c:1022-1030 | what gen_or changes does so, through De Morgan's law on the lists |
| CodeGen.Generator.FinishParse | gencode.c:954-1009 | after both back-patches every true exit leads to the accepting return and every false exit to the rejecting one |
| Compiler.WiredRuns | gencode.c:954-1036 | running the wired graph from a test is evaluating what is left of the expression, left to right with short circuit |
| Compiler.FinishedRuns | gencode.c:954-1036 | the finished graph returns snaplen or 0 as the expression is true or false, and 0 early when an evaluated load fails, negated or not |
| Compiler.FinishedIsRanked | gencode.c:954-1036 | the finished graph is acyclic |
| Compiler.Compile | gencode.c:954-1036 | end to end without the optimizer: the emitted program returns what the expression says on every packet from every scratch memory, within one turn per instruction, and is accepted if the statements are legal |
| Layout.OrderProperties | optimize.c:2669-2712 | the marking walk meets every block reachable from the root once, after its successors |
| Layout.TotalIsSpace | optimize.c:2483-2493 | the space of a layout depends on the set of blocks only, so the counting walk and the emitting walk agree although they go in different orders |
| Simulation.RunPlaced | optimize.c:2669-2835 | a program that holds the blocks in such an order runs, from each block's offset, as the graph does, over short jumps and inserted JAs |
| Emitter.Slength | optimize.c:2414-2423 | counts the statements that are not deleted |
| Emitter.Emission.CountStmts | optimize.c:2483-2493 | counts exactly the instructions of the blocks newly reached |
| Emitter.Emission.ConvertCodeR | optimize.c:2669-2835 | fills the array downwards with the program of what it has reached, or raises one long-jump flag of one branch that needs it |
| Emitter.Emission.IcodeToFcode | optimize.c:2856-2896 | the retry loop ends; its result is the whole layout with the root at index 0, array exactly filled, and no long jump that is not needed |
| Emitter.RaisedProgress | optimize.c:2798-2834 | a failed pass raises a flag from 0 to 1, so at most two passes per block fail |
| Emitter.RaisedStaysTight | optimize.c:2798-2834 | distances only grow, so a flag once needed stays needed |
| Emitter.LaidOutRuns | optimize.c:2856-2896 | the emitted program returns what the graph returns, on every packet from every state |
| Acceptance.LaidOutIsAccepted | optimize.c:2669-2896 | a layout of legal statements always passes the checker |
| Arith.Registers.AllocReg | gencode.c:8107-8122 | takes the first free register from the current one on, wrapping, whenever there is one; fails exactly when all are used |
| Arith.Registers.FreeReg | gencode.c:8128-8132 | frees exactly that register |
| Arith.Registers.GenLeaf | gencode.c:7950-7994 | code for a constant or the packet length leaves it in a newly allocated register |
| Arith.Registers.GenLoad | gencode.c:7606-7704 | a load relative to the link-layer header leaves the field at that offset in the index's register, or rejects exactly when it is not captured |
| Arith.Registers.GenArth | gencode.c:8044-8092 | a binary operation leaves the 32-bit result in a register that was free, both operands' registers given back first; refuses by the first statement of the right operand's code, with the error that says why |
| Arith.Registers.Generate | gencode.c:7606-8132 | compiles a tree exactly when it is not refused and enough registers are free; the code leaves the tree's value, or rejects exactly when a load or division fails, and changes no register in use; an error other than for registers is about something in the tree |
| Arith.NegComputes | gencode.c:8014-8037 | negation modulo 2^32 |
| Arith.LoadComputes | gencode.c:7668-7704 | the load code from the code of its index |
| Arith.BinaryComputes | gencode.c:8073-8092 | the code of an operation from the codes of its operands |
| Expressions.EvalExact | gencode.c:7606-8092 | the value of a tree, without the machine's operations: a load is the number its one, two or four bytes write, an operation the word its law says |
| Expressions.RefusalExact | gencode.c:8056-8074 | a constant right operand is refused exactly if the division has no value whatever is divided, or the shift always gives 0; which error each refusal gives |
| Expressions.SizeForExact | gencode.c:7616-7633 | the widths a load may be written with are 1, 2 and 4 |
| Refusals.DivisorRefusal | gencode.c:8056-8065 | for divisors built by loads and negations: a refused division has no value on any packet, whatever is divided and wherever the header starts, exactly if nothing is loaded; otherwise a packet is given on which it has one |
| Refusals.PlainDivisorRefusal | gencode.c:8056-8065 | without loads the refusal is exact: refused exactly what has no value on any packet |
| Refusals.AbsorbedDivisor | gencode.c:8056-8065 | divisors that start from 0 and multiply, divide, mask or shift it are refused and have no value on any packet |
| Refusals.SumDivisor | gencode.c:8056-8065 | 0 + c, 0 - c, 0 or c, 0 xor c: always refused, rightly exactly if no packet makes c other than 0 |
| Refusals.RefusesNonzeroDivisor | gencode.c:8056-8065 | 6 / (0 + len) and 6 / link[0] are refused although they have values |
| Refusals.ShiftRefusal | gencode.c:8066-8069 | for shift counts built by loads and negations: a refused shift is by more than 31 on every packet exactly if, without a load, the negations leave it so, or, with one, no packet is long enough to read |
| Refusals.RefusesSmallShift | gencode.c:8066-8069 | 1 << -0xffffffff, a shift by 1, and 1 << link[40] are refused |
| Relation.GenRelation | gencode.c:7892-7934 | a comparison of two trees becomes a test that says whether it holds, or rejects when an operand has no value; all registers are given back |
| Relation.RelationDecides | gencode.c:7892-7934 | equality as a subtraction compared with 0, the others as a comparison with X, reversed or not |
| Relation.RelationContained | gencode.c:7892-7934 | the code of a comparison reads only registers it has set itself |
| Relation.RelationProgram | gencode.c:7892-7934 | the compiled comparison returns snaplen exactly for the packets on which it holds |
| LinkTests.NcmpAsks | gencode.c:1122-1144 | the number the field's bytes write, the first highest, is compared under the mask; without the field the packet is rejected; reversing counts for greater and greater-or-equal only |
| LinkTests.GenBcmp | gencode.c:1080-1114 | tests the byte string four, two and one bytes at a time from its end; true exactly if all bytes are captured and equal, rejecting exactly if not all are captured |
| LinkTests.AskedProgram | gencode.c:1038-1144 | compiled tests of this kind accept exactly the packets they answer true for |
| Wlan.JsetBits | gencode.c:4396-4420 | testing a mask of one bit tests that bit |
| Wlan.SourceChecksRight | gencode.c:4366-4519 | the nested checks give the answer of the address layout for the source, including no answer where octets are missing |
| Wlan.DestinationChecksRight | gencode.c:4521-4623 | likewise for the destination |
| Wlan.GenWlanhostop | gencode.c:4350-4636 | all four directions, source first for both and for either |
| Wlan.CompileWlan | gencode.c:4350-4636 | end to end: the program is accepted and returns snaplen exactly for frames whose type has the 0x04 bit clear and whose six bytes at the offset picked by type, To DS and From DS are captured and equal the address |
| Levels.Leveller.FindLevelsR | optimize.c:343-366 | enters every newly reached block once, in the list of its level, which is its longest distance to a leaf |
| Levels.FindLevels | optimize.c:371-377 | the lists hold exactly the blocks below the root |
| Levels.LevelInRange | optimize.c:343-366 | there are fewer levels than blocks, so the lists have room |
| Levels.LevelOrder | optimize.c:343-377 | walking the lists up meets each reachable block once, after its successors |
| Levels.DownwardOrder | optimize.c:383-419 | walking them down, each list from its head, is the reverse of such an order |
| Paths.DominatorsAreExact | optimize.c:378-461 | on any acyclic graph a solution of the meet equations holds exactly the nodes on all paths |
| Paths.HandleOne | optimize.c:402-417 | handling a node after its predecessors establishes its equation and keeps the others |
| Dominators.FindDom | optimize.c:383-419 | dom of a block is exactly the blocks on all paths to it from the root |
| Dominators.PropEdom | optimize.c:421-429 | an edge joins its own set and cuts down those of the edges after it |
| Dominators.FindEdom | optimize.c:435-461 | edom of an edge is exactly the edges on all paths from the root through it |
| Dominators.FindClosure | optimize.c:470-492 | closure of a block is exactly the blocks below the root that reach it |
| Dominators.FindInedges | optimize.c:2109-2136 | in_edges holds each edge from a reachable block once, under the block it leads to |
| Liveness.StatementReadsUses | optimize.c:503-575 | a statement reads only what atomuse and writes only what atomdef names, whatever its outcome |
| Liveness.AddUse | optimize.c:600-625 | one statement's uses, unless defined already |
| Liveness.ComputeLocalUd | optimize.c:588-644 | def, in_use and kill of a block |
| Liveness.FindUd | optimize.c:649-672 | one pass over the levels solves the data-flow equations |
| Liveness.NonInterference | optimize.c:588-672 | two runs from states that agree on in_use of a block return the same result, early rejects and traps included |
| LivePaths.LiveExactly | optimize.c:649-672 | a register is live on entry to a block exactly if some path from there reads it before any block on the way sets it |
| LivePaths.UseMatters | optimize.c:503-550 | what a statement is said to use makes a difference to what it sets: two states that differ in that register only |
| Liveness.ReturnExact | optimize.c:588-644 | two runs through a leaf that returns A, from states that agree on what the analysis says it needs, return the same exactly if the block reads or sets A, or the accumulators were equal |
| Liveness.ReturnedAccumulatorNotCounted | optimize.c:627-643 | a returned accumulator is not counted as a use: a leaf that returns A depends on A although its in_use is empty |
| DeadStores.DeadStmt | optimize.c:1391-1417 | deletes the definition that this one overwrites unread |
| DeadStores.OptDeadstores | optimize.c:1419-1447 | deletes exactly the definitions that are overwritten unread, or unread and not live on exit, and makes unknown exactly the numbers of registers whose last definition goes |
| DeadStores.NumbersSurvive | optimize.c:1432-1446 | the numbers left describe the state the cleaned block leaves |
| DeadStores.DeadStoresPreserve | optimize.c:1391-1447 | cleaning every block keeps the result of every run that is not rejected, also where a counted accumulator is returned |
| ValueNumbers.NumbersAreExact | optimize.c:691-731 | equal numbers exactly for equal operation and operands, so distinct constants get distinct numbers |
| ValueNumbers.Hash | optimize.c:697-699 | the hash selects one of the chains |
| ValueNumbers.ValueTable.F | optimize.c:691-731 | the hashed table gives the number of the plain list of values, and enters a value exactly when it is new |
| ValueRewrite.OptStmtFaithful | optimize.c:1152-1389 | for a statement that runs through from a described state: its replacement leaves the same state and the numbers describe it exactly if it computes from known numbers, or is simplified because of a 0 or given up; for ldx #len, exactly if X was unknown or is the length already |
| ValueRewrite.FoldFaithful | optimize.c:746-837 | a folded operation loads the value the operation gives |
| ValueRewrite.VStoreFaithful | optimize.c:733-740 | a store of the number already there can be deleted |
| ValueRewrite.OptListFaithful | optimize.c:1152-1389 | for whole statement lists: same A, X and scratch memory, numbers right on exit, at most two new numbers a statement |
| ValueRewrite.OptListExact | optimize.c:1152-1389 | on any run the numbers stay right after every statement exactly if each computes from known numbers |
| Failures.GivesUpExactly | optimize.c:1226-1305 | exactly when opt_stmt gives up, and with which error, from what it takes for constants |
| Failures.FailedStatement | optimize.c:1261-1305 | if it gives up from numbers that describe the state, the statement divides by 0 there, or shifts by more than 31, and the error says which |
| Failures.FailedList | optimize.c:1449-1500 | the same for a list, at the statement it stops at |
| Failures.FailedBlockFaults | optimize.c:1449-1500 | a block that sets what it reads is given up only if one statement divides by 0 or shifts too far whenever it is reached, from every state and on every packet |
| Failures.SpoiltBlockFaults | optimize.c:1293-1301 | rewriting makes an instruction the checker refuses only of a division by 0 of that kind |
| Simplest.NothingLeft | optimize.c:1152-1389 | what opt_stmt leaves: no load indexed by a constant, nothing computed from constants, no load of a constant from scratch memory, no constant X as operand, no operation a 0 makes trivial, no load or copy of the value already there |
| ValueRewrite.OptStmts | optimize.c:1499-1500 | the loop over a block's statements computes that rewriting |
| ValueRewrite.UnknownIndexIsConfused | optimize.c:1164-1183 | with an unknown index register two loads get one number, and the second is deleted wrongly |
| BlockValues.EntryAgrees | optimize.c:1468-1496 | what is known on entry is what every predecessor leaves |
| BlockValues.EntryKnown | optimize.c:1484-1496 | and what every predecessor leaves is known on entry; where two differ, nothing is |
| BlockValues.MergeValues | optimize.c:1468-1496 | the loop over in_edges computes that merge |
| BlockValues.OptBlk | optimize.c:1449-1550 | numbers one block from its predecessors', with its branch operand |
| BlockValues.OptBlks | optimize.c:2066-2069 | numbers, and if asked rewrites, every reachable block, predecessors first; on an error, the block whose rewriting fails with it, from the values its numbered predecessors leave |
| BlockValues.RunsAreDescribed | optimize.c:1449-1550 | on every run, as far as it gets, the numbers of a block describe the state the run leaves it in |
| BlockValues.ValuesPreserve | optimize.c:2066-2069 | the rewritten graph returns what the old one returned on every packet the old one did not reject |
| BranchFolding.DominatorWasCrossed | optimize.c:431-461 | a run that has crossed an edge has crossed every edge in its edom |
| BranchFolding.FoldPredicts | optimize.c:1584-1657 | equal accumulators and operands repeat the branch; a different constant after a true equality test fails |
| BranchFolding.FoldExact | optimize.c:1584-1657 | every state the numbers describe leaves the block as predicted exactly if what the branch reads is known, or both branches are one, or the unknown operand cannot change the comparison |
| BranchFolding.SameTestPredicted | optimize.c:1638-1645 | the same test on the same numbers is always predicted, as it came out |
| BranchFolding.EqualityFoldsExactly | optimize.c:1638-1654 | equality tests of the same number with constants: predicted exactly if the edge decides the test for every accumulator, and then as it decides |
| BranchFolding.FoldIsRight | optimize.c:1577-1657 | for every edge in edom of f, every run that crosses f leaves the block it leads to toward the child fold_edge returns, where the prediction is certain in that sense |
| Counterexamples.UnknownIsMisfolded | optimize.c:1611-1626 | whatever numbers opt_blk gives a certain graph whose blocks compute from known numbers: fold_edge predicts wrongly, use_conflict does not object, and a run from A = X = 0 returns another result |
| Counterexamples.MispredictedByThePasses | optimize.c:2060-2098 | the analyses, run on that graph, give such numbers |
| GraphEdits.ReplacePreserves | optimize.c:1449-1554 | replacing a block by one that leaves the same way with the live registers intact keeps the graph's result |
| GraphEdits.PeepPreserves | optimize.c:1541-1544 | opt_peep on one block keeps the graph's result, given constants that hold |
| GraphEdits.NumberedPeepPreserves | optimize.c:1541-1544 | with the numbers opt_blk gives the block, constants hold on every run and a swallowed subtraction or mask is never one; what is left to ask of the run is the fusion's sum and a nonzero accumulator at jset #ffffffff |
| GraphEdits.PairPeepPreserves | optimize.c:1541-1544 | without a fusion and that jset nothing is asked of the run |
| GraphEdits.DroppedReplaces | optimize.c:1502-1540 | dropping all statements of a block where nothing is live and A and X keep their known numbers, or of a return block, keeps the way it is left |
| GraphEdits.DropPreserves | optimize.c:1502-1540 | with the numbers opt_blk gives, so does the graph's result |
| GraphEdits.MovePreserves | optimize.c:1677-1768 | moving a branch past a block that leads on to the new target and changes nothing live there keeps results |
| GraphEdits.FoldPreserves | optimize.c:1720-1768 | promoting an edge to the child fold_edge picks keeps every run that is not rejected, if the pick is certain and every register live at the target leaves both blocks with the same known number |
| GraphEdits.CommonTargetPreserves | optimize.c:1678-1717 | passing over a block whose branches lead to one place does so too |
| GraphEdits.GuardExact | optimize.c:1556-1575 | states described after the one block agree with states described after the other on the live registers exactly if the numbers of these mean the same on the packet; equal known numbers suffice |
| Counterexamples.GuardMissesReads | optimize.c:1556-1575 | use_conflict does not look at what the target reads: whatever numbers and live registers the analyses give a certain graph, a certain and right prediction passes it and the result changes |
| Counterexamples.PromotedByThePasses | optimize.c:2060-2098 | the analyses, run on that graph, lead there |
| Peephole.PairKeepsState | optimize.c:886-914 | st M[k]; ldx M[k] to st; tax and ldi; tax to ldx; txa leave the same state, always |
| Peephole.FusionKeeps | optimize.c:915-996 | ldi, optional ldxms, addx, tax, ild to one load, where X is dead: on runs that go through it keeps every needed register exactly if constant plus X does not wrap, or constant plus offset wraps too; otherwise the load rejects |
| Peephole.WrappedFusionRejects | optimize.c:915-996 | such a run: the fused load rejects a packet the sequence accepts |
| Peephole.PeepStmts | optimize.c:856-997 | the walk is the one step after the other of these rewritings, each made wherever it applies; it fuses only if X is not live on exit, and finds the last statement |
| Peephole.RewritesKeep | optimize.c:856-997 | any run of these rewritings keeps what is needed |
| Peephole.MergeKeeps | optimize.c:998-1082 | sub and and merged into jeq, modulo 2^32, with the swapped jset: the branch goes the same way and only A changes |
| Peephole.JsetExact | optimize.c:1083-1092 | jset #0 never and jset #ffffffff always is right exactly when, in the second case, A is not 0 or both ways are one |
| Peephole.ConstBranches | optimize.c:1093-1143 | with constant numbers that hold, comparing with X's constant and deciding a constant comparison keep the way |
| Peephole.OptPeep | optimize.c:856-1144 | the whole of opt_peep on a block is the statement walk and then the branch rewriting; on a return of a constant after a constant accumulator it aborts |
| Peephole.OptPeepReturns | optimize.c:856-1144 | where it does not abort a return block returns what it returned |
| Simplest.PlaceDone | optimize.c:857-996 | after the rules at one statement neither pair stands there, and with X dead no constant added to an index |
| Simplest.NoPairLeft | optimize.c:866-996 | after the walk over a block no store is followed by a load of X from the same word and no constant load by a transfer, wherever deleted statements stand between |
| Simplest.FusionFound | optimize.c:905-996 | a constant, an optional header length, an addition, a transfer and an indexed load in a row are always found |
| Simplest.BranchDone | optimize.c:1004-1149 | what is left of the branch: a constant X is compared as one, a constant A decides it, jset of no or all bits is decided, subtraction and mask before an equality test are swallowed where they can be; nothing else changes |
| Peephole.OptPeepKeeps | optimize.c:856-1144 | it keeps the way the block is left and every register live on exit |
| Peephole.ArithmeticIsNotConstant | optimize.c:1226-1337 | what opt_stmt leaves as a subtraction or mask never has a constant number |
| Peephole.SwallowedIsNotConstant | optimize.c:998-1082 | nor has the accumulator after a block that ends in one, as the merge needs |
| Pullup.SingleEntry | optimize.c:1850-1861 | the dominance test on a chain of tests with one exit implies that each is entered only from the one before |
| Pullup.Mover.Follow | optimize.c:1821-1908 | walks the chain while the tests made hold, and stops at the first block with another (or the same) value |
| Pullup.Mover.RetargetPreds | optimize.c:1930-1936 | every branch to b of every predecessor is moved, also where both branches of one lead there |
| Pullup.Mover.Pullup | optimize.c:1789-1956 | or_pullup: the test is moved up its chain exactly if the chain has a block with another value than all predecessors leave and, after it, one with theirs; then results are kept, otherwise nothing changes |
| Pullup.PulledIsRanked | optimize.c:1958-2057 | the rewired graph is acyclic |
| Pullup.PullupPreserves | optimize.c:1958-2057 | for or and and alike, on every packet that alone decides the tests: the result is kept exactly if the run does not come to the moved stretch, or one of the moved test and those before it lets the packet along, or both end it alike (one way where the exit returns no value) |
| Pullup.GoingIsFree | optimize.c:1958-2057 | that is so wherever no test of the stretch stops the run |
| Counterexamples.PulledRejects | optimize.c:1848-1938 | whatever numbers, in-edges and dominators the analyses give a certain graph, or_pullup chooses a test that rejects a packet an earlier alternative accepts |
| Counterexamples.PulledByThePasses | optimize.c:2100-2106 | the analyses and the pull-up, run on that graph, move it |
| Intern.EqSlist | optimize.c:2305-2322 | compares two lists up to deleted statements |
| Intern.EqBlk | optimize.c:2324-2333 | equal exactly if branch, successors and statements up to deleted ones are the same |
| Intern.SameBlockRuns | optimize.c:2305-2333 | equal blocks give every run the same result |
| Intern.Interner.MarkCode | optimize.c:2278-2299 | marks exactly the reachable blocks |
| Intern.Interner.LinkBlock | optimize.c:2349-2360 | links a marked block to an equal one further on exactly when there is one |
| Intern.Interner.RedirectAll | optimize.c:2361-2374 | every branch goes to what its target is linked to; reports whether anything changed |
| Intern.Interner.InternBlocks | optimize.c:2335-2377 | ends (each round raises the target of some branch), keeps every run's result from every block, and leaves no two different reachable blocks equal, the root included |
| Analyses.Analyse | optimize.c:2163-2186 | levels, dominators, live registers, in-edges and numbers of one graph, as one round finds them |
| SelfContained.PacketDecides | optimize.c:503-575 | a block that sets every register it reads is left the same way, with the same in all it sets, from any state |
| SelfContained.NothingLive | optimize.c:649-672 | in a graph of such blocks nothing is live |
| SelfContained.ExposedKnown | optimize.c:1152-1389 | what a list computes is known, if what it reads before setting it is |
| BranchMoves.ListMeans | optimize.c:1449-1500 | the numbers of the registers such a list sets stand for what it leaves, whatever was known on entry |
| BranchMoves.FoldLeads | optimize.c:1577-1657 | fold_edge is right of where a packet goes although its numbers and edge dominators are those of the graph before any edge was moved |
| BranchMoves.OptJ | optimize.c:1663-1768 | one edge, moved past a test that does not matter, and on until no dominating edge predicts a further step without a conflict; only this edge changes, results are kept, and no run comes by a block it did not come by before |
| BranchMoves.MoveBranches | optimize.c:2093-2098 | both edges of every reachable block in sequence, each as opt_j leaves it in its turn, with numbers, edge dominators and live registers found once at the start |
| FieldPulls.PulledGoes | optimize.c:1789-1908 | on field tests with the numbers of opt_blk, the test chosen for pulling up does not reject on any run that comes to its place |
| FieldPulls.FieldPullupKeeps | optimize.c:1789-2057 | so a pull-up keeps every run that is not rejected, with no condition on the run |
| FieldPulls.PullOne | optimize.c:1789-2057 | or_pullup or and_pullup of one block after fresh analyses: a test is moved exactly if one is chosen, and then the chosen one, along the chain that leads to it |
| FieldPulls.PullAll | optimize.c:2100-2106 | both for every block of the order, each from the graph the one before left |
| Pipeline.MoveEdges | optimize.c:2060-2098 | analyses and branch movement on a graph of self-contained blocks keep every run that is not rejected, and move both edges of every reachable block |
| Pipeline.RewriteByValues | optimize.c:2060-2084 | in-edges, numbering and rewriting of a graph of self-contained blocks keep the result of every run that is not rejected, and leave what opt_blk leaves of every reachable block; an error is reported only if a statement divides by 0, or shifts by more than 31, whenever it is reached, on every packet, and says which; a legal statement stays legal unless it divides by 0 whenever it is reached |
| Pipeline.RemoveDeadStores | optimize.c:1419-1447 | liveness and the removal of dead stores do so too, and remove exactly the dead stores of every reachable block |
| Pipeline.OptimizeGraph | optimize.c:2163-2260 | branch movement, pull-ups (if all tests are of fields), value rewriting, dead stores and interning, each made on what the one before left, keep results and leave no two equal blocks; it gives up only where RewriteByValues does |
| Pipeline.CompileOptimized | gencode.c:830-860 | end to end with these passes, for all combinations of field tests and comparisons of arithmetic expressions: unless the optimizer gives up, the program is accepted, and on every packet on which evaluating the filter does not end early it returns what the filter says; it gives up only if a test of the filter divides by 0 or shifts by more than 31 on every packet, so never on a filter without division, modulus and shifts |
| Pipeline.LoadsAreContained | gencode.c:1038-1144 | filters over link-layer fields set every register they read, so the above covers them |
| Pipeline.LoadsAreCalm | gencode.c:1038-1144 | they have no division, modulus or shift, so they are always compiled |
| Pipeline.OptimizedRelation | gencode.c:7892-7934 | the optimized program of a comparison returns snaplen or 0 as it holds or not, where both operands have values |
| Capture.AlignedExactly | pcap-bpf.c:1427-1442 | a record starts at the first multiple of the system's alignment at or after the end of the one before |
| Capture.MoreIffRecordLeft | pcap-bpf.c:1306-1308 | the loop's test on addresses tells whether a record is left, although the data need not end at a multiple of the alignment |
| Capture.NextIsHanded | pcap-bpf.c:292-321 | the buffer looked at is the next handed over, and seen as such exactly when it has been |
| Capture.AckKeeps | pcap-bpf.c:428-438 | acknowledging gives back exactly the buffer just read |
| Capture.HandOverKeeps | pcap-bpf.c:292-321 | the kernel's side: buffers in turn, each only while it owns it, generations modulo 2^32 |
| Capture.RoomExactly | pcap-bpf.c:280-321 | the kernel can hand over the buffer whose turn it is exactly if not both are awaiting the reader |
| Capture.Reader.NextZbufShm | pcap-bpf.c:292-321 | takes buffers in the order of hand-over |
| Capture.Reader.AckZbuf | pcap-bpf.c:428-438 | acknowledges only a buffer all of whose records have been handled |
| Capture.Reader.Store | pcap-bpf.c:1326-1343 | the place left for the next call is that of the next record, past the end counting as nothing left |
| Capture.Reader.Walk | pcap-bpf.c:1306-1446 | gives accepted records to the callback in order; ends before the last record only at the count or when told to break, with nothing lost; one look at the flag before every record, no look but the last has seen it set, and nothing is passed after a look that saw it |
| Capture.Reader.Wait | pcap-bpf.c:1204-1303 | with nothing left the next buffer is walked, if the kernel has handed one over already or does next; otherwise the answer the event has |
| Capture.Reader.Again | pcap-bpf.c:1191-1300 | one turn: the flag, then what is left, then the next buffer, then the next event; which answer each event gives, and when the turn is made again, with nothing delivered |
| Capture.Reader.ReadBpf | pcap-bpf.c:1176-1448 | one call, with interruptions, failures and breaks at any time: everything read is delivered or still ahead; the looks at the flag are counted exactly, being told to break is heeded at the look that sees it, reported at once if nothing was delivered and kept for the next call otherwise; interrupted reads are made again, and only they |
| Capture.NothingLost | pcap-bpf.c:1176-1448 | after any sequence of calls the callbacks have seen exactly the accepted records, in order, of what has been handled; zero-copy buffers in hand-over order |

## Left out

- The lexer, the grammar and name resolution: input arrives as expressions over tests and as arithmetic trees.
- Arithmetic trees carry no protocol checks (the `b` member of `struct arth`); loads are relative to a link-layer header at a fixed offset.
- Variable-length link-layer headers, VLAN metadata and the per-link-type tables: case tables with little to prove.
- CodeGen.Generator.FinishParse: without insert_compute_vloffsets and the check of the PPI header, which belong to variable-length headers.
- Arith.Registers.GenLoad: for the link layer at a fixed offset; the other cases add protocol checks and offsets from tables.
- Arith.Registers.Generate: without the protocol checks of `struct arth`, as for GenLoad.
- Relation.GenRelation: without joining the operands' protocol checks.
- LinkTests.NcmpAsks: for fields at a fixed link-layer offset.
- Emitter.Emission.ConvertCodeR: without block-local jumps inside statement lists (protochain, 802.11 and Prism header lengths), which need another block model.
- Emitter.Emission.IcodeToFcode: requires the worst-case layout to have at most INT_MAX instructions, the range of the emitter's integers.
- Compiler.Compile: requires the worst-case program to have at most INT_MAX instructions; longer ones are not modelled, because the checker's and the emitter's integers do not go further.
- Validator.AcceptedIsSafe: does not exclude opcodes the machine lacks and constant shifts of 32 or more, because the checker lets them through; a run may stop there.
- Liveness.NonInterference: for leaves that return a constant or an accumulator they have read or set, because a returned accumulator is not counted as a use.
- ValueNumbers.Hash: that it selects a chain; which one does not matter to F.
- BlockValues.OptBlk: the numbering and rewriting of statements; opt_peep, opt_deadstores and the dropping of all statements are separate members (Peephole.OptPeep, DeadStores.OptDeadstores, GraphEdits.DropPreserves).
- BlockValues.OptBlks: likewise, for all blocks.
- BlockValues.RunsAreDescribed: numbers of blocks as opt_stmt leaves them; for what opt_deadstores changes in a block and its numbers see DeadStores.NumbersSurvive.
- BranchFolding.FoldIsRight: likewise.
- BlockValues.ValuesPreserve: for results that are not an early reject, because a deleted load no longer rejects.
- GraphEdits.FoldPreserves: asks for equal known numbers of what is live at the target, which use_conflict does not; that this is also necessary is proved for the agreement of the states (GuardExact), not for the results, because a register that is read need not matter. On graphs of self-contained blocks nothing is live and use_conflict's own test is right (BranchMoves.OptJ).
- LinkTests.GenBcmp: the offsets must not wrap around 2^32.
- Peephole.OptPeepKeeps: that X is dead after a fusion, that the sum comes out the same and that the accumulator is not 0 at jset #ffffffff are conditions on the run; the code relies on its generator for them.
- GraphEdits.PeepPreserves: likewise; GraphEdits.NumberedPeepPreserves leaves only these.
- Pullup.Mover.Pullup: the recomputation of dominators at the end, which walks level lists the rewiring has made stale; FieldPulls.PullOne makes fresh analyses for every pull-up instead.
- The outer loop of the optimizer with its 100-pass cutoff, and opt_root.
- Pipeline.OptimizeGraph: one round, without peephole rewriting, whose conditions on runs the passes do not test; pull-ups only where every test is one of a field, because elsewhere they can change results (Counterexamples.PulledRejects).
- Pipeline.CompileOptimized: for filters whose tests set every register they read, as field tests and comparisons do, and without the error reported when the optimized program is a single `ret #0`.
- The bits of a bit vector beyond the number of blocks or edges, and the sizes of the tables allocated in opt_init.
- Capture.Reader.ReadBpf: the FDDI padding and the conversion of time stamps; what the system does while a call waits is a parameter.
- Capture.Reader.Again: select, time-outs and the rotation of buffers by the kernel are one event, what the system hands over next.
- Device setup, memory exhaustion, error messages and debug output.
