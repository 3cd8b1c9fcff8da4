# Network Code module: a verified model

Network Code is a small bytecode language for distributed real-time communication. The repository holds
a Linux kernel module that interprets it (`interpreter.c` and the files it uses), a translator from the
32-bit words of the hardware implementation (`ncm_translator`), a script and a sysfs attribute for the
network parameters, and a visualiser that draws the possible executions of a program (`ncm_visualizer`).

This project models these parts in Dafny and proves what they promise. Code that changes objects step by
step is a class or a method here, proved against a function; the laws are lemmas about those functions.

| file | what it holds |
|---|---|
| `words.dfy`, `bytes.dfy`, `frames.dfy` | machine words, big-endian values and bits, Ethernet frames |
| `future_spec.dfy`, `future_queue.dfy` | the timed queue: stable sorting, the ring buffer, its refinement of a plain queue |
| `variable_space.dfy`, `rcu.dfy`, `guard_laws.dfy` | the variables: double buffer, comparison, tests; readers and writers under RCU; guards on bytes |
| `machine.dfy`, `runs.dfy`, `safety.dfy`, `run_laws.dfy`, `run_values.dfy` | the virtual machine as a step function, its runs, its program counter; why runs stop and where they go; what their counters, futures and frames hold |
| `interpreter.dfy`, `nc_net.dfy`, `builtin_programs.dfy` | the interpreter and its network as objects; the two built-in programs |
| `receive_protocol.dfy`, `two_nodes.dfy`, `two_machines.dfy`, `two_machine_runs.dfy`, `sync.dfy` | message passing: one list, two nodes, two machines with their programs, the wait for a sync packet |
| `hardware.dfy`, `translator.dfy`, `records.dfy`, `params.dfy` | hardware words and their meaning, the translator, the file formats |
| `tree_builder.dfy`, `tree_futures.dfy`, `tree_traces.dfy`, `tree_pauses.dfy`, `straighten.dfy`, `straighten_rows.dfy` | the execution tree, which future its HALT takes, its paths against runs of the interpreter, its pauses, its layout and what the drawn rows show |
| `mustache_scanner.dfy`, `mustache_parser.dfy`, `mustache_program.dfy`, `mustache_tokens.dfy`, `mustache_lines.dfy`, `mustache_nesting.dfy`, `mustache_slices.dfy`, `mustache_squashing.dfy`, `mustache_roundtrip.dfy`, `mustache_printing.dfy`, `mustache_unchanged.dfy`, `mustache_reading.dfy`, `mustache_tags.dfy`, `mustache_delimiters.dfy`, `mustache_errors.dfy`, `mustache_lookup.dfy`, `mustache_render.dfy`, `mustache_meaning.dfy` | the template engine: scanner, parser, what its tokens and trees guarantee, print and parse, single tags, delimiters and errors as they are written, lookup, rendering |

Where the code differs from what one would expect, the model follows the code, and a lemma says by how much:

- `handle_if` does not check its target, so that staying inside the program needs a check of the program.
  `Safety.CheckIsExact` proves that check to be the exact one.
- The spinlock of `set_variable_data` is given back before `synchronize_rcu`. `Rcu.SpinlockAloneIsUnsafe` shows
  a run with two overlapping calls in which a reader's buffer is written, `Rcu.EarlyCallConflicts` proves exactly
  which calls can do that, and serialised calls are safe.
- `get_variable_data` reads the pointer three times. `Rcu.GetCanBeTorn` shows a run with a result that is no value
  of the variable, `Rcu.GetSnapshotExactly` says exactly when it is one.
- The translator puts the value of TEST_COUNT where the guard expects a counter id;
  `Translator.TestCountFaithfulExactly` proves the exact condition under which that does no harm: the value is 0, or
  the counter of that number exists and the jump goes to the next instruction. An unassigned guard type becomes an
  unconditional jump (`Translator.GetInstruction`).
- With several futures pending the visualiser goes on at the one with the largest delay, the interpreter at the one
  that expires first; `TreeTraces.PathIsTraceExactly` says exactly when a path is the trace all the same, and
  `TreeTraces.TwoPendingDiffer` gives the programs where it is not.
- `start_interpreter` does not empty the queue; `Runs.RestartConserves` says what that does to conservation.
- The list of a channel is last-in first-out (`ReceiveProtocol.ReceiveIsAtomicPop`), and the receive buffer cuts
  payloads at 1486 bytes (`TwoNodes.ReceivedIsWhatWasCreated`).
- `ncm_translator/ncm_translator_test.cpp` expects the two arguments of FUTURE in the other order than
  `ncm_translator/translator.c` and `interpreter.c` have them; the model has the order of the latter two.
- `sysfs.c` stores the length of a program in bytes where `hax.h` uses the number of instructions; the model uses
  the number of instructions.

## Model

| member | source | states |
|---|---|---|
| FutureSpec.InsertPlaces | future_queue.c:24-42 | in a sorted queue a new future goes behind all equal or earlier expiries and before all later ones |
| FutureSpec.StableSortStable | future_queue.c:24-42 | sorting keeps futures of equal expiry in arrival order |
| FutureSpec.SortedUnique | future_queue.c:24-42 | two sorted sequences with the same futures in the same order per expiry are equal: there is only one stable sort |
| FutureSpec.SwapKeepsStableSort | future_queue.c:31-37 | exchanging neighbours that are strictly out of order never changes the stably sorted result |
| FutureSpec.HeadIsEarliest | future_queue.c:72-82 | the head of the sorted contents is the earliest future, the oldest among ties, and removing it commutes with sorting |
| FutureSpec.RingRefinesArrivalQueue | future_queue.c:51-82 | for any capacity and any sequence of pushes and pops the ring gives the answers of a queue in arrival order that is searched on every pop |
| FutureQueues.FutureQueue.Sort | future_queue.c:24-42 | the in-place bubble sort leaves the stable sort of the live slots and does not touch dead slots, across wrap-around |
| FutureQueues.FutureQueue.Push | future_queue.c:51-70 | a full queue changes nothing; otherwise the contents are the old ones with the future inserted, expiry in 64 and wait in 32 bits |
| FutureQueues.FutureQueue.Pop | future_queue.c:72-82 | an empty queue changes nothing; otherwise the head is handed out and the rest stays, in the same array |
| FutureQueues.FutureQueue.Peek | future_queue.c:87-89 | the head, when there is one |
| Bytes.MemcmpComparesValues | variable_space.c:102-118 | on strings of one length, `memcmp` (section 7.24.4.1 of ISO C11) has the sign of the difference of the big-endian values |
| Bytes.OnesOfValue | variable_space.c:168-205 | the one bits of all bytes together are the one bits of the big-endian value |
| VariableSpaces.GetParity | netcode_helper.c:25-36 | 1 exactly for a byte with an odd number of one bits |
| VariableSpaces.CompareBytes | variable_space.c:85-123 | for byte strings of any lengths, the sign of the result is the sign of the difference of the two big-endian numbers |
| VariableSpaces.HasNonzeroByte | variable_space.c:128-163 | finds a non-zero byte exactly when the value is not 0 |
| VariableSpaces.SumOfParities | variable_space.c:168-201 | the parity of the sum is the parity of the number of one bits of the value |
| VariableSpaces.VariableSpace.Test | variable_space.c:128-227 | each flag tells what it should about the value; an unknown flag is never true |
| VariableSpaces.VariableSpace.Compare | variable_space.c:85-123 | the comparison on the current contents of two variables |
| VariableSpaces.VariableSpace.Get | variable_space.c:34-51 | one thread alone reads exactly what was last set |
| VariableSpaces.VariableSpace.Set | variable_space.c:55-75 | sets one variable and no other; the two pointers stay the two distinct buffers |
| VariableSpaces.Variable.Set | variable_space.c:55-75 | afterwards the pointers are exchanged, the front buffer holds the new bytes and the back buffer still holds the old ones |
| Rcu.SerialisedWritesAreSafe | variable_space.c:33-75 | with writes serialised end to end, no interleaving lets a writer modify a buffer that a reader in its section has dereferenced |
| Rcu.ReadersSeeWholeValues | variable_space.c:33-75 | every pointer obtained in a section still leads to the whole value current at that time, and a section sees at most one swap |
| Rcu.EarlyCallConflicts | variable_space.c:55-72 | in every state reachable with the spinlock alone: a call that takes the lock can come, in some continuation before its own swap, to write to a buffer a reader holds if and only if a reader holds the back buffer at that moment; that needs an earlier call that has not returned |
| Rcu.SpinlockAloneIsUnsafe | variable_space.c:57-72 | a run that respects only the spinlock and ends in a write to a buffer held by a reader |
| Rcu.HeldBuffersDoNotChange | variable_space.c:33-75 | buffers dereferenced by a reader do not change while it stays in its section |
| Rcu.GetSnapshotExactly | variable_space.c:34-51 | exactly when what a caller sees of a get, the bytes up to the reported length, is a value that the variable had, under serialised writes |
| Rcu.GetCanBeTorn | variable_space.c:34-51 | from every initial state a run with serialised writes leads to a get whose result is no value the variable ever had |
| Rcu.EqualLengthsGiveSnapshots | variable_space.c:34-51 | when all values written have one length, every get that starts after the first write gives a value of that time |
| GuardLaws.ValueOrder | variable_space.c:85-123 | comparing the values is comparing the strings without leading zero bytes, shorter first, then by first difference |
| GuardLaws.OrderGuards | guards.c:27-37 | EQUAL, GREATER and LESS in terms of the bytes; exactly one of the three holds |
| GuardLaws.TestGuards | variable_space.c:128-227 | the four flags in terms of the bytes: all zero, some not zero, even and odd number of one bits; two complementary pairs |
| GuardLaws.EqualAgreesOnTests | guards.c:27-41 | variables that are EQUAL, of whatever lengths, agree on every flag |
| GuardLaws.PaddingInvisible | guards.c:27-86 | zero bytes in front of a variable make no difference to any guard |
| Interpreters.CounterArray.Add | counter.c:21-24 | adds modulo 2 to the 32 to one counter and no other |
| Interpreters.CounterArray.Sub | counter.c:26-29 | subtracts modulo 2 to the 32 from one counter and no other |
| Interpreters.Interpreter.constructor | interpreter.c:353-376 | on zeroed memory the interpreter starts in the initial state of the machine |
| Interpreters.Interpreter.HandleFuture | interpreter.c:34-55 | on the whole state: the FUTURE step of the machine, with both error cases |
| Interpreters.Interpreter.HandleHalt | interpreter.c:57-81 | on the whole state: the HALT step; an empty queue is an error; the argument of the sleep is the time up to the expiry, or nearly 2 to the 64 when the deadline is missed, which is no error |
| Interpreters.Interpreter.HandleWait | interpreter.c:83-92 | the WAIT step and its sleep; an error of the first half leaves the second half out |
| Interpreters.Interpreter.HandleGoto | interpreter.c:94-107 | jumps only inside the program |
| Interpreters.Interpreter.TestGuard | guards.c:54-86 | every guard has its value in the machine; an unknown guard is reported as such; no state changes |
| Interpreters.Interpreter.HandleIf | interpreter.c:115-136 | the IF step, with the target unchecked as in the code |
| Interpreters.Interpreter.HandleClearCounter | interpreter.c:138-148 | on the whole state: the counter is 0, nothing else changes |
| Interpreters.Interpreter.HandleAddToCounter | interpreter.c:150-161 | on the whole state: the counter grows modulo 2 to the 32, nothing else changes |
| Interpreters.Interpreter.HandleSubFromCounter | interpreter.c:163-174 | on the whole state: the counter shrinks modulo 2 to the 32, nothing else changes |
| Interpreters.Interpreter.HandleSetCounter | interpreter.c:176-188 | on the whole state: the counter has the value, nothing else changes |
| Interpreters.Interpreter.HandleCreate | interpreter.c:190-202 | the CREATE step |
| Interpreters.Interpreter.HandleSend | interpreter.c:204-218 | the SEND step and the frame handed to the driver |
| Interpreters.Interpreter.HandleReceive | interpreter.c:220-237 | the RECEIVE step and its error bit |
| Interpreters.Interpreter.HandleSync | interpreter.c:239-258 | the SYNC step: a slave waits with the timeout of its instruction, and bit 15 is clear exactly if a sync packet came in time |
| Interpreters.Interpreter.Turn | interpreter.c:279-342 | one turn of the main loop is one step of the machine, return codes included |
| Interpreters.Interpreter.Thread | interpreter.c:266-345 | for every sequence of environment inputs that does not lead outside the arrays the thread does what the run of the machine says: state, frames sent, return code |
| Runs.FuturesConserved | interpreter.c:34-92 | in every run from the initial state the futures pushed are those taken and those still queued; pushes = pops + length |
| Runs.RestartConserves | interpreter.c:367-376 | after a restart the leftover futures count too; pushes = pops + length exactly if none was left over |
| Runs.DeadlinesNonDecreasing | interpreter.c:57-92 | under a clock that does not go back, the expiries taken by HALT and WAIT never decrease over the whole run, whether deadlines are met or missed |
| Runs.ErrorBitsMeaning | interpreter.c:220-258 | along every run bit 10 is set exactly if the last RECEIVE failed, bit 15 exactly if the last slave SYNC timed out, and no other bit ever |
| Runs.WaitIsFutureThenHalt | interpreter.c:83-92 | one WAIT step leads where a FUTURE step and then a HALT step lead, errors included |
| Runs.RunExtends | interpreter.c:266-345 | a run that is still going continues with the next input from the state it reached |
| RunLaws.StopsExactly | interpreter.c:266-345 | a run stops with a code if and only if it comes to an instruction that ends it so, told by type numbers and arguments: END_OF_PROGRAM with 0, a type without a handler with 2, and with 1 a jump outside the program, a full or an empty queue, an unknown guard, a frame that cannot be sent |
| RunLaws.EndOfProgramStops | interpreter.c:324-326 | a run that executes END_OF_PROGRAM ends there with PROGRAM_OK, whatever comes after |
| RunLaws.StepGoesTo | interpreter.c:34-136 | where each instruction goes: HALT to the earliest target, WAIT to the earlier one of queue and new future, GOTO and a true IF to their arguments, all others to the next one |
| RunValues.CountersTally | counter.c:12-29 | over every run each counter holds, modulo 2 to the 32, what the last SET or CLEAR gave it and the ADDs and SUBs since then made of that |
| RunValues.TakenWasScheduled | interpreter.c:34-92 | every future taken in a run from the initial state has delay and target of a FUTURE or WAIT of the program, and expires its delay after the clock at its push |
| RunValues.FramesOnTheWire | nc_net.c:358-398 | every frame of every run goes to ff:ff:ff:ff:ff:ff, from the address of a device of the node, with the protocol bytes 90 09 |
| RunValues.FrameBytes | nc_net.c:358-374 | all bytes of a frame from CREATE to SEND, and by which bytes a channel keeps a frame |
| RunValues.SentIsCreated | nc_net.c:358-398 | CREATE and then SEND on one slot, with user writes and arriving frames in between: exactly one frame goes out, with all its bytes and the bytes the variable had at CREATE; that slot is empty then, the others untouched, and only a refusal by the driver ends the run |
| RunValues.WrittenIsSent | variable_space.c:55-75 | what a user wrote into a variable is what a CREATE and SEND behind it put on the wire |
| RunValues.NewestFirst | nc_net.c:208-286 | of two frames that arrive RECEIVE takes the second, and the first stays, in front of what was queued |
| RunValues.StatusTestMeans | guards.c:54-86 | in every run STATUS_TEST is true exactly if its argument asks for bit 10 and the last RECEIVE failed, or for bit 15 and the last slave SYNC timed out |
| Safety.ProgramCounterStaysInside | interpreter.c:266-345 | for a well-formed program, in every reachable state the counter and all queued jumps lie inside the program |
| Safety.CheckIsExact | interpreter.c:115-136 | the check at an instruction holds if and only if no state can go wrong there in one step |
| BuiltinPrograms.MakeArch1 | hax.h:40-73 | fills in the first built-in program, whatever the memory held before |
| BuiltinPrograms.MakeArch2 | hax.h:89-114 | fills in the second built-in program |
| BuiltinPrograms.BuiltinProgramsNeverStop | hax.h:40-114 | both programs run forever, for all clocks, packets and writes, if the driver accepts frames; at most one future is ever queued |
| BuiltinPrograms.DriverErrorStops | hax.h:40-114 | a run of a built-in program from the initial state stops if and only if the driver refuses a frame at one of its SENDs, and then with PROGRAM_ERROR |
| BuiltinPrograms.StopsExactlyWhenRefused | nc_net.c:58-71 | the same from every state such a program reaches; otherwise its invariant on queue and message slot goes on holding |
| Network.Net.Deliver | nc_net.c:208-234 | a frame is kept exactly if protocol and source address are right, cut to the buffer, at the front of the list |
| Network.Net.CreateMessageFromVar | nc_net.c:358-374 | the slot holds a frame with the current bytes of the variable; an unsent message is lost |
| Network.Net.SendMessage | nc_net.c:386-398 | both failures and the success case: the frame sent, the answer of the driver, the slot emptied |
| Network.Net.ReceiveMessageToVar | nc_net.c:250-286 | an empty list changes nothing; otherwise the first entry leaves the list and its payload is in the variable |
| ReceiveProtocol.MessagesConserved | nc_net.c:250-286 | for every interleaving with the receive thread: accepted = delivered + queued, and the message removed is the one copied |
| ReceiveProtocol.ReceiveIsAtomicPop | nc_net.c:230-286 | for every interleaving RECEIVE is linearizable as one pop of a stack, at the moment it reads the first entry |
| TwoNodes.ReceivedIsWhatWasCreated | nc_net.c:208-286 | over all interleavings of two nodes with loss and reordering: what is stored is what the sender's variable held at CREATE, cut to 1486 bytes, from the right address, and no CREATE is consumed twice |
| TwoNodes.StepMovesOne | nc_net.c:358-398 | every step conserves messages: they move between slot, wire, list, delivered and lost, and only CREATE adds one |
| TwoMachines.MachineStepIsNodeAction | interpreter.c:190-237 | every step of the machine is one action of its node or none, and leaves the other node alone |
| TwoMachines.ArrivalIsNodeAction | nc_net.c:208-234 | a frame taken off the wire does to the machine what it does to the node |
| TwoMachineRuns.RunFollows | interpreter.c:266-345 | every run of two machines, whatever their programs, is a run of the two-node system, with the same frames under way and the same values created and received |
| TwoMachineRuns.MachinesReceiveWhatWasCreated | nc_net.c:208-286 | two interpreters running any programs from their initial states: every value a RECEIVE stored was read by a CREATE of the other machine, cut to 1486 bytes, over the configured address, and no two come from one CREATE |
| Sync.ReceiveSync | nc_net.c:457-485 | on any sequence of attempts: success exactly at the first packet that comes while waiting; a timeout only once the clock is past start + timeout; every wait asked for lasts until start + timeout and is non-negative, whatever the clock does |
| Sync.AttemptsUnique | nc_net.c:457-485 | the specification of `ReceiveSync` leaves only one possible number of attempts |
| Sync.AnswerComes | nc_net.c:457-485 | the loop ends: if every failed receive advances the clock, one of timeout + 1 attempts decides |
| Sync.WaitOnStandingClock | nc_net.c:457-485 | with a clock that stands still and no answer the loop gives none after any number of attempts, each with the whole timeout |
| Hardware.EncodeDecode | ncm_translator/translator.c:16-154 | every hardware instruction has a word whose bit fields give that instruction back |
| Translator.Cell.PackGuardArgs | ncm_translator/translator.c:31-94 | the arguments written for every guard type; nothing is written for an unassigned one |
| Translator.Cell.PackCount | ncm_translator/translator.c:140-154 | the four counter operations |
| Translator.GetInstruction | ncm_translator/translator.c:156-197 | for every 32-bit word: the compiled instruction, the jump an unassigned guard turns into, or the type byte left unset; and type number and all four arguments by the bits of the word |
| Translator.CompiledFields | ncm_translator/translator.c:16-154 | the compiled instruction of every word has the type number and the four arguments that the bits of the word say, the timeout of a slave SYNC and all guard types included |
| Translator.InstructionAgrees | ncm_translator/translator.c:156-197 | one translated instruction has the effect the hardware word has, and the interpreter has a handler for it |
| Translator.TranslationPreservesRuns | ncm_translator/translator.c:16-197 | for every program whose TEST_COUNT guards keep their meaning, and all inputs, the translated program has the run of the hardware program |
| Translator.TestCountFaithfulExactly | ncm_translator/translator.c:49-52 | a record with a TEST_COUNT guard does in all states what the hardware word does if and only if its value is 0, or the counter of that number exists and the jump goes to the next instruction |
| Translator.TranslatedNeverInvalid | interpreter.c:279-342 | no run of a translated program, TEST_COUNT guards included, stops with INVALID_INSTR |
| Translator.CompiledIsKnown | guards.c:54-86 | in every state the guard of a translated IF is known, and the IF reports no error |
| Records.SwappedIsBigEndian | ncm_translator/translator_main.cpp:13-16 | four bytes read on a little-endian machine and swapped are the big-endian number |
| Records.RecordRoundTrip | ncm_visualizer/parse.py:31-42 | a 20-byte record decodes to the fields it was written from, whatever the unused bytes |
| Records.ReadRecords | ncm_visualizer/parse.py:31-42 | the reading loop, with its failures on an incomplete record and on a type without a name |
| Records.ReadsExactly | ncm_visualizer/parse.py:31-42 | reading succeeds if and only if the stream is a whole number of 20-byte records with types up to 20, and then gives type and little-endian arguments of every record, in order |
| Records.TranslateStream | ncm_translator/translator_main.cpp:18-36 | one record for every complete word, in order; left-over bytes are dropped |
| Records.TranslatorPipeline | ncm_translator/translator_main.cpp:18-36 | for every input whose words have known opcodes, whatever their unused bits: reading the translator's records back gives the compiled program, word i at place i |
| Records.WordsPreserveRuns | ncm_translator/translator_main.cpp:13-36 | an interpreter that holds the program read from the translated bytes has, for all inputs, the run that the words mean |
| Records.AssembledMeans | ncm_translator/translator.c:16-154 | every hardware program is the meaning of some file of big-endian words |
| Params.MakeParams | ncm_translator/mkparams.py:21-30 | the file is the count, all names and all addresses; each name starts its field of 16 bytes and zero bytes fill the rest |
| Params.NamesHeld | ncm_translator/mkparams.py:28-28 | the name of entry k stands at byte 16 k of the names, with zero bytes up to byte 16 (k + 1) |
| Params.MacsHeld | ncm_translator/mkparams.py:29-30 | the address of entry k stands at byte 6 k of the addresses |
| Params.Sysfs.Store | sysfs.c:65-94 | a file is taken exactly when the module is stopped and its length fits its count; then all of it is stored, otherwise nothing changes |
| Params.Sysfs.Show | sysfs.c:35-58 | count, names and addresses one after the other |
| Params.StoreThenShow | sysfs.c:49-94 | a file made by the script is accepted by a stopped module and shown byte for byte; in the file, behind its little-endian count, and in the module every name starts its 16 bytes with zeros behind it, and every address is in place |
| Params.PartsUnique | sysfs.c:68-94 | such a file can be taken apart in one way only |
| TreeBuilding.TreeBuilder.Step | ncm_visualizer/parse.py:69-119 | the recursion with its shared queue ends and computes the tree and the queue of the specification, exceptions included |
| TreeBuilding.TreeShape | ncm_visualizer/parse.py:69-119 | indices strictly increase along every path and no node has more than two children |
| TreeFutures.SortedByDelaySorts | ncm_visualizer/parse.py:92-93 | the sorted queue is ascending by delay, holds the same futures, and those of one delay in their order |
| TreeFutures.BuildRefinesSearch | ncm_visualizer/parse.py:69-119 | the builder that sorts at every HALT gives the tree of one that keeps arrival order and searches for the largest delay |
| TreeFutures.HaltTakesLongest | ncm_visualizer/parse.py:91-103 | HALT takes the queued future with the largest delay, the latest among equal ones, exactly that one leaves the queue, the pause lasts until its scheduled time, and the tree goes on at its target |
| TreeFutures.FutureSchedules | ncm_visualizer/parse.py:88-90 | FUTURE goes to the end of the queue with the time now plus its delay, and the tree goes on behind it |
| TreeFutures.IfBranches | ncm_visualizer/parse.py:107-113 | the children of an IF are that of the next instruction and then, with the queue left by it, that of the target |
| TreeFutures.Exceptions | ncm_visualizer/parse.py:74-94 | a type without a length, and a HALT with no future pending, raise an exception |
| TreeFutures.NoException | ncm_visualizer/parse.py:74-119 | any other type gives a node whose child is that of the next instruction |
| TreePauses.PauseLengths | ncm_visualizer/parse.py:88-119 | along the way of a program without IF: behind a HALT, and only there, stands a pause, which is the delay of a future in front of it less 200 for every instruction since, and the way goes on at the target of that future |
| TreeTraces.PathIsTraceExactly | ncm_visualizer/parse.py:69-119 | for programs with IF too, and all runs, arriving frames and user writes included: the counters of the run are a prefix of the way through the tree that its guards choose if and only if at each HALT the future with the largest delay has the target of the earliest one |
| TreeTraces.PathEnds | ncm_visualizer/parse.py:107-119 | such a way executed to its end ends in LOOP exactly where the run jumps back, and otherwise where it leaves the program |
| TreeTraces.PathIsTrace | ncm_visualizer/parse.py:69-119 | without IF and with at most one future pending both hold of every run |
| TreeTraces.TreeTracesProgram | ncm_visualizer/parse.py:66-119 | that for the whole tree and all runs from the initial state |
| TreeTraces.TwoPendingDiffer | ncm_visualizer/parse.py:97-105 | for all delays x and y: after FUTURE x to one place, FUTURE y to another at the same time, and HALT, the path goes on at the one with the larger delay, the interpreter at the other |
| Straighten.StraightenTree | ncm_visualizer/js/visualize.js:79-162 | the recursion that appends to shared rows in place draws the rows of the specification |
| Straighten.RowsEndOnTime | ncm_visualizer/js/visualize.js:93-162 | every row that ends in LOOP is as wide as the zoom factor times the time at LOOP, plus 50, spacers included; the others show a failure |
| StraightenRows.RowsShowPaths | ncm_visualizer/js/visualize.js:79-163 | every drawn row shows a path from the root to LOOP box by box: pauses and instructions in their own kinds, each as wide as it lasts, behind a spacer as wide as the nodes left out; every other row says whether a pause or an instruction would last less than no time |
| Straighten.PauseJoinsClocks | ncm_visualizer/js/visualize.js:93-162 | after a drawn pause both clocks show the same time |
| Straighten.MeansMissNothing | ncm_visualizer/js/visualize.js:93-162 | when every duration is its mean no deadline is missed |
| MustacheScanner.Search | ncm_visualizer/js/mustache.js:105-127 | the first place where the expression matches, or the end |
| MustacheScanner.Scanner.Scan | ncm_visualizer/js/mustache.js:88-99 | consumes a match at the front or nothing; tail and position stay in step with the template |
| MustacheScanner.Scanner.ScanUntil | ncm_visualizer/js/mustache.js:105-127 | consumes the text in front of the first match; tail and position stay in step with the template |
| MustacheProgram.LineBuffers.StripSpaces | ncm_visualizer/js/mustache.js:392-405 | deletes the white space tokens recorded for the line, if there was a tag and nothing shown |
| MustacheProgram.ScanTag | ncm_visualizer/js/mustache.js:435-456 | the kind, value and extent of a tag; an unclosed tag leaves the scanner at the end |
| MustacheProgram.TakeTurn | ncm_visualizer/js/mustache.js:408-472 | one turn of the loop: text, tag, line and delimiters |
| MustacheProgram.ParseTemplate | ncm_visualizer/js/mustache.js:371-478 | the imperative parser returns the tree or the error of the specification, for every template and pair of delimiters |
| MustacheProgram.SquashTokens | ncm_visualizer/js/mustache.js:336-356 | the joining loop against its specification |
| MustacheProgram.NestTokens | ncm_visualizer/js/mustache.js:306-331 | the nesting loop against its specification, sections left open included |
| MustacheReading.SpacesAre | ncm_visualizer/js/mustache.js:28-46 | white space is what ECMA-262 says, by code points (section 15.10.2.12 of the 5.1 edition) |
| MustacheReading.PlainNamesAre | ncm_visualizer/js/mustache.js:28-33 | the names that the results on printed templates are about, by their characters |
| MustacheTags.TagsShow | ncm_visualizer/js/mustache.js:279-290 | for the written forms: `{{n}}` shows the value escaped, `{{{n}}}` and `{{&n}}` as it is, `{{!n}}` and `{{>n}}` nothing; each parses to one token of its kind with the name n |
| MustacheTags.PaddedTag | ncm_visualizer/js/mustache.js:426-456 | white space behind the opening delimiter, behind the mark and behind the name changes nothing but the end of the token |
| MustacheDelimiters.DelimitersHold | ncm_visualizer/js/mustache.js:463-468 | behind `{{=a b=}}` the rest of any template is parsed with a and b as delimiters, in this order |
| MustacheDelimiters.DelimitersChange | ncm_visualizer/js/mustache.js:435-468 | so that behind it a tag of any kind between a and b is read as that kind, an unescaped one with braces inside them |
| MustacheErrors.NothingToClose | ncm_visualizer/js/mustache.js:456-458 | a closing tag behind a tree whose sections are closed: the error has its name and place |
| MustacheErrors.WrongName | ncm_visualizer/js/mustache.js:459-460 | a section closed by another name: the error has the name of the section and the place of the closing tag |
| MustacheErrors.NeverClosed | ncm_visualizer/js/mustache.js:471-473 | a section that is not closed: the error has its name and the end of the template |
| MustacheErrors.TagNotClosed | ncm_visualizer/js/mustache.js:448-449 | a tag that is not closed: the error has the end of the template |
| MustacheErrors.OneDelimiter | ncm_visualizer/js/mustache.js:463-466 | a delimiter tag with one delimiter is an error |
| MustacheTokens.TokensCoverTemplate | ncm_visualizer/js/mustache.js:407-472 | the tokens of every template that parses are consecutive slices that cover it, and only white space text tokens are ever deleted |
| MustacheLines.DeletedByLines | ncm_visualizer/js/mustache.js:384-433 | exactly which tokens are deleted: all white space of the lines that hold a tag and show nothing, line break included, and nothing else; not what follows the last line break |
| MustacheLines.UndisturbedExactly | ncm_visualizer/js/mustache.js:384-433 | cleaning deletes nothing if and only if no complete line holds a tag and shows nothing |
| MustacheNesting.NestLosesNothing | ncm_visualizer/js/mustache.js:306-331 | on balanced tokens nesting succeeds, and reading the tree in order gives the tokens back |
| MustacheNesting.TreeHoldsTokens | ncm_visualizer/js/mustache.js:306-478 | the tree of every template that parses holds exactly its tokens in order, all sections are closed, by name, and the inside lies within the recorded slice |
| MustacheSlices.SectionsHoldTheirSlices | ncm_visualizer/js/mustache.js:306-331 | for every section of such a tree the raw tokens between its two tags cover exactly the recorded slice of the template, and its inside is what squashing makes of exactly these tokens |
| MustachePrinting.PrintedTokens | ncm_visualizer/js/mustache.js:371-478 | the tokens of the printed form of any tree of texts, tags of all kinds but delimiters, and nested sections are those that were printed, with its lines cleaned |
| MustachePrinting.PrintParse | ncm_visualizer/js/mustache.js:371-478 | parsing the printed form of any such tree gives it back with positions, each text with what the cleaning of the lines leaves of it |
| MustacheUnchanged.PrintParseExactly | ncm_visualizer/js/mustache.js:384-433 | it comes back unchanged if and only if no complete line of it holds a tag and shows nothing but white space |
| MustacheUnchanged.PrintParseTree | ncm_visualizer/js/mustache.js:336-478 | both when texts stand side by side: they come back merged |
| MustacheUnchanged.OneLineComesBack | ncm_visualizer/js/mustache.js:384-433 | trees on one line come back unchanged |
| MustacheUnchanged.SectionLosesLineBreak | ncm_visualizer/js/mustache.js:384-433 | a section around a line break, its tags alone on their lines, comes back empty, whatever its name |
| MustacheRender.ContextObject.Lookup | ncm_visualizer/js/mustache.js:143-175 | the cached lookup gives what the walk through the parents gives, functions called on the view of the context, and keeps the cache right |
| MustacheLookup.SplitJoins | ncm_visualizer/js/mustache.js:155-155 | splitting a name: no part holds a dot, and joined with dots the parts give the name |
| MustacheLookup.JoinSplits | ncm_visualizer/js/mustache.js:155-155 | only splitting does that |
| MustacheLookup.DottedFinds | ncm_visualizer/js/mustache.js:150-166 | a name with dots whose parts lead, at any depth, through nested objects to a value in some view, and that all views inside that one miss, finds that value |
| MustacheLookup.FieldOfField | ncm_visualizer/js/mustache.js:153-172 | looking up a.b finds field b of field a of the view, called on the view if it is a function |
| MustacheLookup.FalsyStops | ncm_visualizer/js/mustache.js:156-158 | false, 0, NaN or an empty text on the way is the answer itself |
| MustacheLookup.InnermostAnswers | ncm_visualizer/js/mustache.js:150-166 | of nested views the innermost one that has a plain name answers, and none if none has it |
| MustacheLookup.DotIsView | ncm_visualizer/js/mustache.js:147-148 | a dot alone is the view itself |
| MustacheLookup.FalsyAre | ncm_visualizer/js/mustache.js:264-274 | which values count as false |
| MustacheRender.UnescapeEscape | ncm_visualizer/js/mustache.js:56-70 | escaping loses nothing |
| MustacheRender.EscapedIsInert | ncm_visualizer/js/mustache.js:56-70 | escaped text holds no character that opens or closes a tag or an attribute value |
| MustacheRender.RenderTokens | ncm_visualizer/js/mustache.js:235-294 | the rendering loops, with their caches, give the text of the specification or its failure; partials render to nothing |
| MustacheMeaning.RenderIsMeaning | ncm_visualizer/js/mustache.js:235-294 | rendering a tree of tokens, whichever of its characters are deleted, is evaluating the template that is left, section by section and item by item, its values escaped or not by how their tags are written; a function gets exactly the printed inside of its section |
| MustacheMeaning.RenderPrinted | ncm_visualizer/js/mustache.js:235-478 | printing, parsing and rendering any template tree is evaluating it with its lines cleaned, and evaluating the tree itself when no line of it is cleaned |
| MustacheMeaning.PlainTemplate | ncm_visualizer/js/mustache.js:238-478 | a template without an opening delimiter renders to itself, whatever the view |

## Left out

- Kernel services (sockets, buffer allocation, device transmit, threads, sleeping, scheduling priority, logging): answers of the environment to a step, or absent; allocation never fails.
- Memory that the C code leaves unset (header bytes, structure padding, unset argument fields, the type of an unknown opcode): parameters that may hold anything.
- Soft mode (`nc_sendmsg`, `ncm_send_message_soft`, `ncm_send_sync_soft`) and `skb_print`: socket plumbing. Also left out is the sync packet that a master sends in hard mode; its handler returns success whatever the sending does.
- Padding of short frames by the link: frames arrive as they were sent, or not at all.
- More than one channel in the receive thread: after a match the code goes on with a buffer that has not been filled.
- The `code` and `control` attributes and the creation of the sysfs objects: plumbing, and the length of a program is in bytes there.
- `netcode_module.c`, build files, shell scripts and samples: glue.
- Unknown hardware opcodes have no meaning to preserve; `Translator.GetInstruction` still says what the translator makes of them. Guard types that are not assigned are taken to mean what the translator makes of them.
- Ids beyond the arrays: the machine's step is undefined there; `Safety` gives a check that keeps a program away from there. Frames sent have at most 1500 bytes of payload because variables do.
- The branch of `handle_halt` for a negative `range`: an unsigned value is never negative, so a missed deadline goes unnoticed, as in the code. That the thread then sleeps is not in the state; the argument of the sleep is a result of `HandleHalt`.
- The text of a MAC address and the JSON in mkparams.py: entries hold the six bytes. Also left out: the samples drawn by the visualiser, its page, slider and throttle; the quantile is an arbitrary function.
- Regular expressions: four small matchers take their place; a delimiter is assumed not to begin with white space.
- Partials and the cache of compiled templates in mustache.js. Functions in a view are arbitrary but have no side effects. Properties of values other than plain objects are an arbitrary function; names that every JavaScript object inherits are not told apart from missing ones.
- Runs.DeadlinesNonDecreasing: the clock is assumed not to go back, no expiry to overflow 64 bits, and a sleep not to end before an expiry that is still ahead, since nothing in the code checks any of this. A HALT may come late.
- VariableSpaces.VariableSpace.Compare: both variables are read at one moment; concurrent writes are the subject of `Rcu`.
- Rcu.SerialisedWritesAreSafe: one variable, sequentially consistent memory.
- TwoNodes.ReceivedIsWhatWasCreated: one channel per node, and RECEIVE and each list operation are single steps here; their parts interleave in `ReceiveProtocol`. The read of the variable in CREATE is one step as well, and so are the reads of a guard: with a user write in between, `get_variable_data` can give a torn value (`Rcu.GetCanBeTorn`), so that CREATE sending what the variable held at that moment is an assumption.
- Sync.ReceiveSync: the attempts are a finite sequence, with no answer as long as none of them decides; clock differences fit 64 bits.
- Interpreters.Interpreter.HandleSync: a wait that the given attempts do not decide counts as failed; the code would go on waiting.
- Params.Sysfs.Store: assumes that a file taken has a size that did not overflow 32 bits.
- Params.MakeParams: names of at most 16 bytes, as network devices have; with a longer one the script writes a file that does not fit its count.
- TreeTraces.PathIsTrace: programs with IF have no such bound on the queue, since the branches of their tree share one queue; for them `TreeTraces.PathIsTraceExactly` is the statement.
- TreePauses.PauseLengths: programs without IF; for the others `TreeFutures.HaltTakesLongest` gives each pause from the time its future was scheduled for.
- MustachePrinting.PrintParse: the default delimiters, no delimiter tags (they are in `MustacheDelimiters`), and names without white space and closing braces that do not start like a tag type.
- MustacheProgram.NestTokens: gives none where a closing tag without a section makes the code throw; parsing never gets there.
