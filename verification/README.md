# NVMain memory-system simulator and SM3/SM4 demo code: a verified model

NVMain simulates a DRAM or non-volatile memory system cycle by cycle. A controller turns reads and writes into
ACTIVATE, PRECHARGE, column and REFRESH commands; banks and subarrays check each command against timing registers and
row state; an event queue drives everything and skips idle cycles. These pieces only work because they agree with each
other, and this project states and proves how.

| file | what it models |
|---|---|
| `EventQueue.dfy`, `GlobalEventQueue.dfy` | the event queue of one clock domain with its two loops, and the queue that keeps several domains in step |
| `Device.dfy`, `SubArray.dfy`, `SubArrayRuns.dfy` | operations and the row automaton; the subarray's registers and row state; timing safety over whole runs |
| `RowCycle.dfy` | exactly which timing parameters keep activations tRAS+tRP apart and rows legal |
| `WritePausing.dfy` | cancelling and pausing of writes in progress |
| `Bank.dfy` | the bank: open subarrays, power-down states, forwarding |
| `PowerDown.dfy` | exactly when the bank's power-down register waits for refreshes |
| `Controller.dfy` | the controller's state and steps as values: transaction queues, command queues, prediction, refresh bookkeeping |
| `Coherence.dfy`, `Conservation.dfy`, `RefreshAccounting.dfy` | what single steps keep |
| `ControllerRuns.dfy`, `ControllerEvents.dfy` | controller and device together over whole runs, driven by the event queue |
| `DeviceRuns.dfy` | the controller in one run with its banks and all their timing state |
| `MemoryController.dfy` | the controller's methods, each proved to compute its step |
| `FRFCFS.dfy`, `FRFCFSWQF.dfy` | the two schedulers |
| `DrainRuns.dfy` | the draining scheduler in one run with subarrays under write pausing |
| `ReturnedWrites.dfy` | what becomes of a write that write pausing sends back |
| `CallbackMoves.dfy` | the callbacks as sequences of the moves the runs are made of |
| `AddressTranslation.dfy`, `FlipNWrite.dfy`, `RowBufferCache.dfy` | address mapping, the Flip-N-Write encoder, the row buffers of a cached bank |
| `SM3.dfy`, `SM4.dfy` | the hash and the block cipher of the demo software |
| `Arithmetic.dfy`, `Sequences.dfy`, `Words.dfy` | shared facts |

Where the source updates objects in place there is a class whose methods carry its loops and assignments, and whose
contracts equate the new state with a function of the old one. The theorems are about those functions.

## How the pieces are connected

The device appears in the controller's runs as a map from subarrays to the row each one holds. `Device.RowStep` is the
rule it moves by; `SubArrayRuns.AcceptedMovesRow` proves that the subarray with all its timing state moves by the same
rule, an accepted implicit precharge counting as closed at once, and `Banks.IssuedMovesRows` that the bank forwards to
the right subarrays. `DeviceRuns` puts the two side by side: in every run of the controller with its banks the map and
the subarrays agree (`DeviceMatchesController`). The controller's runs let the environment decide which commands the
device takes and when, but for one gate: a REFRESH is taken only when the subarrays it reaches are closed.
`DeviceRuns.TakenIsAllowed` proves that the banks enforce it.

Event handlers are values that may change the world and ask for insertions and removals in strictly later cycles. A
controller callback other than the cleanup is any sequence of controller steps together with any such requests, so the
runs include every order in which the real callbacks could come. `CallbackMoves` proves that what the class methods do in
a callback is such a sequence. Between two runs of the loop requests may be handed over, and the loop be asked to look
at them in the same cycle.

The wake-up at the end of a scheduling cycle may bring refreshes in. In the class methods that is part of the call; in the
runs of `BoundedOvertaking` and `DrainsAreClean` the refreshes are further steps after the cycle. The controller's own
events are a multiset beside its state, and the contracts say which ones each method adds.

`WriteDrain` has a write return cancelled or paused only if it was not forced. `DrainRuns` runs the scheduler together
with subarrays that cancel and pause, and drops that guard: replies are followed whatever they say, and none puts a write
back.

## Where the code and its documentation or the obvious claim part

- The typed overloads of `InsertEvent` never store the priority (riscv-vp-mine/NVmain/src/EventQueue.cpp:123-135), so event
  lists are not sorted by stored priority: `InsertionUnsorts` has a list, `SortedIff` the exact condition. What is true of
  all lists, and enough for the controller, is that the cleanups come first.
- `HandleRefresh` does not look at the queued flag (riscv-vp-mine/NVmain/src/MemoryController.cpp:662), so the assertion at
  line 620 of that file can fail: `AssertCanFail` has the run, `AssertHoldsIffNoDoubles` the exact condition.
- `MoveCurrentQueue` compares with `>` (riscv-vp-mine/NVmain/src/MemoryController.cpp:1868), so the index may stand one
  past the last queue; the modulus in `CycleCommandQueues` takes care of it.
- A second branch of `IssueMemoryCommands` (riscv-vp-mine/NVmain/src/MemoryController.cpp:1560-1587) ignores the
  last-request flag; the model does too.
- The implicit precharge ignores tRAS (riscv-vp-mine/NVmain/src/SubArray.cpp:395-404), so two activations need not be
  tRAS+tRP apart. `FullRowCycleIff` says for which timing parameters they are in every run, and builds a run for the
  others; `RowCycleTime` states the bound that holds for each way of closing.
- With a tRP of 0 a read can slip in between the end of an implicit precharge and its event, on a row that is closing;
  `RowsLegalIff` proves that this is the only case.
- `DDR3Bank::Write` overwrites the power-down register (riscv-vp-mine/NVmain/Banks/DDR3Bank/DDR3Bank.cpp:478), although the
  comment at line 673 of that file says that power-down waits for the end of a refresh. `AlwaysWaitsIff` says for which
  timing parameters it does in every run, `WaitsIff` the same for commands some cycles apart, as the controller sends them,
  and `WaitCutShort` builds a run for the others.
- The flag of an issued request is set (riscv-vp-mine/NVmain/src/MemoryController.cpp:1680) and never cleared. With write
  pausing a write may come back with it (riscv-vp-mine/NVmain/MemControl/FRFCFS/FRFCFS.cpp:173-184), and the cleanup takes
  the command queued for it again for an issued one. `WriteIsLost` has an input, `NextSendDecides` the exact condition.
- The rank passes a REFRESH to the subarray it names in every bank of the group, not to all subarrays
  (riscv-vp-mine/NVmain/Ranks/StandardRank/StandardRank.cpp:584-589); it finds that one closed.
- With both water marks above the queue size the low one ends up above the high one, because of the `else if` at
  riscv-vp-mine/NVmain/MemControl/FRFCFS-WQF/FRFCFS-WQF.cpp:161-172.
- `InvertData` mirrors each byte besides complementing it (riscv-vp-mine/NVmain/DataEncoders/FlipNWrite/FlipNWrite.cpp:106-109).
  It is still its own inverse on whole bytes, but the bits counted need not be the cells that change: `CountMissesAll` has
  a pair of blocks, `CountIsExactIff` the exact condition.
- SM3 adds one block too many for lengths of 55 modulo 64 (riscv-vp-mine/sw/sm3_sw/SM3.h:131). Its rotation by 0 shifts by 32,
  which C leaves undefined; the model takes it as the identity, as the standard means it.

## Model

| member | source | states |
|---|---|---|
| ControllerEvents.EveryRunIsSound | riscv-vp-mine/NVmain/src/MemoryController.cpp:1648-1719 | In every session - runs of the event loop of any length, with requests handed over and events inserted between them, in the same cycle too, and whatever the other callbacks do: at most one command leaves per cycle and none twice, what the device has seen is row-legal and its rows plus the unissued queues give the prediction, every accepted request is in exactly one place, and every refresh pulse is delayed, queued or issued |
| ControllerEvents.SessionRuns | riscv-vp-mine/NVmain/src/EventQueue.cpp:327-355 | A session leaves out no call of the loop: one that ends before the end of time is exactly what the loop computes |
| ControllerEvents.WorkAfterCleanup | riscv-vp-mine/NVmain/src/MemoryController.cpp:292-304 | When an event behind the cleanup priority starts, every command issued in an earlier cycle has left its queue; one issued in this cycle has its cleanup scheduled for the next. Cleanups of other controllers on the same event queue may stand before this one |
| ControllerEvents.ListEnters | riscv-vp-mine/NVmain/src/MemoryController.cpp:292-304 | A list with this controller's cleanup somewhere in that prefix leaves the cycle in order |
| ControllerEvents.CompletionFindsNoCommand | riscv-vp-mine/NVmain/src/MemoryController.cpp:292-304 | A request that completes in a cycle after the one it was issued in waits nowhere any more and its command is in no queue |
| ControllerEvents.SplicedCleanupsFirst | riscv-vp-mine/NVmain/src/EventQueue.cpp:137-179 | Inserting by priority keeps the callbacks at the cleanup priority (stored -10), this controller's and others', a prefix of an event list, although other stored priorities may disagree with the order |
| ControllerEvents.WithoutCleanupsFirst | riscv-vp-mine/NVmain/src/EventQueue.cpp:198-238 | Removing any other event keeps that prefix and every cleanup in it |
| ControllerEvents.AppliedAllKeepsCleanups | riscv-vp-mine/NVmain/src/EventQueue.cpp:137-238 | Any list of insertions and removals of other events keeps every scheduled cleanup, and the prefix, in all lists |
| ControllerEvents.EffectsOfWork | riscv-vp-mine/NVmain/src/MemoryController.cpp:1690-1699 | A callback that issues a command has its cleanup in the list of the next cycle, once |
| ControllerEvents.MovesKeepCycle | riscv-vp-mine/NVmain/src/MemoryController.cpp:1648-1719 | Over any sequence of controller steps in one cycle: no second command is issued, the one issued is the last in the log, and it alone may still sit in a queue as issued |
| ControllerEvents.IssuedOnce | riscv-vp-mine/NVmain/src/MemoryController.cpp:1667-1687 | Two entries of the issue log are never the same command |
| ControllerRuns.MoveKeepsSound | riscv-vp-mine/NVmain/src/MemoryController.cpp:1476-1646 | Every step - accepting, scheduling, a refresh pulse, handling a refresh, sending, completing - keeps coherence, conservation, refresh accounting, queue order and the refresh flags |
| ControllerRuns.CleanupKeepsSound | riscv-vp-mine/NVmain/src/MemoryController.cpp:292-304 | So does removing issued commands |
| ControllerRuns.LaunchedRows | riscv-vp-mine/NVmain/src/MemoryController.cpp:1667-1687 | An issued command is legal on every subarray it reaches, and the device rows it leaves are the replay of the whole log |
| ControllerRuns.LaunchedInOrder | riscv-vp-mine/NVmain/src/MemoryController.cpp:1658-1687 | Each queue issues its commands in the order they were queued |
| DeviceRuns.DeviceMatchesController | riscv-vp-mine/NVmain/Banks/DDR3Bank/DDR3Bank.cpp:869-923 | In every run of the controller together with its banks, every subarray there is holds the row the controller's runs have for it, and where no command waits for its bank the row the controller predicts; what it has accepted keeps every timing distance and is row-legal |
| DeviceRuns.TakenIsAllowed | riscv-vp-mine/NVmain/Ranks/StandardRank/StandardRank.cpp:732-754 | If every bank of the group can take a REFRESH, the subarrays it reaches are closed: the gate the controller's runs put on REFRESH is the device's own |
| DeviceRuns.NoBankMissing | riscv-vp-mine/NVmain/src/MemoryController.cpp:662-709 | Every bank the head of a queue is passed to exists and has the subarray it names |
| DeviceRuns.BankTakes | riscv-vp-mine/NVmain/Banks/DDR3Bank/DDR3Bank.cpp:314-697 | A bank that takes a command moves its rows as the controller's runs do, and stays in agreement with its subarrays |
| DeviceRuns.ActKeepsSafe | riscv-vp-mine/NVmain/src/SubArray.cpp:275-1366 | Every command and event of a subarray keeps its accepted commands safe in time and row-legal |
| CallbackMoves.CommandQueueCallbackIsMoves | riscv-vp-mine/NVmain/src/MemoryController.cpp:249-275 | The whole effect of the command wake-up, with the refreshes it brings in, is a sequence of moves of the controller's runs |
| CallbackMoves.RefreshCallbackIsMoves | riscv-vp-mine/NVmain/src/MemoryController.cpp:277-290 | So is that of a refresh timer |
| CallbackMoves.SchedulingIsMoves | riscv-vp-mine/NVmain/MemControl/FRFCFS/FRFCFS.cpp:220-269 | So is that of a scheduling cycle of either scheduler |
| CallbackMoves.SelectionIsMove | riscv-vp-mine/NVmain/src/MemoryController.cpp:1106-1156 | What a scheduler with a predicate of its own selects and has queued is one move |
| ControllerRuns.MoveKeepsClosed | riscv-vp-mine/NVmain/src/MemoryController.cpp:1604-1607 | Under restricted close-page no bank stays activated, so the branch with the assertion against it is never reached |
| ControllerRuns.AssertHoldsIffNoDoubles | riscv-vp-mine/NVmain/src/MemoryController.cpp:613-623 | Once the REFRESHes of a group are all issued, the assertion that the queued flag is set has held throughout exactly when none was queued while another was outstanding |
| ControllerRuns.AssertCanFail | riscv-vp-mine/NVmain/src/MemoryController.cpp:613-623 | It fails in a run of one bank with a threshold of one: two pulses, each handled at once as the refresh callback does, then both REFRESHes issued with the cleanup between, for any cycles in that order; what holds the first one back until the second is queued is the device's affair |
| ControllerRuns.MoveAccounts | riscv-vp-mine/NVmain/src/MemoryController.cpp:574-764 | Pulses of a group = delayed counter + REFRESHes queued + REFRESHes issued; a bank waits for refresh iff its counter is at the threshold; the round-robin pointer is always at a group head |
| ControllerRuns.MoveKeepsQueuedFlags | riscv-vp-mine/NVmain/src/MemoryController.cpp:693-699 | The queued flag of a bank says that the last thing that happened to its group was a REFRESH being queued, and one is then outstanding |
| ControllerRuns.MoveConserves | riscv-vp-mine/NVmain/src/MemoryController.cpp:1476-1646 | An accepted request is counted exactly once among waiting, in flight and done |
| ReturnedWrites.NextSendDecides | riscv-vp-mine/NVmain/src/MemoryController.cpp:292-304 | A write that comes back, with its issued flag still on, and is scheduled again is lost with the cleanup after the next command sent, unless that command is the write itself: it found its row open and its queue went first |
| ReturnedWrites.LostIffNotSent | riscv-vp-mine/NVmain/src/MemoryController.cpp:1671-1699 | Over any steps: lost with the next cleanup if and only if no step before it sends the write |
| ReturnedWrites.WriteIsLost | riscv-vp-mine/NVmain/MemControl/FRFCFS/FRFCFS.cpp:171-184 | An input: a returned write to a closed bank |
| Coherence.CommandsFollowPrediction | riscv-vp-mine/NVmain/src/MemoryController.cpp:1523-1633 | The commands for a transaction are legal from the predicted row and end in the new prediction, for every branch and every subarray |
| Coherence.FlagsAfterBranch | riscv-vp-mine/NVmain/src/MemoryController.cpp:1523-1633 | A bank stays marked activated iff one of its subarrays is active, and inactive means row and mux level ROWS |
| Coherence.IssuedCoherent | riscv-vp-mine/NVmain/src/MemoryController.cpp:1476-1646 | Queueing the commands of a transaction keeps prediction coherence |
| Coherence.ScheduledCoherent | riscv-vp-mine/NVmain/src/MemoryController.cpp:1098-1464 | So does selecting a transaction and queueing its commands |
| Coherence.ClosedForRefreshCoherent | riscv-vp-mine/NVmain/src/MemoryController.cpp:668-697 | Closing the banks of a group for a refresh keeps coherence and leaves the group predicted closed |
| Coherence.RefreshCoherent | riscv-vp-mine/NVmain/src/MemoryController.cpp:662-709 | Queueing the precharges and the REFRESH keeps coherence: the REFRESH comes on closed subarrays |
| Coherence.SentCoherent | riscv-vp-mine/NVmain/src/MemoryController.cpp:1667-1687 | The head of a queue meets the device in a row state that allows it, and carrying it out keeps coherence |
| Coherence.CleanedCoherent | riscv-vp-mine/NVmain/src/MemoryController.cpp:292-304 | Removing issued commands keeps coherence |
| Coherence.InitiallyCoherent | riscv-vp-mine/NVmain/src/MemoryController.cpp:440-490 | The empty controller is coherent with a device whose rows are all closed |
| Conservation.ScheduledConserves | riscv-vp-mine/NVmain/src/MemoryController.cpp:1098-1464 | Selecting takes exactly the eligible request chosen and keeps the others in order; how often any request waits does not change |
| Conservation.SelectedIsAccepted | riscv-vp-mine/NVmain/src/MemoryController.cpp:1634-1637 | The failing branch is never reached after a selection |
| Conservation.CommandsCarryRequest | riscv-vp-mine/NVmain/src/MemoryController.cpp:1523-1633 | The commands of a transaction carry its request exactly once |
| Conservation.RefreshConserves | riscv-vp-mine/NVmain/src/MemoryController.cpp:662-709 | A refresh adds no request and drops none |
| Conservation.SentConserves | riscv-vp-mine/NVmain/src/MemoryController.cpp:1667-1687 | An issued command takes exactly its own request out of what waits |
| Conservation.QueueInRange | riscv-vp-mine/NVmain/src/MemoryController.cpp:1754-1786 | Every bank maps to a command queue that exists, per rank and per bank, in both round-robin schemes |
| RefreshAccounting.ScanCovers | riscv-vp-mine/NVmain/src/MemoryController.cpp:651-662 | The round-robin scan finds a group exactly when some group needs a refresh |
| RefreshAccounting.ScanIndex | riscv-vp-mine/NVmain/src/MemoryController.cpp:651-660 | Every step of the scan looks at the head of an existing group, counted around from the pointer |
| RefreshAccounting.RefreshOutstanding | riscv-vp-mine/NVmain/src/MemoryController.cpp:700-722 | Queueing a REFRESH moves one from the delayed counter of its group to its queue, and touches no other group |
| RefreshAccounting.SentOutstanding | riscv-vp-mine/NVmain/src/MemoryController.cpp:1667-1687 | Issuing removes a REFRESH from its own group only |
| RefreshAccounting.SentFlags | riscv-vp-mine/NVmain/src/MemoryController.cpp:710-730 | After a refresh the need flags agree with the counters again and the pointer is at a group head |
| RefreshAccounting.PulsedFlags | riscv-vp-mine/NVmain/src/MemoryController.cpp:747-764 | After a pulse the need flags agree with the counters |
| MemoryControllers.HandledLowersTotal | riscv-vp-mine/NVmain/src/MemoryController.cpp:651-741 | Every handled refresh lowers the sum of all delayed-refresh counters by exactly one |
| MemoryControllers.MemoryController.HandleRefresh | riscv-vp-mine/NVmain/src/MemoryController.cpp:651-741 | Returns whether the scan found a group; the state after it, with everything the wake-up brought in, is as many handled refreshes as the sum of the counters has gone down |
| MemoryControllers.MemoryController.NextIssuable | riscv-vp-mine/NVmain/src/MemoryController.cpp:1788-1823 | Terminates; the state is as many handled refreshes later as the counters have gone down. The wake-up is in the future, and with what was scheduled on the way no queue head waits past the cycle the device may take it. If no refresh was handled, it is at most max(now+1, that cycle) for the head of every non-empty queue of an existing bank, and is the end of time, now+1 or that cycle for one of them |
| MemoryControllers.MemoryController.ScheduleCommandWake | riscv-vp-mine/NVmain/src/MemoryController.cpp:231-247 | The wake-up is scheduled unless it was; afterwards no queue is forgotten: every head is looked at as soon as the device may take it by a wake-up that is scheduled |
| MemoryControllers.MemoryController.RefreshCallback | riscv-vp-mine/NVmain/src/MemoryController.cpp:277-290 | A pulse of the group, then as many handled refreshes as the counters go down; the timer is set again, and if a refresh was queued no queue is forgotten |
| MemoryControllers.MemoryController.CommandQueueCallback | riscv-vp-mine/NVmain/src/MemoryController.cpp:249-275 | Refreshes that are due come in, the next wake-up is scheduled so that no queue is forgotten, then at most one command leaves, with its cleanup |
| MemoryControllers.MemoryController.IsRefreshBankQueueEmpty | riscv-vp-mine/NVmain/src/MemoryController.cpp:770-785 | Holds iff the queue of every bank of the group is empty or about to be |
| MemoryControllers.MemoryController.QueueRefresh | riscv-vp-mine/NVmain/src/MemoryController.cpp:662-732 | The state is that of the model after a refresh of the group |
| MemoryControllers.MemoryController.ProcessRefreshPulse | riscv-vp-mine/NVmain/src/MemoryController.cpp:747-764 | The state is that of the model after a pulse of the bank's group, and the next pulse comes tREFI cycles later |
| MemoryControllers.MemoryController.FindRequestWhere | riscv-vp-mine/NVmain/src/MemoryController.cpp:1106-1464 | Removes exactly the first request that is eligible and passes the scheduler's own predicate, or nothing when there is none, and sets the last-request flag by the page policy |
| MemoryControllers.MemoryController.FindRequest | riscv-vp-mine/NVmain/src/MemoryController.cpp:1098-1104 | Without a predicate, the first eligible request |
| MemoryControllers.FirstChosenOfAll | riscv-vp-mine/NVmain/src/MemoryController.cpp:1098-1104 | A predicate that lets every request through changes nothing |
| MemoryControllers.MemoryController.IsLast | riscv-vp-mine/NVmain/src/MemoryController.cpp:1065-1096 | The last-request decision of the three page policies |
| MemoryControllers.MemoryController.QueueCommands | riscv-vp-mine/NVmain/src/MemoryController.cpp:1523-1637 | The four branches compute the model's step, and report failure exactly on the failing one |
| MemoryControllers.MemoryController.IssueMemoryCommands | riscv-vp-mine/NVmain/src/MemoryController.cpp:1476-1646 | The same followed by the wake-up, which may handle refreshes; afterwards no queue is forgotten |
| MemoryControllers.MemoryController.CycleCommandQueues | riscv-vp-mine/NVmain/src/MemoryController.cpp:1648-1719 | Sends the first head the device takes, round-robin from the current queue, and at most one per cycle; schedules its cleanup once, and a look at the transactions if it was the last command of its queue and one waits for it |
| MemoryControllers.NoQueueMissed | riscv-vp-mine/NVmain/src/MemoryController.cpp:1658-1669 | If nothing is sent, the device takes the head of no queue |
| MemoryControllers.AllScanned | riscv-vp-mine/NVmain/src/MemoryController.cpp:1788-1823 | At the end of the scan for the next wake-up every head is covered, although refreshes handled on the way change queues already passed |
| MemoryControllers.MemoryController.Enqueue | riscv-vp-mine/NVmain/src/MemoryController.cpp:182-206 | The request waits last; the transactions are looked at in this cycle if no command waits for its bank, once |
| MemoryControllers.MemoryController.Cycle | riscv-vp-mine/NVmain/src/MemoryController.cpp:138-171 | The transactions are looked at next cycle iff some idle queue has one waiting |
| MemoryControllers.MemoryController.TransactionAvailable | riscv-vp-mine/NVmain/src/MemoryController.cpp:209-229 | Holds iff some waiting transaction maps to the queue |
| MemoryControllers.MemoryController.CleanupCallback | riscv-vp-mine/NVmain/src/MemoryController.cpp:292-304 | Every queue keeps exactly its unissued commands, in order |
| MemoryControllers.MemoryController.ClearBank | riscv-vp-mine/NVmain/src/MemoryController.cpp:685-693 | Closing a bank clears its subarrays and only those |
| MemoryControllers.MemoryController.ResetRefreshQueued | riscv-vp-mine/NVmain/src/MemoryController.cpp:613-623 | The queued flags of exactly the banks of the group go off |
| FRFCFSScheduling.BoundedOvertaking | riscv-vp-mine/NVmain/MemControl/FRFCFS/FRFCFS.cpp:220-269 | While a request that misses waits past its arrival, at most starvationThreshold hits to its subarray, less those counted already, are scheduled before something else is scheduled there - over any run of scheduling cycles and other steps |
| FRFCFSScheduling.NoHitPastStarved | riscv-vp-mine/NVmain/src/MemoryController.cpp:1115-1156 | Once its subarray has starved, no hit is scheduled past a waiting miss |
| FRFCFSScheduling.HitsAreChosenAsHits | riscv-vp-mine/NVmain/MemControl/FRFCFS/FRFCFS.cpp:220-260 | What is selected hits the open row iff it was selected as a hit: the later selectors never come across one |
| FRFCFSScheduling.CycleStep | riscv-vp-mine/NVmain/src/MemoryController.cpp:1523-1620 | A hit raises the starvation counter by one; scheduling elsewhere leaves the counter and the miss as they are |
| FRFCFSScheduling.FRFCFS.Cycle | riscv-vp-mine/NVmain/MemControl/FRFCFS/FRFCFS.cpp:220-269 | Selects in the order starved, hit, oldest ready, closed bank, queues its commands so that no queue is forgotten, sends one command, and looks again next cycle if a transaction could start |
| FRFCFSScheduling.FRFCFS.IssueCommand | riscv-vp-mine/NVmain/MemControl/FRFCFS/FRFCFS.cpp:126-169 | Refused exactly when the queue is full; otherwise queued last with its arrival cycle, and looked at at once if its command queue is idle |
| FRFCFSScheduling.FRFCFS.RequestComplete | riscv-vp-mine/NVmain/MemControl/FRFCFS/FRFCFS.cpp:171-187 | A cancelled or paused write, with implicit precharge or without, and only that, goes back to the head of the queue |
| WriteDrain.DrainsAreClean | riscv-vp-mine/NVmain/MemControl/FRFCFS-WQF/FRFCFS-WQF.cpp:230-505 | Over any run: the write queue keeps within its size, every write issued was forced, none can come back cancelled or paused, and no step during a drain lengthens the queue |
| DrainRuns.WritesNeverComeBack | riscv-vp-mine/NVmain/MemControl/FRFCFS-WQF/FRFCFS-WQF.cpp:275-291 | In every run of the scheduler with subarrays that may cancel or pause writes, and with replies followed whatever they say, no write comes back, every write sent was forced, and the write queue keeps within its size |
| WriteDrain.RunsDrain | riscv-vp-mine/NVmain/MemControl/FRFCFS-WQF/FRFCFS-WQF.cpp:230-505 | Over any run reads wait in the read queue and writes in the write queue, within its size, and every write in a command queue or issued is forced |
| WriteDrain.ActKeeps | riscv-vp-mine/NVmain/MemControl/FRFCFS-WQF/FRFCFS-WQF.cpp:333-505 | Each step keeps these, and a forced drain stays on |
| WriteDrain.MarksOrderedIff | riscv-vp-mine/NVmain/MemControl/FRFCFS-WQF/FRFCFS-WQF.cpp:160-172 | After the sanity check the low mark is above the high one exactly when both were configured above the queue size |
| WriteDrain.FRFCFS_WQF.SetConfig | riscv-vp-mine/NVmain/MemControl/FRFCFS-WQF/FRFCFS-WQF.cpp:132-172 | The configured values, checked |
| WriteDrain.FRFCFS_WQF.IssueCommand | riscv-vp-mine/NVmain/MemControl/FRFCFS-WQF/FRFCFS-WQF.cpp:230-271 | Reads and writes go to their own queues; a write is refused when its queue is full or a drain is on |
| WriteDrain.FRFCFS_WQF.RequestComplete | riscv-vp-mine/NVmain/MemControl/FRFCFS-WQF/FRFCFS-WQF.cpp:275-291 | A cancelled or paused write, with implicit precharge or without, and only that, goes back to the head of the write queue |
| WriteDrain.FRFCFS_WQF.Cycle | riscv-vp-mine/NVmain/MemControl/FRFCFS-WQF/FRFCFS-WQF.cpp:333-509 | The drain switches by the marks, one side is looked at, what is selected in a drain is forced, one command is sent, and the controller looks again next cycle if a transaction could start |
| EventQueues.SkippingIsTicking | riscv-vp-mine/NVmain/src/EventQueue.cpp:312-355 | Loop(n) reaches exactly the state of n calls of Loop() followed by Loop(0), for every handler that inserts and removes only in later cycles |
| EventQueues.AdvanceTwice | riscv-vp-mine/NVmain/src/EventQueue.cpp:327-355 | Loop(a) then Loop(b) is Loop(a+b) |
| EventQueues.SameDeliveries | riscv-vp-mine/NVmain/src/EventQueue.cpp:358-418 | Skipping and ticking deliver the same events in the same cycles and order |
| EventQueues.InsertedWellFormed | riscv-vp-mine/NVmain/src/EventQueue.cpp:137-179 | Insertion keeps the cached next cycle exact, not behind the clock, and no list empty |
| EventQueues.RemovedWellFormed | riscv-vp-mine/NVmain/src/EventQueue.cpp:198-238 | So does removal |
| EventQueues.SortedIff | riscv-vp-mine/NVmain/src/EventQueue.cpp:137-179 | A list sorted by stored priority stays sorted exactly when the stored priority of the new event lies between its neighbours' at the place the given one picks; always when the two agree |
| EventQueues.InsertionUnsorts | riscv-vp-mine/NVmain/src/EventQueue.cpp:123-135 | It does not stay sorted when an event that keeps priority 0 is inserted at 30 behind a refresh callback |
| EventQueues.EventQueue.InsertEvent | riscv-vp-mine/NVmain/src/EventQueue.cpp:137-179 | The event goes before the first stored priority that is larger, and the cached next cycle follows |
| EventQueues.EventQueue.RemoveEvent | riscv-vp-mine/NVmain/src/EventQueue.cpp:198-238 | Removes the first occurrence, an emptied list with it, and reports whether it was there |
| EventQueues.EventQueue.Process | riscv-vp-mine/NVmain/src/EventQueue.cpp:358-418 | Delivers the list of the next cycle in order and retires it |
| EventQueues.EventQueue.Loop | riscv-vp-mine/NVmain/src/EventQueue.cpp:312-324 | One tick of the specification |
| EventQueues.EventQueue.LoopFor | riscv-vp-mine/NVmain/src/EventQueue.cpp:327-355 | Jumps from event to event; terminates also when a jump is zero cycles long |
| GlobalEventQueues.GlobalEventQueue.Cycle | riscv-vp-mine/NVmain/src/EventQueue.cpp:476-507 | The global clock advances by exactly the steps, every local clock L has floor(G/m) <= L <= floor(G/m)+1, nothing is left due, and each domain is where it would be had it run alone |
| GlobalEventQueues.GlobalEventQueue.GetNextEvent | riscv-vp-mine/NVmain/src/EventQueue.cpp:520-549 | The earliest domain in global cycles, the first one on a tie |
| GlobalEventQueues.GlobalEventQueue.Sync | riscv-vp-mine/NVmain/src/EventQueue.cpp:556-570 | Every domain catches up with the global clock |
| GlobalEventQueues.SyncedInStep | riscv-vp-mine/NVmain/src/EventQueue.cpp:556-570 | A domain that is not ahead is within the skew bound after a sync |
| GlobalEventQueues.LoopedToEvent | riscv-vp-mine/NVmain/src/EventQueue.cpp:476-507 | Running a domain to its next event leaves no cycle of it ahead of the bound |
| SubArrayRuns.EveryTraceIsSafe | riscv-vp-mine/NVmain/src/SubArray.cpp:275-806 | In every run each accepted command is at least the configured gap after every earlier one, for all pairs of commands; for any tRP, with or without precharge commands |
| SubArrayRuns.EveryTraceIsLegal | riscv-vp-mine/NVmain/src/SubArray.cpp:1114-1366 | With tRP of at least 1 the accepted commands are a legal run of the row automaton, in every run |
| RowCycles.RowsLegalIff | riscv-vp-mine/NVmain/src/SubArray.cpp:1303-1322 | They are so in all runs if and only if tRP is at least 1 |
| RowCycles.FullRowCycleIff | riscv-vp-mine/NVmain/src/SubArray.cpp:395-404 | With tRP of at least 1, activations are tRAS+tRP apart in all runs if and only if tRAS <= tRCD+tRTP and tRAS <= tRCD+tCWD+tBURST+tWR; otherwise a run of an activation, a column command with implicit precharge and an activation comes too early |
| SubArrayRuns.RowCycleTime | riscv-vp-mine/NVmain/src/SubArray.cpp:275-827 | Two activations have a closing command between them and are at least max(tRCD,tRAS)+max(1,tRP) apart if it is an explicit precharge, tRCD+tRTP+tRP if it is a read with implicit precharge, and the write time if a write with one |
| SubArrayRuns.RunKeepsTime | riscv-vp-mine/NVmain/src/SubArray.cpp:275-806 | The timing registers remember every gap, in every run |
| SubArrayRuns.RunKeepsRow | riscv-vp-mine/NVmain/src/SubArray.cpp:1114-1366 | Row state and pending events agree with the accepted commands, in every run with tRP of at least 1 |
| SubArrayRuns.AcceptedMovesRow | riscv-vp-mine/NVmain/src/SubArray.cpp:1114-1366 | An accepted command is legal for the row as it counts, and moves it as the row automaton says |
| SubArrayRuns.NothingDuringImplicitPrecharge | riscv-vp-mine/NVmain/src/SubArray.cpp:1114-1218 | With tRP of at least 1, no command that touches the row is accepted while an implicit precharge is pending |
| SubArrayRuns.NotIssuableEarlier | riscv-vp-mine/NVmain/src/SubArray.cpp:1098-1109 | A command is never accepted before the cycle NextIssuable names |
| SubArrays.BurstsIsProduct | riscv-vp-mine/NVmain/src/SubArray.cpp:399-436 | The burst time is the product of burst count and the larger of tBURST and tCCD |
| SubArrays.SubArray.Activate | riscv-vp-mine/NVmain/src/SubArray.cpp:275-356 | Accepted iff the register allows it and the subarray is closed; the new registers and state |
| SubArrays.SubArray.Read | riscv-vp-mine/NVmain/src/SubArray.cpp:361-501 | Accepted iff the register allows it and the row is open; the registers, the reply and the implicit precharge |
| SubArrays.SubArray.Write | riscv-vp-mine/NVmain/src/SubArray.cpp:506-710 | The same for writes, with the write in progress and the registers kept for a cancellation |
| SubArrays.SubArray.Precharge | riscv-vp-mine/NVmain/src/SubArray.cpp:715-770 | The registers, the state and the event that closes the row |
| SubArrays.SubArray.Refresh | riscv-vp-mine/NVmain/src/SubArray.cpp:776-827 | The registers, the state and the event that ends the refresh |
| SubArrays.SubArray.CheckWritePausing | riscv-vp-mine/NVmain/src/SubArray.cpp:829-915 | The time left, from now or from the start of the iteration cut short, in unsigned cycles; paused if the fraction written is above the threshold and cancelled otherwise; its old reply dropped, a new one sent, and the registers restored |
| SubArrays.SubArray.WriteProgress | riscv-vp-mine/NVmain/src/SubArray.cpp:835-858 | The loop over the iteration starts and the unsigned difference, by the pause mode |
| SubArrays.IterationStartIsLatest | riscv-vp-mine/NVmain/src/SubArray.cpp:843-855 | The loop stops at the latest iteration that has started |
| SubArrays.SubArray.RequestComplete | riscv-vp-mine/NVmain/src/SubArray.cpp:1271-1366 | The row event moves the state on |
| WritePausing.CancellationsBounded | riscv-vp-mine/NVmain/src/SubArray.cpp:829-915 | No write is cancelled more than max(1, MaxCancellations) times, wherever it is, in any run |
| WritePausing.ForcedWritesComplete | riscv-vp-mine/NVmain/src/SubArray.cpp:1126-1151 | If every write issued is forced, none ever completes cancelled or paused |
| Banks.BankAlwaysAgrees | riscv-vp-mine/NVmain/Banks/DDR3Bank/DDR3Bank.cpp:217-697 | In every run the bank is OPEN or in active power-down iff its queue of open subarrays is not empty, and the queue lists, once each, exactly the open subarrays with no implicit precharge in flight |
| Banks.RefusesWhileClosing | riscv-vp-mine/NVmain/src/SubArray.cpp:1114-1205 | With tRP of at least 1, a subarray with a row event pending takes no ACTIVATE, column command, PRECHARGE or REFRESH |
| Banks.CachedAlwaysRefused | riscv-vp-mine/NVmain/Banks/DDR3Bank/DDR3Bank.cpp:857-861 | Cached accesses are refused on a plain bank in every state |
| Banks.BankNotIssuableEarlier | riscv-vp-mine/NVmain/Banks/DDR3Bank/DDR3Bank.cpp:699-709 | The bank never takes a command before the cycle it announces |
| Banks.IssuedMovesRows | riscv-vp-mine/NVmain/Banks/DDR3Bank/DDR3Bank.cpp:314-697 | A command moves the rows of exactly the subarrays it is forwarded to |
| Banks.IssuableIsTaken | riscv-vp-mine/NVmain/Banks/DDR3Bank/DDR3Bank.cpp:869-923 | A command the bank says it can take passes the operation's own checks and every subarray it concerns, and an open bank is then asked for active power-down only |
| Banks.AllClose | riscv-vp-mine/NVmain/Banks/DDR3Bank/DDR3Bank.cpp:590-647 | If every open subarray takes the precharge, closing them one by one closes all |
| PowerDownWaits.AlwaysWaitsIff | riscv-vp-mine/NVmain/Banks/DDR3Bank/DDR3Bank.cpp:474-483 | In every run of a bank of n subarrays the power-down register waits for the end of every refresh in flight if and only if n <= 1 or tRFC <= tAL+tCWD+tBURST+tWR+tRP |
| PowerDownWaits.WaitsIff | riscv-vp-mine/NVmain/Banks/DDR3Bank/DDR3Bank.cpp:670-678 | With commands at least d cycles apart, such as the one command per cycle of the controller, if and only if n <= 1 or tRFC <= d+tAL+tCWD+tBURST+tWR+tRP |
| PowerDownWaits.RunWaits | riscv-vp-mine/NVmain/Banks/DDR3Bank/DDR3Bank.cpp:314-697 | The invariant behind it: every refresh in flight ends by the last command plus tRFC, and by the register |
| PowerDownWaits.WaitCutShort | riscv-vp-mine/NVmain/Banks/DDR3Bank/DDR3Bank.cpp:474-483 | Otherwise a run exists: activate subarray 1, refresh subarray 0, write to subarray 1 with implicit precharge, d cycles apart, and the register stands before the end of the refresh |
| Banks.DDR3Bank.Activate | riscv-vp-mine/NVmain/Banks/DDR3Bank/DDR3Bank.cpp:314-365 | Refused without a trace by its own checks; refused by the subarray after the power-down register has moved; else the subarray goes to the front of the queue |
| Banks.DDR3Bank.Read | riscv-vp-mine/NVmain/Banks/DDR3Bank/DDR3Bank.cpp:370-450 | The same two refusals; else, with an implicit precharge, the subarray leaves the queue and the bank closes with the last one |
| Banks.DDR3Bank.Write | riscv-vp-mine/NVmain/Banks/DDR3Bank/DDR3Bank.cpp:455-538 | The same for writes |
| Banks.DDR3Bank.Precharge | riscv-vp-mine/NVmain/Banks/DDR3Bank/DDR3Bank.cpp:543-652 | The same two refusals, PRECHARGE_ALL keeping what was closed before one; else the subarray leaves the queue and the bank closes with the last one |
| Banks.DDR3Bank.PrechargeAll | riscv-vp-mine/NVmain/Banks/DDR3Bank/DDR3Bank.cpp:590-647 | The open subarrays are precharged latest first until one refuses, which has then left the queue; all of them if none does |
| Banks.DDR3Bank.PowerDown | riscv-vp-mine/NVmain/Banks/DDR3Bank/DDR3Bank.cpp:217-262 | Taken iff the register allows it and the bank is open or closed; active or precharge power-down by which of the two |
| Banks.DDR3Bank.PowerUp | riscv-vp-mine/NVmain/Banks/DDR3Bank/DDR3Bank.cpp:267-309 | Taken iff the register allows it and the bank is powered down; back to open or closed |
| Banks.DDR3Bank.IssueCommand | riscv-vp-mine/NVmain/Banks/DDR3Bank/DDR3Bank.cpp:869-923 | Dispatches each command to its operation |
| AddressTranslation.TranslateInvertsReverse | riscv-vp-mine/NVmain/src/AddressTranslator.cpp:76-231 | For every order that is a permutation, fields that fit their widths come back from the address they make |
| AddressTranslation.ReverseInvertsTranslate | riscv-vp-mine/NVmain/src/AddressTranslator.cpp:76-231 | An address in range comes back rounded down to the burst size |
| AddressTranslation.ComposedFits | riscv-vp-mine/NVmain/src/AddressTranslator.cpp:76-153 | A composed address is below two to the burst bits plus all widths, so nothing wraps when these are 64 at most |
| AddressTranslation.FieldsBelowCounts | riscv-vp-mine/NVmain/NVM/nvmain.cpp:148-155 | With widths taken from the counts, every translated field is below its count, powers of two or not |
| AddressTranslation.SchemeIsPermutationIff | riscv-vp-mine/NVmain/src/TranslationMethod.cpp:135-178 | A scheme of at most six tokens orders the six fields exactly when its tokens name different fields |
| AddressTranslation.SpanIsWidths | riscv-vp-mine/NVmain/src/AddressTranslator.cpp:329-385 | Whatever the order, the fields span two to the sum of their widths |
| AddressTranslation.ComputeMlog2 | riscv-vp-mine/NVmain/include/NVMHelpers.cpp:38-53 | The shifting loop computes the logarithm rounded down, the only number r with 2^r <= n < 2^(r+1), and 0 below two |
| AddressTranslation.Mlog2 | riscv-vp-mine/NVmain/include/NVMHelpers.cpp:38-53 | 2^r <= n < 2^(r+1) for n >= 1 |
| AddressTranslation.TranslationMethod.SetAddressMappingScheme | riscv-vp-mine/NVmain/src/TranslationMethod.cpp:135-189 | The loop with its falling order, and the filling of fields left out |
| AddressTranslation.AddressTranslator.Translate | riscv-vp-mine/NVmain/src/AddressTranslator.cpp:189-231 | The loop computes the digits of the address after the burst offset |
| AddressTranslation.AddressTranslator.ReverseTranslate | riscv-vp-mine/NVmain/src/AddressTranslator.cpp:76-153 | The loop computes the address of the fields |
| AddressTranslation.AddressTranslator.FindOrder | riscv-vp-mine/NVmain/src/AddressTranslator.cpp:391-417 | The field whose order is the given one, or none |
| FlipNWrite.LastWriteIsRead | riscv-vp-mine/NVmain/DataEncoders/FlipNWrite/FlipNWrite.cpp:127-268 | After any run of writes, undoing the flagged partitions of what is stored in any word gives what was written there last; the bits counted are at most those of plain writing, and at most half of every partition written |
| FlipNWrite.ComparesWithCells | riscv-vp-mine/NVmain/DataEncoders/FlipNWrite/FlipNWrite.cpp:176-186 | The data a write compares with, after undoing by the flags, is what the cells hold |
| FlipNWrite.KeysDiffer | riscv-vp-mine/NVmain/DataEncoders/FlipNWrite/FlipNWrite.cpp:150-184 | No two partitions of the memory share a key |
| FlipNWrite.InvertedWholeBytes | riscv-vp-mine/NVmain/DataEncoders/FlipNWrite/FlipNWrite.cpp:78-116 | On a byte-aligned range inverting flips those bytes and no others, and doing it twice does nothing |
| FlipNWrite.SavedBounds | riscv-vp-mine/NVmain/DataEncoders/FlipNWrite/FlipNWrite.cpp:220-262 | Counted with inversion, a write costs at most what it costs plainly, and at most fpSize/2 per partition |
| FlipNWrite.CountIsExactIff | riscv-vp-mine/NVmain/DataEncoders/FlipNWrite/FlipNWrite.cpp:220-262 | The bits counted are the cells that change exactly when mirroring the bytes of the inverted partitions would not change how many bits they differ in from the cells; so for data whose bytes are their own mirror images |
| FlipNWrite.EncodedModified | riscv-vp-mine/NVmain/DataEncoders/FlipNWrite/FlipNWrite.cpp:78-116 | In an inverted partition the cells that change are all but those in which the mirrored data differs |
| FlipNWrite.CountMissesAll | riscv-vp-mine/NVmain/DataEncoders/FlipNWrite/FlipNWrite.cpp:239-242 | For 0x0F in the cells and 0xF0 to be written nothing is counted and all eight cells change |
| FlipNWrite.OthersDecodeTheSame | riscv-vp-mine/NVmain/DataEncoders/FlipNWrite/FlipNWrite.cpp:224-258 | A write leaves what every other word decodes to |
| FlipNWrite.WrittenDecodes | riscv-vp-mine/NVmain/DataEncoders/FlipNWrite/FlipNWrite.cpp:127-268 | What is stored decodes to what was written |
| FlipNWrite.ModifiedBound | riscv-vp-mine/NVmain/DataEncoders/FlipNWrite/FlipNWrite.cpp:189-217 | A partition has at most fpSize modified bits, so the count saved never underflows |
| FlipNWrite.FlipNWriteEncoder.InvertData | riscv-vp-mine/NVmain/DataEncoders/FlipNWrite/FlipNWrite.cpp:78-116 | The loop over the bytes of any bit range |
| FlipNWrite.FlipNWriteEncoder.CountModified | riscv-vp-mine/NVmain/DataEncoders/FlipNWrite/FlipNWrite.cpp:188-217 | The count of modified bits per partition, with equal bytes skipped |
| FlipNWrite.FlipNWriteEncoder.Write | riscv-vp-mine/NVmain/DataEncoders/FlipNWrite/FlipNWrite.cpp:127-268 | The stored block, the flags and both counters after a write |
| RowBufferCache.RunsInOrder | riscv-vp-mine/NVmain/Banks/CachedDDR3Bank/CachedDDR3Bank.cpp:103-374 | Over any run the buffers are only rearranged, the used ones come first with different rows, and those hit since they were allocated come before the rest in strictly most-recent-first order |
| RowBufferCache.VictimIsLeastRecent | riscv-vp-mine/NVmain/Banks/CachedDDR3Bank/CachedDDR3Bank.cpp:142-163 | The buffer evicted was never hit, or was hit longer ago than every other one |
| RowBufferCache.ActivatedInOrder | riscv-vp-mine/NVmain/Banks/CachedDDR3Bank/CachedDDR3Bank.cpp:103-175 | Allocation keeps the order, and the row has a buffer afterwards |
| RowBufferCache.AccessedInOrder | riscv-vp-mine/NVmain/Banks/CachedDDR3Bank/CachedDDR3Bank.cpp:250-296 | A hit keeps the order and puts its buffer in front |
| RowBufferCache.RowBuffers.Activate | riscv-vp-mine/NVmain/Banks/CachedDDR3Bank/CachedDDR3Bank.cpp:103-175 | The loop stops at the row, or binds the first unused buffer, or evicts the last one |
| RowBufferCache.RowBuffers.MoveToFront | riscv-vp-mine/NVmain/Banks/CachedDDR3Bank/CachedDDR3Bank.cpp:286-293 | The rotation in place |
| RowBufferCache.RowBuffers.Access | riscv-vp-mine/NVmain/Banks/CachedDDR3Bank/CachedDDR3Bank.cpp:250-296 | Served exactly when some buffer holds the word; the first such one moves to the front |
| SM4.DecryptInvertsEncrypt | riscv-vp-mine/sw/sm4_sw/SM4.h:105-143 | Decrypting what was encrypted gives the block back, for every list of round keys and whatever the round function |
| SM4.WordsMirror | riscv-vp-mine/sw/sm4_sw/SM4.h:105-143 | Word i of the decryption is word 35-i of the encryption, through all rounds |
| SM4.KeyExp | riscv-vp-mine/sw/sm4_sw/SM4.h:88-103 | The loop computes the key schedule |
| SM4.Encrypt | riscv-vp-mine/sw/sm4_sw/SM4.h:105-123 | The loop computes the rounds and the reversed output |
| SM4.Decrypt | riscv-vp-mine/sw/sm4_sw/SM4.h:125-143 | The same with the round keys reversed |
| SM4.RoundTrip | riscv-vp-mine/sw/sm4_sw/SM4.h:105-143 | Encrypting and decrypting with the same round keys returns the block |
| SM3.PaddingEndsInLength | riscv-vp-mine/sw/sm3_sw/SM3.h:129-140 | Below 2^29 bytes the padded message is whole blocks: the message, 0x80, zeros, and the bit length in 64 bits big-endian |
| SM3.PaddingIsInjective | riscv-vp-mine/sw/sm3_sw/SM3.h:129-140 | No two messages of any length are padded alike |
| SM3.PaddingEndsInBits | riscv-vp-mine/sw/sm3_sw/SM3.h:129-140 | At any length the padded message starts with the message and 0x80 and ends in the bit length modulo 2^32 as 64 bits |
| SM3.StandardIsLeast | riscv-vp-mine/sw/sm3_sw/SM3.h:131-131 | The standard's block count is the least with room for the message, one byte and the length |
| SM3.PaddingIsStandardIff | riscv-vp-mine/sw/sm3_sw/SM3.h:131-131 | The padding is that of section 5.2 of GB/T 32905-2016 exactly when the length is not 55 modulo 64 |
| SM3.MessageExt | riscv-vp-mine/sw/sm3_sw/SM3.h:66-85 | The in-place expansion computes the recurrence of section 5.3.2 |
| SM3.CF | riscv-vp-mine/sw/sm3_sw/SM3.h:98-127 | The in-place rounds compute the compression of section 5.3.3 |
| SM3.Pad | riscv-vp-mine/sw/sm3_sw/SM3.h:131-140 | The buffer is the padded message |
| SM3.Digest | riscv-vp-mine/sw/sm3_sw/SM3.h:129-157 | The compression folded over the blocks, from the initial value |

## Left out

- EventQueues.SkippingIsTicking: does not model same-cycle insertion by a handler, which changes the list under iteration; cycles stay below 2^64-1, the value that stands for "no event".
- ControllerEvents.EveryRunIsSound: has write pausing off, so that no request the device has comes back; with it on a returned write can be lost, exactly as `ReturnedWrites.NextSendDecides` says. It takes the banks per refresh to divide the banks, and precharge commands to be in use; a callback inserts only in later cycles, and commands are sent from callbacks only.
- ControllerRuns.MoveConserves: has write pausing off, for the same reason.
- Conservation.SentConserves: has write pausing off, for the same reason; so do the other lemmas of `Conservation`.
- FRFCFSScheduling.FRFCFS.RequestComplete: does not model the issued flag, which stays on in the request put back; `ReturnedWrites` does.
- WriteDrain.FRFCFS_WQF.RequestComplete: does not model it either; `DrainRuns` proves that no write is put back there.
- FRFCFSScheduling.BoundedOvertaking: bounds overtaking per subarray; it does not bound the time a request waits, which also depends on refreshes and on other banks.
- GlobalEventQueues.GlobalEventQueue.Cycle: does not model rounding of frequencies, which are real numbers here; the domains' queues are held by value, so aliasing between them is not captured.
- Banks.DDR3Bank.IssueCommand: does not model the subarrays as objects of their own inside the bank; they are held by value.
- SubArrays.SubArray.CheckWritePausing: takes the starts of the write iterations as given, because they depend on the data in the cells, and compares the fraction written as a real number where the source rounds it.
- SubArrayRuns.EveryTraceIsSafe: does not cover write pausing, which puts registers back.
- SubArrayRuns.EveryTraceIsLegal: does not cover write pausing, nor the mode without precharge commands.
- DeviceRuns.DeviceMatchesController: does not cover write pausing, nor the mode without precharge commands; has the cleanup at the start of each cycle, where `ControllerEvents.WorkAfterCleanup` proves it to be; the rank may refuse commands for reasons of its own, as steps not taken.
- AddressTranslation.SchemeIsPermutationIff: does not cover schemes of more than six tokens, which cannot hold all six names in the 16-byte buffer they are copied to; splitting the text at the colons is not modelled.
- AddressTranslation.AddressTranslator.Translate: does not model 64-bit wrap-around; `ComposedFits` shows when there is none.
- SM3.Digest: does not model lengths within 73 bytes of 2^32, where the block count itself wraps.
- The two- and three-dimensional flag and row arrays of the controller are sets and maps keyed by bank and subarray.
- The rank's own timing and power states; it may refuse any command.
- Per-subarray command queues, and scheduling scheme 0: refreshes always use the queue of subarray 0 there, and scheme 0 gives no valid queue with per-bank queues.
- Cached and write-stalled selections in the controller: on plain banks without write pausing they find nothing.
- The exit after DeadlockTimer cycles, statistics, energy, voltage, latencies and endurance: no effect on the state modelled, or given by the environment.
- Low-power handling in the controller: its call is commented out. The bank's own power states are modelled.
- Dirty bits and the write-back time of evicted row buffers; they do not influence the order of the buffers.
- Configuration files, trace readers, factories, hooks, request ownership, gem5 and SystemC glue.
- The DRC decoder, page migration, endurance models and prefetchers.
- The other demo programs, which use custom instructions or device registers.
