# Scheduling centre: a verified model

This project models the concurrent state of the scheduling centre in Dafny and proves what its locks,
counters and lists guarantee, and exactly where a guarantee needs a condition. It uses the constants of
`inc/wx/wx_account_mgr.hpp`, `inc/common/device_mgr.hpp` and `inc/public/protocol_define.h`.

- `WorkQueue.dfy`, `QueueThreads.dfy`, `QueueCalls.dfy`, `QueueShutdown.dfy`: the blocking queue, as a class and
  as a machine of any number of threads interleaved at lock granularity, with notifications as separate steps.
- `IdleList.dfy`, `Accounts.dfy`, `AccountMgr.dfy`, `TakeProtocol.dfy`: the account manager, its two
  tables, and the take split into a scan and an erase.
- `VoteTask.dfy`, `SessionEffects.dfy`, `WxVote.dfy`: a vote with one session per device, step by step as in
  `src/wx/wx_vote_session.cpp`, beside daily sessions.
- `VoteQuota.dfy`, `VoteOvershoot.dfy`, `VoteTarget.dfy`, `NeedVoteBound.dfy`: how many votes it casts.
- `VoteEnding.dfy`, `VoteHeld.dfy`, `VoteLength.dfy`: whether and when it ends.
- `Devices.dfy`, `ConnPools.dfy`, `MainTask.dfy`, `Counting.dfy`: the status table, the two connection
  pools, the worker loop, and counting in finite maps.

Classes follow the classes of the program, and each method is proved against a value-level function or
relation; the machines are built from the same functions, and the steps of a vote are performed by calls on
the objects (`VoteSessions.Perform`). A machine run is a list of actions, so a
statement about every run is a statement about every reachable state.

## Results that need a condition

- The target of a vote. The session asks only `need_wait_vote` on its fast path, and that test is an
  equality, so two sessions can pass together, and above the target it never holds again
  (`OvershootReachesEveryAccount`). `TargetHoldsIff` gives the exact condition for "successes never exceed
  the target": if no device is voting at the start, it holds in every run if and only if the target is not negative and it is zero, or at most one
  vote session starts, or no more accounts than the target can be taken. `CommandKeepsTargetIff` reads the
  condition off the tables before the command; `SuccessNeverExceedsWaiting` is the bound that always holds.
- The quota as an invariant. If a start and a finish are each one step and outsiders leave voting devices
  alone, successes plus voting devices never exceed the target (`AtomicGateKeepsQuota`). Each of these is
  needed: an atomic start alone is not enough (`FinishMustBeAtomic`, from a fresh start
  `AtomicGateAloneOvershoots`), and a disconnect frees a place (`DisconnectFreesAPlace`). `GateSufficesIff`
  looks at a single run. `OvershootBound` is what asking `need_vote` before every vote would give.
- The take. It looks atomic exactly when no scan selects a node that another thread has selected and not
  yet erased (`AtomicIffClear`). `VoteTask` and the modules after it take accounts atomically, that is,
  under this condition.
- Pool and status table agree exactly under the discipline stated in `PoolAndTableAgreeIff`;
  `src/common/a_session.cpp` does not follow it when a phone disconnects during a session.
- The end of a vote. Without a failed send and without outside status changes the sessions can always be
  brought to an end (`QuietTaskCanAlwaysFinish`), and no run goes on without waiting, failing answers or
  outside changes (`RunsAreBounded`). A failed send leaves the device in the voting status, and its own
  session can then wait for it forever (`StallIsReachable`, `StalledForever`). `FinishableIff` gives the exact
  condition: sessions held at the gate can all return unless the devices left voting are exactly as many as
  the successes still missing.
- Lost accounts. A session that leaves through the gate, fails to send, or gets no usable answer never puts
  its account back. The model keeps these accounts in `lost`; `NothingLostIff` says when there are none.

## Session steps

The steps of `VoteTask` are the calls of a session into shared objects, in the order of the session code.
In a vote session every such call is a step of its own; a daily session makes the calls of one answer in
one step.

- `Take`, `CheckWait`, `CheckNeed`, `Begin`: `src/wx/wx_vote_session.cpp:50`, `:52`, `:54`, `:61`.
- `SendFails`: `src/wx/wx_vote_session.cpp:84-86`, which goes on to the next account.
- `Reply`: `src/wx/wx_vote_session.cpp:133` for a recorded vote, `:136-164` for a failed one, `:168-176` for
  no usable answer.
- `AddSuccess`, `Release`, `End`: `src/wx/wx_vote_session.cpp:134`, `:165`, `:177`.
- `Leave`: `src/common/a_session.cpp:53`.
- `DailyTake`, `DailyReturn`, `DailyLose`: `src/wx/keep_wx_account_session.cpp:95-97`, `:40-83`, `:79-83`.

## Model

| member | source | states |
|---|---|---|
| `WorkQueue.WorkQueue.constructor` | inc/public/work_queue.hpp:24-27 | a new queue is empty and open |
| `WorkQueue.WorkQueue.Stop` | inc/public/work_queue.hpp:29-35 | stopping keeps the queued tasks, sets the flag and lets every popping thread out of its wait loop |
| `WorkQueue.WorkQueue.PushTask` | inc/public/work_queue.hpp:37-47 | a push appends and owes one notification exactly when the queue is open; a stopped queue is left as it was |
| `WorkQueue.WorkQueue.PopTask` | inc/public/work_queue.hpp:49-65 | a pop returns the head the first time it holds the lock and finds a task, the default value the first time it finds the queue empty and stopped, and otherwise keeps waiting, whatever other threads do at each wait; if they only add, the popped task is the only one removed |
| `WorkQueue.WorkQueue.Interfere` | inc/public/work_queue.hpp:37-73 | any sections of other threads leave the queue they describe, accept exactly the tasks pushed while it is open, and remove nothing if they only add |
| `WorkQueue.WorkQueue.Clear` | inc/public/work_queue.hpp:67-73 | whatever runs between its halves, the queue is empty and open afterwards and everything accepted until then has been removed; if nobody pops or clears in between, nothing is accepted there and exactly the tasks queued before are dropped |
| `QueueThreads.NoLostWakeup` | inc/public/work_queue.hpp:29-73 | in every reachable state of any number of threads, a sleeper implies that every queued task is covered by an owed or delivered wake-up, and that a stop still owes its broadcast |
| `QueueThreads.QuietSleepersMeanEmptyQueue` | inc/public/work_queue.hpp:29-73 | when nothing is owed and nobody is woken, sleepers exist only on an empty open queue |
| `QueueThreads.RunIsSequential` | inc/public/work_queue.hpp:37-73 | from any state with a legal history, every interleaving extends it to a legal history of a sequential FIFO queue |
| `QueueThreads.LinearizableFifo` | inc/public/work_queue.hpp:37-73 | every run from the start is such a history; accepted tasks equal, in order, the tasks popped or dropped by clears followed by the queued ones, and the same holds since the last clear with pops alone |
| `QueueCalls.EveryThreadIsAnswered` | inc/public/work_queue.hpp:29-73 | over every run and for every thread and kind of call, the answers the thread got are the calls it made less the one it is still in: a push ends accepted or refused, a pop ends with a task or the default value and only then returns, a stop sets the flag, a clear reaches its second section |
| `QueueCalls.EveryCallIsAnswered` | inc/public/work_queue.hpp:29-73 | from the start, the calls of each kind are those answered in the log plus those of threads still inside them, a sleeping or woken pop being inside |
| `QueueCalls.EveryThreadNotifies` | inc/public/work_queue.hpp:29-46 | over every run a thread has sent one notify_one for each push of its own that was accepted and one notify_all for each stop, or still owes it |
| `QueueCalls.SleepersWereNotWoken` | inc/public/work_queue.hpp:52-60 | a thread is on the condition variable exactly when it has gone to sleep, on an empty open queue, once more than it was woken |
| `QueueCalls.QuietQueueServedEveryPop` | inc/public/work_queue.hpp:29-65 | in a reachable state in which no thread is about to take the lock or owes a notification, a queue that holds a task or is stopped has answered every pop |
| `QueueShutdown.DrainingShutdown` | inc/public/work_queue.hpp:29-65 | after a stop and without a clear nothing is accepted, the pops return the queued tasks in order, and no consumer goes to sleep again |
| `QueueShutdown.ShutdownTerminates` | inc/public/work_queue.hpp:29-65 | the length of any run after a stop is bounded by the calls under way and three steps per new call |
| `QueueShutdown.StoppedNeverDeadlocks` | inc/public/work_queue.hpp:29-65 | a reachable stopped state in which no thread can proceed on its own has no unfinished call |
| `Accounts.AdmissionIsSound` | src/wx/wx_account_mgr.cpp:222-256 | if the admission count is at least n, then n successive takes succeed, all on eligible idle accounts and pairwise distinct ones if the idle list is |
| `Accounts.AdmissionIsExactIff` | src/wx/wx_account_mgr.cpp:228-250 | the count is the exact number of takes that succeed in a row if and only if no idle unvoted account has a status other than normal or abnormal |
| `Accounts.VoteStatusIff` | src/wx/wx_account_mgr.cpp:117-131 | the answer is not-voted exactly for a known account that is not among the voters of the url, and voted exactly otherwise |
| `Accounts.EligibleAfterLoad` | src/wx/wx_account_mgr.cpp:67-131 | after a load the first row of a name decides: it can vote exactly when its status is not abnormal and there is no vote row for the url, counts exactly when it is normal without one, and is due exactly when it is neither abnormal nor finished |
| `Accounts.EligibleWithoutRow` | src/wx/wx_account_mgr.cpp:117-131 | a name without a row can neither vote nor count, but a daily take hands it out |
| `Accounts.AdmissionCountsRows` | src/wx/wx_account_mgr.cpp:67-131 | after a load of unique accounts the admission count is the number of normal rows without a vote row for the url |
| `Accounts.CreatedRecordIsFresh` | src/wx/wx_account_mgr.cpp:258-270 | the record a lookup creates for an unknown name can vote, counts and is due, and no other record changes |
| `Accounts.ResetFinishesNobody` | src/wx/wx_account_mgr.cpp:206-214 | after a reset nobody is finished, and profiles, statuses, votes and keys are as before |
| `Accounts.DailyTakesAfterReset` | src/wx/wx_account_mgr.cpp:206-214 | after a daily reset the daily takes return exactly the non-abnormal idle accounts in list order and then fail |
| `IdleList.TakesAreThePrefix` | src/wx/wx_account_mgr.cpp:225-237 | successive takes return the eligible entries of the idle list in list order |
| `IdleList.TakesLeaveTheRest` | src/wx/wx_account_mgr.cpp:225-237 | the eligible entries not yet taken stay in order |
| `IdleList.TakesLeaveTheIneligible` | src/wx/wx_account_mgr.cpp:228-235 | entries a take skips all stay on the list, in order |
| `Accounts.LoadedAfterUpdate` | src/wx/wx_account_mgr.cpp:67-115 | executing the statement of a setter and reloading gives what the setter does in memory |
| `Accounts.LoadedIsFirstRow` | src/wx/wx_account_mgr.cpp:67-115 | a loaded account has the profile, daily mark and status of the first row of its name and exactly the urls of its vote rows |
| `Accounts.AgreementKeptIff` | src/wx/wx_account_mgr.cpp:133-204 | on agreeing memory and tables a setter keeps agreement exactly when its statement succeeds or it changes nothing |
| `Accounts.ReloadReproducesMemory` | src/wx/wx_account_mgr.cpp:133-204 | after any sequence of setters whose statements all succeed, reloading reproduces the records in memory |
| `Accounts.FailedStatementsOnlyLag` | src/wx/wx_account_mgr.cpp:133-204 | whatever statements fail, the stored accounts and profiles are those in memory and every stored vote is in memory |
| `Accounts.VotesOnlyGrow` | src/wx/wx_account_mgr.cpp:133-204 | no setter removes a vote or adds or removes a record |
| `AccountMgr.WxAccountMgr.ReadVotes` | src/wx/wx_account_mgr.cpp:90-99 | the inner query collects exactly the urls stored for the account |
| `AccountMgr.WxAccountMgr.LoadData` | src/wx/wx_account_mgr.cpp:67-115 | loading succeeds exactly when no statement throws; a failing fetch leaves the records and idle names of the rows read, a failing vote query also leaves the idle name of its row without a record; a complete load puts memory in agreement with the tables |
| `AccountMgr.WxAccountMgr.SetVoteStatus` | src/wx/wx_account_mgr.cpp:133-155 | the vote is added in memory and, if the statement succeeds, in the table; an unknown account changes nothing |
| `AccountMgr.WxAccountMgr.SetAccStatus` | src/wx/wx_account_mgr.cpp:157-180 | the status is set in memory and, if the statement succeeds, in the table; an unknown account changes nothing |
| `AccountMgr.WxAccountMgr.SetEverydayTask` | src/wx/wx_account_mgr.cpp:182-204 | the daily mark is set in memory and, if the statement succeeds, in the table; an unknown account changes nothing |
| `AccountMgr.WxAccountMgr.ResetAllEverydayTask` | src/wx/wx_account_mgr.cpp:206-214 | every known account, in memory and in each row whose statement succeeds, becomes not finished, all else stays, and agreement with the tables survives if every statement succeeds |
| `AccountMgr.WxAccountMgr.GetIdleNotVoteAccount` | src/wx/wx_account_mgr.cpp:222-240 | the first idle account that is known, not a voter of the url and not abnormal is removed and returned; failure means there is none |
| `AccountMgr.WxAccountMgr.GetIdleNotVoteCount` | src/wx/wx_account_mgr.cpp:242-256 | the number of idle accounts that have not voted and are normal |
| `AccountMgr.WxAccountMgr.GetIdleNotDailyTaskAccount` | src/wx/wx_account_mgr.cpp:258-276 | the first idle account due for its daily task is removed and returned; a name without a record gets a blank one, which makes nobody else due |
| `AccountMgr.WxAccountMgr.SetIdleAccount` | src/wx/wx_account_mgr.cpp:278-282 | a release appends the name to the idle list |
| `TakeProtocol.ClearRunsRefineAtomicTakes` | src/wx/wx_account_mgr.cpp:224-236 | a run in which no scan selects a node that is already selected behaves, with takes, releases and setters interleaved at lock granularity, as atomic takes, every other node keeping its place |
| `TakeProtocol.AtomicIffClear` | src/wx/wx_account_mgr.cpp:224-236 | over any run, every step looks like an atomic take, release or setter exactly when no scan selected an already selected node |
| `TakeProtocol.ExclusiveIffClear` | src/wx/wx_account_mgr.cpp:224-236 | over any run, two threads are about to erase the same node at some point exactly when some scan selected an already selected node |
| `TakeProtocol.SerialTakesAreAtomic` | src/wx/wx_account_mgr.cpp:224-236 | if no thread scans while another is between its scan and its erase, every run interleaved with releases and setters behaves as atomic takes and no node is selected twice |
| `TakeProtocol.OverlappingTakesCollide` | src/wx/wx_account_mgr.cpp:260-272 | from every state with an eligible account, two overlapping takes for the same purpose get the same account, and after one erase the other thread holds an iterator to an erased node |
| `TakeProtocol.NothingPendingIsAtomic` | src/wx/wx_account_mgr.cpp:224-236 | between takes, after a run with clear scans, the list and the records are exactly what atomic takes leave |
| `TakeProtocol.AtomicReleaseIsTheManagersRelease` | src/wx/wx_account_mgr.cpp:278-282 | on names, the release of the protocol appends and a setter changes the records as in the account manager |
| `TakeProtocol.AtomicTakeIsTheManagersTake` | src/wx/wx_account_mgr.cpp:222-276 | on names, the atomic take of the protocol, for a vote or for the daily task, is the take of the account manager |
| `VoteTask.AccountsAreConserved` | src/wx/wx_account_mgr.cpp:222-282 | for every interleaving of vote and daily sessions with atomic takes, the accounts idle at the start are split without overlap into idle, held and lost ones, no two sessions hold the same one, and no lookup creates a record |
| `VoteTask.NothingLostIff` | src/wx/wx_account_mgr.cpp:222-282 | idle and held accounts are together exactly those idle at the start if and only if no send failed, no answer stayed out, and no session left through the gate with an account |
| `WxVote.TaskAfterLoadIsInitial` | src/wx/wx_account_mgr.cpp:67-115 | after a complete load of a table without repeated accounts the idle list has no duplicates and lies within the records, so a first vote starts in the state the run theorems ask for |
| `WxVote.LoadedAccountsAreConserved` | src/wx/wx_account_mgr.cpp:87-101 | from such a load on, the accounts of the table are at every moment idle, held or lost, without overlap, and the records are exactly theirs |
| `VoteTask.OneVotePerAccount` | src/wx/wx_account_mgr.cpp:117-155 | no account is marked twice for the url, no voter is lost, and successes plus marks not yet counted equal the growth in voters |
| `VoteTask.OtherUrlsUntouched` | src/wx/wx_account_mgr.cpp:133-155 | a task changes the voters of no url but its own |
| `VoteTask.ReportIsExact` | src/wx/wx_vote.cpp:44-52 | once no session is between marking and counting, the count to be reported equals the number of new voters |
| `SessionEffects.OneDailyTaskPerAccount` | src/wx/wx_account_mgr.cpp:182-276 | between two resets no account finishes its daily task twice |
| `SessionEffects.RecordAfterRun` | src/wx/wx_account_mgr.cpp:133-204 | over every run, the status of an account changes exactly when the session that holds it gets a rejected login, it gains the url exactly when that session records a vote, its daily mark is set exactly by a finished daily task of that session, and its profile stays |
| `SessionEffects.DevicesShowPhases` | src/common/device_mgr.cpp:86-107 | over every run without outside changes, a device is voting while its session votes, in the daily status while its session holds an account for the daily task, idle once the session has returned, and otherwise as found or in the matching end status; a device without a session is left alone |
| `SessionEffects.LeavesIffConcluded` | src/wx/wx_account_mgr.cpp:222-276 | over every run a session leaves exactly when a take found nobody eligible or need_vote said the target is met |
| `SessionEffects.RejectedLoginIsFinal` | src/wx/wx_account_mgr.cpp:157-180 | from the moment a phone rejects the login of an account, in a vote or daily session, and whatever all sessions do afterwards, it stays abnormal and is only ever put back |
| `SessionEffects.RetiredForever` | src/wx/wx_account_mgr.cpp:228-230 | an abnormal account held at most by a session about to put it back is never handed out again and its record stays unchanged |
| `SessionEffects.FinishedDevicesAreIdle` | src/wx/wx_vote.cpp:35-44 | unless the pool interferes, the device of every session that has returned is online idle, so the next fan-out can use it |
| `VoteQuota.AtomicGateKeepsQuota` | src/wx/wx_vote.cpp:55-79 | if passing the gate and setting the device to voting is one step, and counting a success up to setting vote end is one step, successes plus voting devices never exceed the target |
| `VoteQuota.EqualityTestIsEnough` | src/wx/wx_vote.cpp:73-79 | under that invariant the equality test refuses exactly the starts that would exceed the target |
| `VoteQuota.FinishMustBeAtomic` | src/wx/wx_vote.cpp:73-79 | with the quota full, a gate check between the counting of a success and the change of its device lets one session too many in, even if passing the gate is atomic |
| `VoteQuota.DisconnectFreesAPlace` | src/common/pho_conn_pool.cpp:25-31 | with the quota full, a phone that disconnects while voting lets one session too many in, even if passing the gate is atomic |
| `VoteQuota.GateSufficesIff` | src/wx/wx_vote.cpp:73-79 | for the code as written and with outside status changes, successes plus sessions let through stay within the target throughout a run exactly when, at every check made with all places claimed, the number of voting devices is the number of claiming sessions |
| `VoteOvershoot.OvershootReachesEveryAccount` | src/wx/wx_vote.cpp:67-79 | with two sessions and more available accounts than a positive target, some interleaving makes every available account vote |
| `VoteOvershoot.NegativeTargetIsNoLimit` | src/wx/wx_vote.cpp:67-79 | with a negative target a single session can make every available account vote |
| `VoteOvershoot.AtomicGateAloneOvershoots` | src/wx/wx_vote.cpp:67-79 | from every fresh start with two sessions, a positive target and accounts to spare, some run in which every start directly follows its own check ends with one success too many |
| `VoteTarget.SuccessNeverExceedsWaiting` | src/wx/wx_vote.cpp:44-59 | over every run, outside changes included, no more successes are counted than accounts could be taken for the url at the start |
| `VoteTarget.TwoSessionsKeepTargetIff` | src/wx/wx_vote.cpp:67-79 | with two sessions, a positive target and no voting device at the start, no run, outside changes included, counts more successes than the target exactly when no more accounts than the target can be taken at the start |
| `VoteTarget.OneSessionKeepsTarget` | src/wx/wx_vote.cpp:67-79 | one vote session beside any number of daily ones never exceeds a non-negative target, whatever devices connect and disconnect |
| `VoteTarget.TargetHoldsIff` | src/wx/wx_vote.cpp:67-79 | from a fresh start without voting devices no run counts more successes than the target if and only if the target is not negative and it is zero, or at most one vote session starts, or no more accounts than the target can be taken |
| `VoteTarget.CommandKeepsTargetIff` | src/wx/wx_vote.cpp:17-42 | the same condition read off the tables a vote command finds, no device voting: the target, the number of online idle devices and the number of idle accounts that can vote |
| `VoteLength.RunUsesWork` | src/wx/wx_vote.cpp:34-44 | the length of every run is at most the work left at its start less the work left at its end, plus extra steps for each check that waits, each failed answer that keeps its account eligible and each outside change |
| `VoteLength.RunsAreBounded` | src/wx/wx_vote.cpp:34-44 | from a fresh start every run has at most seven steps per account that can vote, two per account due for its daily task and two per session, plus the extra steps |
| `VoteEnding.QuietTaskCanAlwaysFinish` | src/wx/wx_vote.cpp:34-44 | from every state reached without a failed send or outside status change, the sessions can go on so that all of them return and the join ends |
| `VoteEnding.QuietRunsNeverStall` | src/wx/wx_vote.cpp:73-79 | without a failed send or outside status change no state is ever stalled |
| `VoteHeld.FinishableIff` | src/wx/wx_vote.cpp:67-79 | when every session has returned or is held at the gate, some run of the sessions alone brings all of them back if and only if it is not so that the devices left voting without a session are as many as the successes still missing, and some are missing |
| `VoteEnding.StallIsReachable` | src/wx/wx_vote.cpp:67-79 | every task with one session, a positive target and more available accounts has a run, with one failed send, to a stalled state |
| `VoteEnding.FailedSendCanStall` | src/wx/wx_vote.cpp:73-79 | a failed send by the last active session, when the voting devices make up the target, leads to a state in which it waits for its own device |
| `VoteEnding.StalledForever` | src/wx/wx_vote.cpp:44 | from a stalled state no run of the sessions finishes all of them, so the join never returns |
| `NeedVoteBound.OvershootBound` | src/wx/wx_vote.cpp:55-71 | sessions that each add at most one success per passed need_vote check exceed the target by at most the number of sessions less one |
| `NeedVoteBound.OvershootBoundIsTight` | src/wx/wx_vote.cpp:55-71 | for every target of at least one and every set of sessions that bound is reached |
| `NeedVoteBound.ExecCounts` | src/wx/wx_vote.cpp:55-71 | the count is the number of additions, and under way are exactly the sessions whose latest action is a check |
| `NeedVoteBound.CheckingSessions.Ask` | src/wx/wx_vote.cpp:67-71 | a check passes exactly when need_vote of the task object holds, which is the guard of the machine |
| `NeedVoteBound.CheckingSessions.Interleave` | src/wx/wx_vote.cpp:55-71 | sessions that ask need_vote of the task object and add through add_suc_count, in any order, run as that machine and keep its bound |
| `WxVote.WxVote.AddSucCount` | src/wx/wx_vote.cpp:55-59 | the counter grows by the argument |
| `WxVote.WxVote.NeedWaitVote` | src/wx/wx_vote.cpp:73-79 | wait exactly when successes plus voting devices equal the target |
| `WxVote.WxVote.IdleDevices` | src/wx/wx_vote.cpp:35-42 | sessions are started for exactly the devices that are online idle |
| `WxVote.WxVote.DoTask` | src/wx/wx_vote.cpp:17-53 | reports -1, starts no session and touches nothing exactly when too few accounts are counted; otherwise the sessions change the shared objects and the tables as the run their schedule makes, the join returns exactly when all started sessions have, and then the report is the sum of the additions of that run, which is the number of new voters, and the counter is zero; a list without repeated or unrecorded accounts is left so, the votes for other urls are untouched, and memory and tables stay together as far as the statements are stored |
| `WxVote.VoteSessions.Perform` | src/wx/wx_vote.cpp:55-79 | each step of the protocol is what the calls on the account manager, the status table and the counter do, and the tables change by the setter of the step and no other |
| `WxVote.VoteSessions.Join` | src/wx/wx_vote.cpp:34-44 | the sessions make every turn of the schedule that is possible and skip the others; shared objects and tables end as that run leaves them |
| `WxVote.EveryRunIsMade` | src/wx/wx_vote.cpp:34-44 | every run of the protocol is what the sessions do under some schedule |
| `WxVote.ScheduleFollows` | src/wx/wx_account_mgr.cpp:133-204 | as long as no lookup creates a record, the setters of a schedule keep agreement with the tables if their statements succeed, and never leave the tables ahead of memory |
| `WxVote.CountIsTheSum` | src/wx/wx_vote.cpp:55-59 | the counter grows over a run by the sum of the arguments of its additions |
| `WxVote.SumIgnoresOrder` | src/wx/wx_vote.cpp:55-59 | the reported sum is the same for every interleaving of the additions |
| `WxVote.TaskStartsWithinQuotaIff` | src/wx/wx_vote.cpp:35-42 | the shared state at the start of a vote meets the quota invariant exactly when the target is not negative |
| `Devices.DeviceMgr.Init` | src/common/device_mgr.cpp:36-58 | every device whose row could be fetched is known afterwards, offline unless it was known before, and failure means that not all rows could |
| `Devices.DeviceMgr.SetStatus` | src/common/device_mgr.cpp:86-107 | the status of the ip is the given one afterwards, also for an unknown ip, and nothing else changes |
| `Devices.DeviceMgr.GetStatusCount` | src/common/device_mgr.cpp:118-131 | the number of devices with the status, in any iteration order |
| `Devices.CountsPartitionDevices` | src/common/device_mgr.cpp:118-131 | the counts over all statuses in use add up to the number of known devices |
| `Devices.StatusChangeMovesOne` | src/common/device_mgr.cpp:86-131 | a status change of a known device moves one unit between two counts and leaves every other count |
| `ConnPools.PhoConnPool.FindConnection` | src/common/pho_conn_pool.cpp:44-55 | a pooled connection with the ip is found exactly when there is one, and under agreement exactly when the device is not offline |
| `ConnPools.PhoConnPool.Start` | src/common/pho_conn_pool.cpp:12-23 | an older connection of the same ip is closed and replaced, the device becomes online idle, and no other connection is touched |
| `ConnPools.PhoConnPool.Stop` | src/common/pho_conn_pool.cpp:25-31 | the connection is removed and closed and its device goes offline |
| `ConnPools.PhoConnPool.StopAll` | src/common/pho_conn_pool.cpp:33-42 | every pooled connection is closed, its device is offline, and the pool is empty |
| `ConnPools.PooledIff` | src/common/pho_conn_pool.cpp:12-42 | after any run exactly those connections are pooled that were so at the start or were started, and that no stop, stop of all or newer connection of the same ip has ended since |
| `ConnPools.PoolAndTableAgreeIff` | src/common/pho_conn_pool.cpp:12-42 | from an agreeing state, the pool and the status table agree in every state of a run exactly when every stop is of a member or of an unpooled ip and every session status change keeps an ip online if and only if it is pooled |
| `ConnPools.AgreeingSizes` | src/common/pho_conn_pool.cpp:12-42 | under agreement the pool size is the number of devices that are not offline |
| `ConnPools.StopAllAgrees` | src/common/pho_conn_pool.cpp:33-42 | after stop_all every device is offline |
| `ConnPools.LateSessionBreaksAgreement` | src/common/pho_conn_pool.cpp:25-31 | a session that ends after its phone was removed from the pool leaves an unpooled device online |
| `ConnPools.ScheConnPool.Start` | src/common/sche_conn_pool.cpp:12-23 | an occupied pool closes the new connection and keeps the others; an empty one takes it, which is exactly when it is in the pool afterwards |
| `ConnPools.ScheConnPool.Stop` | src/common/sche_conn_pool.cpp:25-30 | the connection is removed and closed |
| `ConnPools.ScheConnPool.StopAll` | src/common/sche_conn_pool.cpp:32-39 | every connection is closed and the pool is empty |
| `ConnPools.ClientIff` | src/common/sche_conn_pool.cpp:12-39 | after any run a connection is the client exactly when it was so at the start or came to an empty pool, and nothing has concerned it since; so the first one is let in, others are refused, and a stop frees the pool for the next |
| `ConnPools.SingleScheduleClient` | src/common/sche_conn_pool.cpp:12-39 | there is never more than one schedule client, and actions on other connections never displace it |
| `MainTask.MainTask.DoWorkQueue` | src/common/main_task.cpp:132-155 | a vote command runs on a fresh object and yields a report on its own entry, -1 exactly when too few accounts are counted and otherwise the number of new voters; any other command leaves the result and the shared objects alone, and so does a report of -1 with the shared objects; the vote is the run its schedule makes and is done exactly when all started sessions have returned; a list without repeated or unrecorded accounts is left so |
| `MainTask.MainTask.StartWorkQueue` | src/common/main_task.cpp:119-130 | with other threads pushing, and stopping, at any time, the entries finished, the one being run and the queue are in order the entries of the start and those accepted since, and each finished entry has its two writes; if no idle account is repeated or unrecorded at the start, every report of a vote is the growth in voters of its url between the records before and after it, a report of -1 or another command leaves the records alone, for every url the reports add up to the votes cast, and memory and tables stay together as far as the statements are stored; the loop stops early only on an empty queue or in a vote that has not ended |
| `MainTask.ReportsAddUp` | src/common/main_task.cpp:119-155 | exact reports add up, for every url, to the growth in its voters over all entries served |
| `MainTask.WorkerWritesLatestReports` | src/common/main_task.cpp:119-155 | finished entry k gets exactly one result and then one finished mark, in pop order, and the result is the report of the latest vote up to k or the empty string |

## Left out

- WorkQueue.WorkQueue.Clear: the broadcast owed between its halves is a step of `QueueThreads`, not of the class.
- AccountMgr.WxAccountMgr.ResetAllEverydayTask: the source holds no lock between its statements; the method runs them without other threads in between.
- VoteQuota.AtomicGateKeepsQuota: assumes that outside actions do not change the status of a voting device; a phone that disconnects while voting frees a place at the gate (`DisconnectFreesAPlace`). `TargetHoldsIff` and `GateSufficesIff` cover such changes.
- VoteTask.AccountsAreConserved: takes are atomic steps; `AtomicIffClear` says when that holds.
- VoteTask.ReportIsExact: speaks of the counter; `WxVote.WxVote.DoTask` states it of the report.
- VoteQuota.GateSufficesIff: speaks of one run and of claims; `VoteTarget.TargetHoldsIff` speaks of the successes of all runs.
- VoteTarget.TargetHoldsIff: outside changes set no device to voting, as only a vote session does.
- Accounts.FailedStatementsOnlyLag: says nothing about a stored status or daily mark whose statement failed, which may be older than memory.
- WxVote.WxVote.DoTask: daily sessions that run beside a vote are between two accounts when it starts.
- MainTask.MainTask.StartWorkQueue: between two entries other threads change only the queue; it ends where the default entry of a drained queue fails to parse. `tasks_mgr` is not part of this model, its writes are recorded in order.
- Connecting a session, the restart of the phone script after a timeout, and the second start it triggers.
- A daily session whose send fails keeps its device in the daily status; the model ends it like one without an answer (`DailyLose`).
- Sockets, acceptors, timers, signals and the io_service: a connection has an ip, an open flag and a reading flag.
- SQL text, string buffers, reconnection and escaping: each statement succeeds or fails as a whole.
- Agreement of the device table with its database: loading ignores the stored status.
- JSON parsing and the exceptions of malformed messages, configuration, `main.cpp` and the Lua script.
- The width of `int`: counters and targets are unbounded integers.
- Fairness and the internal order of the shared mutex; a read-locked region that takes the lock again is one region.
