# Verified models of the vendor RIL daemon

Dafny models of the daemon's concurrent, allocating and parsing components, with proofs over every
interleaving, every modem answer, every cutting of a stream into reads and every input line.

- `ThreadPool`, `RequestDispatch`, `OtherRequests`: the dispatcher threads with their request lists,
  the bounded thread pool behind them, and the two together.
- `PdpTable`, `DataSetup`, `DataAnswers`, `DataUsers`, `DataHarm`, `OtherSims`, `DataCalls`: the PDP context
  slots of all SIMs and their fallback pairing; the setup of a data call as a function of everything that is
  answered, and what it gives back; the use counts against the users there are, which requests keep them
  right, over runs, and what the SIMs do to each other; and all of it in place.
- `AtLines`, `AtBuffer`, `AtPrompt`, `AtStale`, `AtReader`: the lines of an AT channel's stream; what one call
  of the line reader makes of its buffer; runs of calls past SMS prompts; how an earlier line comes back
  after one; and the reader in place.
- `AtTransaction`, `AtChannel`: the transaction between the reader thread and a command thread, and the
  channels threads hold.
- `Scheduler`, `EventLoop`, `WatchTable`: the event loop's sorted timers, as values and as linked rings,
  and its table of descriptors.
- `WakeLock`, `PendingRequests`, `AsyncCommands`, `AsyncTokens`: what is built on such timers and lists.
- `RecordStream`, `AtTok`, `AtTokBuffer`, `Cgdcont`, `BroadcastConfig`, `WarningSegments`, `WarningLoss`:
  formats, their readers and writers, and warning messages that lose a segment.
- `Options`: what the modules share.

Where the code updates state in place there is a class whose methods are proved against a function on
values, and the properties are proved about that function over whole runs. Threads are interleaved
one critical section, or one unprotected access to shared data, at a time. The modem, system
properties, reads and the clock are arbitrary.

## Where the code does not keep a promise

Each of these is a lemma or a contract that says when it does.

- A job dispatched while every worker still counted has decided to leave waits until a later dispatch
  creates a worker (`ThreadPool.DispatchServes`, `ThreadPool.StrandedUntilCreation`,
  `ThreadPool.WindowStrandsJob`).
- A setup can report success on a slot that is idle (`DataSetup.SuccessOnIdleSlotIff`, with the answers of
  `DataSetup.SixRefusalsEndIdle` and `DataSetup.FirstSplitEndsIdle`); its users are counted there, and their
  deactivations free nothing (`DataUsers.DeactivationFreesIff`).
- The use count of a context is the number of its users, and used contexts are up, as long as every request
  is harmless and no longer (`DataHarm.RunStaysSoundIff`, `DataHarm.OneSimHarmlessIff`). A setup may be counted
  without the framework being told of it (`DataUsers.CountedForNobody`), and the counts are shared by all SIMs:
  a refused setup of one forgets the users of another (`OtherSims.OtherSimsIff`, `DataUsers.ForgottenByAnother`).
- The SMS prompt is recognised only when a read ends right behind it, so a line that begins like it and goes
  on may be cut in two (`AtLines.CuttingDoesNotMatterIff`, `AtLines.TwoCuttings`).
- After a prompt the cursor is behind the end of the text. What earlier reads left in the cells there, up to
  the next NUL, comes in front of the next line (`AtPrompt.PromptKeeps`); that does no harm iff it is nothing
  but newlines (`AtPrompt.NewlinesBringNothingIff`), and with a line of more than three characters before the
  prompt it is not (`AtStale.PromptLeavesTail`): "+CREG: 1" comes back as "EG: 1" (`AtStale.LineComesBack`).
  Behind a prompt that fills the buffer the cursor leaves the array (`AtPrompt.CursorLeavesIff`,
  `AtStale.CursorLeaves`). Otherwise the lines come out past any prompts (`AtPrompt.LinesComeOut`).
- A command sent on a busy channel frees the response another thread waits for
  (`AtTransaction.FindsAnotherIff`, `AtTransaction.SentOnABusyChannel`); holding the channel prevents it.
- A grab without memory for its timeout drops a lock that others hold (`WakeLock.FailedGrabKeepsInv`).
- A token that is entered again after an error can be completed twice
  (`AsyncTokens.TokensAreCompletedOnceIff`, `AsyncTokens.RetryCompletesTwice`), and a caller's error path may
  complete one that the handler completes too (`AsyncTokens.ErrorPathCompletesOnceIff`);
  `PendingRequests.UnknownTokensAreRefused` stops the second response while the request's address is not used
  again. A result for a command without a handler would free its entry unanswered
  (`AsyncCommands.ResultTakesEarliest`), but no caller enters one (`AsyncTokens.CallersAreAnswered`).
- Removing one of two watches of a descriptor makes the other deaf (`WatchTable.WatchList.RemoveWatch`).
- The getter of the broadcast configuration negates the setter's selected flag
  (`BroadcastConfig.SelectedIsNegated`).
- Warning messages count segments, not pages (`WarningSegments.AllPagesThereIff`). Ten segments or more have
  no array, and a message that loses a segment leaves the wrong one for those after it
  (`WarningLoss.SegmentFaultsIff`, `WarningLoss.LostThenLonger`): they come out right iff nothing is left over
  (`WarningLoss.ComesOutRightIff`, `WarningLoss.MessagesAreMixed`).

The comment in `librilutils/record_stream.c` speaks of a 16-bit length; the code reads four bytes, and so
does the model.

## Model

| member | source | states |
|---|---|---|
| ThreadPool.PoolSafety | libril_threads/thread_pool.cpp:14-209 | in every interleaving of callers and workers 0 <= thr_queue <= thr_alive <= thr_max, and the jobs accepted are those started, then those queued, first in first out |
| ThreadPool.StepKeepsInv | libril_threads/thread_pool.cpp:85-209 | every critical section of every thread keeps the counters equal to the number of workers alive and waiting, and the queue in order |
| ThreadPool.RunKeepsInv | libril_threads/thread_pool.cpp:85-209 | the same over whole runs |
| ThreadPool.DispatchServes | libril_threads/thread_pool.cpp:187-208 | after a dispatch some worker that has not decided to leave is awake for a non-empty queue iff the dispatch does not fall into the window in which all workers still counted are past their exit decision and no more may be started, and the thread it wants can be created |
| ThreadPool.StepKeepsServed | libril_threads/thread_pool.cpp:93-155 | no other step strands the queue |
| ThreadPool.RunKeepsServed | libril_threads/thread_pool.cpp:93-208 | a run without such a dispatch always has a worker awake for a non-empty queue |
| ThreadPool.StepComesCloser | libril_threads/thread_pool.cpp:93-137 | while a job is queued every worker step brings its start closer and no caller pushes it back |
| ThreadPool.SomeWorkerCanStep | libril_threads/thread_pool.cpp:93-155 | a served queue never blocks every worker |
| ThreadPool.JobIsStarted | libril_threads/thread_pool.cpp:93-208 | a queued job has been started after a bounded number of worker steps, whatever callers do meanwhile |
| ThreadPool.StrandedUntilCreation | libril_threads/thread_pool.cpp:187-208 | a dispatch in that window strands its job: nobody is left to start it. From there a step serves the queue again iff it is a dispatch that creates a worker, which it does iff a worker has stopped being counted meanwhile and the thread can be created; any other step starts nothing |
| ThreadPool.RunStaysStranded | libril_threads/thread_pool.cpp:93-209 | so stranded jobs wait through every run without such a dispatch |
| ThreadPool.StrandedJobIsStarted | libril_threads/thread_pool.cpp:187-208 | and are started, in order, after a bounded number of worker steps behind one |
| ThreadPool.WindowStrandsJob | libril_threads/thread_pool.cpp:134-144 | a concrete run in which a job is accepted and then no worker step is possible; the next dispatch creates a worker |
| ThreadPool.SharedPool.Dispatch | libril_threads/thread_pool.cpp:158-209 | updates the pool in place: the job goes to the tail and a worker is started iff nobody waits and the limit is not reached; refused after exit |
| ThreadPool.SharedPool.WorkerEnter | libril_threads/thread_pool.cpp:93-106 | the first test of the waiting loop, in place |
| ThreadPool.SharedPool.WorkerResume | libril_threads/thread_pool.cpp:107-119 | a wake-up inside the waiting loop, in place |
| ThreadPool.SharedPool.WorkerTake | libril_threads/thread_pool.cpp:120-137 | the head of the queue is taken, or the exit decision made |
| ThreadPool.SharedPool.WorkerDepart | libril_threads/thread_pool.cpp:139-153 | thr_alive drops, and the last worker to leave broadcasts |
| RequestDispatch.NoLostWakeup | libril_threads/request_threads.c:469-474 | whenever a dispatcher sleeps over a non-empty list some producer is between its append and its signal, and that signal can be given and wakes it, although the two use different mutexes |
| RequestDispatch.ExactlyOnceInOrder | libril_threads/request_threads.c:476-484 | for each list the requests handed over, then those listed, are the requests enqueued, each once and in order |
| RequestDispatch.CallsGoFirst | libril_threads/request_threads.c:508-521 | a SIM request is handed over only when every call request enqueued by the time the call list was tested has been; one enqueued between the test and the pick is overtaken |
| RequestDispatch.TestSeesAllCalls | libril_threads/request_threads.c:508-512 | at that test no call request is left behind |
| RequestDispatch.StepKeepsInv | libril_threads/request_threads.c:501-522 | every step of the dispatcher and of any number of producers keeps these facts |
| RequestDispatch.RunKeepsInv | libril_threads/request_threads.c:469-485 | the same over whole runs |
| RequestDispatch.CallComesCloser | libril_threads/request_threads.c:508-521 | a call request comes closer with every move of the dispatcher and is never pushed back |
| RequestDispatch.SimComesCloser | libril_threads/request_threads.c:508-521 | a SIM request is pushed back only by a call request enqueued meanwhile, by five moves |
| RequestDispatch.CallIsPicked | libril_threads/request_threads.c:501-522 | a call request has been handed over after a bounded number of dispatcher moves |
| RequestDispatch.SimIsPicked | libril_threads/request_threads.c:501-522 | so has a SIM request, with five more moves for each later call request |
| RequestDispatch.DispatcherIsNeverStuck | libril_threads/request_threads.c:469-485 | while anything is listed the dispatcher can move, or a signal on its way can wake it |
| RequestDispatch.DispatchQueue.AddTail | libril_threads/request_threads.c:83-91 | the request goes to the tail of its list and to no other |
| RequestDispatch.DispatchQueue.CondSignal | libril_threads/request_threads.c:640-642 | a sleeping dispatcher is woken; otherwise the signal is lost |
| RequestDispatch.DispatchQueue.Step | libril_threads/request_threads.c:501-522 | the dispatcher loop in place, one shared access at a time; it hands over the request it says |
| OtherRequests.EndToEndOrder | libril_threads/request_threads.c:578-597 | through the dispatcher and the pool: the requests enqueued are those started, those queued in the pool and those still listed, in order and each once, although the hand-over is retried |
| OtherRequests.StepKeepsInv | libril_threads/request_threads.c:585-597 | every step of producers, dispatcher and pool keeps this |
| OtherRequests.RunKeepsInv | libril_threads/request_threads.c:578-597 | the same over whole runs |
| OtherRequests.RequestIsDispatched | libril_threads/request_threads.c:578-597 | while the pool is not destroyed an enqueued request is in the pool after a bounded number of steps of the dispatcher thread, however producers, workers and the clock interleave |
| OtherRequests.RequestIsServed | libril_threads/request_threads.c:558-597 | end to end: and a worker has started it after a bounded number of worker steps more |
| OtherRequests.SomebodyCanStep | libril_threads/request_threads.c:578-597 | these steps can be taken: by the dispatcher thread, or by a signal on its way to it, while the request is not in the pool, and by a worker of an unstranded pool after that |
| OtherRequests.RunKeepsServed | libril_threads/request_threads.c:585-592 | the pool is not stranded if no hand-over falls into its window |
| PdpTable.PutKeepsPairing | sprd-ril/ril_data.c:195-223 | putPDP keeps the fallback pairing a partial involution and touches only the slot and its partner |
| PdpTable.UpdateKeepsPairing | sprd-ril/ril_data.c:266-281 | updatePDPCid keeps the pairing |
| PdpTable.PutByIndexKeepsPairing | sprd-ril/ril_data.c:243-252 | putPDPByIndex keeps the pairing iff the slot has no partner |
| PdpTable.MappingKeepsPairing | sprd-ril/ril_data.c:329-347 | setPDPMapping keeps the pairing iff it is given two different busy slots with no other partners |
| PdpTable.PutBoth | sprd-ril/ril_data.c:1730-1731 | putting partner and slot frees exactly the two |
| DataSetup.FreshActivation | sprd-ril/ril_data.c:806-923 | an activation on a free slot, whatever the modem answers, keeps the pairing and touches no other slot; the slot is busy and marked active iff it succeeds, and as free as before otherwise |
| DataSetup.FallBackKeeps | sprd-ril/ril_data.c:965-993 | checkFallBack brings up at most one more context, as the fallback of an IPv4v6 primary or on its own; no other busy context is touched, and the pairing is kept |
| DataSetup.SplitKeeps | sprd-ril/ril_data.c:995-1050 | two contexts for one: when the first is activated it is marked active on a slot that stays idle, and at most one more slot gets busy; otherwise nothing changes hands |
| DataSetup.ReuseKeeps | sprd-ril/ril_data.c:1405-1518 | reuseDefaultBearer ends with a busy context to use, or with nothing but marks on free slots |
| DataSetup.AttemptMarks | sprd-ril/ril_data.c:1541-1597 | a pass goes back to RETRY only by using up a counted retry or by marking one more slot unusable |
| DataSetup.LoopKeeps | sprd-ril/ril_data.c:1520-1597 | the retry machine ends within twelve passes for every sequence of answers; on the way to `error` nothing but marks changes, on the way to `done` at most two more slots get busy, no busy context is disturbed, and the slot it ends with is busy iff the bearer was reused or activated; an activated one is marked active and is the primary of its pair |
| DataSetup.IdleIff | sprd-ril/ril_data.c:1557-1597 | the slot a setup goes to `done` with is idle iff its last pass found no bearer to reuse and the fresh slot was refused with 288 when five retries were used, or with 128 and the first of the two contexts was activated instead |
| DataSetup.SixRefusalsEndIdle | sprd-ril/ril_data.c:1577-1581 | six answers 288 in a row do so: five are retried, and the sixth goes to `done` with the slot as free as at first |
| DataSetup.FirstSplitEndsIdle | sprd-ril/ril_data.c:1582-1587 | an answer 128 and a successful first half of the split do so at once |
| DataSetup.SuccessOnIdleSlotIff | sprd-ril/ril_data.c:1335-1375 | the framework is told of success while the slot is idle iff the answers are such and the context is listed as active |
| DataSetup.SetupKeeps | sprd-ril/ril_data.c:1520-1635 | whatever is answered, a setup keeps the pairing and leaves no slot unusable; at most two more slots are busy, none after an error; a context that was up is as before unless it has been given back |
| DataSetup.SetupCounts | sprd-ril/ril_data.c:1599-1607 | a setup sets the use counts of exactly the contexts it gives back to 0, and adds one to the context it ends with iff it goes to `done` and that is not given back; no other count changes |
| DataUsers.StepKeepsValid | sprd-ril/ril_data.c:1520-1770 | every request keeps the pairing of every SIM |
| DataUsers.DriftLaw | sprd-ril/ril_data.c:1599-1607 | the law of the use counts against the users there are, for every request in every state: the count drifts up by each use nobody was told of and down by each user it forgets, those of other SIMs when a context is given back and one when a context is deactivated by who does not use it |
| DataUsers.FreshIsSound | sprd-ril/ril_data.c:134-165 | at start-up and after a reset every count is the number of users |
| DataHarm.StepKeepsSoundIff | sprd-ril/ril_data.c:1520-1731 | if all counts are the numbers of users and every used context is up, they are so after a request iff it is harmless, a condition on the request, the users before it and the answers: a SIM deactivates what it uses or nobody does, and takes no fallback context from another SIM; a setup gives back nothing others use, is not counted without the framework being told, and does not succeed on an idle slot; a channel gets a context that is up |
| DataHarm.RunStaysSoundIff | sprd-ril/ril_data.c:1520-1731 | so over every run of requests on any number of SIMs they are so all along iff every request is harmless where it comes |
| DataHarm.OneSimHarmlessIff | sprd-ril/ril_data.c:1520-1731 | with one SIM every deactivation, closing and reset is harmless; a setup is iff it is refused, or its listing can be read and names the context, and it does not succeed when its last answers have left the slot idle; a channel that has a context set up is iff these answers did not, or the context is given up |
| DataAnswers.SetupGivesBack | sprd-ril/ril_data.c:1520-1635 | the contexts a setup gives back are exactly those whose activation the answers refuse on the way, and at the end the one it is refused with, or that is listed inactive or was detached, with its fallback |
| DataUsers.CountedForNobody | sprd-ril/ril_data.c:1577-1607 | from any state with a free context: six answers 288 and an unreadable list, then a successful setup; its user's deactivation fails and leaves the bearer up without a user |
| DataUsers.NthReleasesIff | sprd-ril/ril_data.c:1704-1731 | of n deactivations in a row the first n - 1 fail and change no slot and the n-th frees the context iff the count is n, or 0 for the first |
| DataUsers.UsersReleaseIff | sprd-ril/ril_data.c:1704-1731 | as long as the counts are right, n users release their context with the n-th deactivation iff no other SIM uses that context number |
| DataUsers.LastUserReleases | sprd-ril/ril_data.c:1704-1731 | as long as the counts are right, a user's deactivation succeeds iff it is the last user on any SIM and fails otherwise; the last one frees the context and its fallback partner, whoever uses that, and nothing else |
| OtherSims.OtherSimIff | sprd-ril/ril_data.c:1704-1716 | what one request of another SIM does to the users of a context: two or more can still release it together iff the request neither gives back, uses nor deactivates that context number; a single user can iff the request does not use it, or gives it back first |
| OtherSims.OtherSimsIff | sprd-ril/ril_data.c:1704-1716 | over any run of other SIMs: n users keep their bearer, and can release it together, iff since the last give-back of that number (then from 0, else from n) uses less deactivations, in all and from any point on, never exceed n and somewhere reach it; a single user is content with less |
| OtherSims.CancelOutIff | sprd-ril/ril_data.c:1704-1716 | so if nothing is given back and the others never take more uses than there are, iff they add as many as they take, or take the only one |
| DataUsers.ForgottenByAnother | sprd-ril/ril_data.c:218-220 | for example: two users of SIM a, then a refused setup of SIM b on the same context number, and the first deactivation releases the bearer the other still uses |
| DataCalls.DataService.GetPdp | sprd-ril/ril_data.c:167-193 | the first free, unmarked slot not taken by an active PDN becomes busy, or there is none |
| DataCalls.DataService.PutPdp | sprd-ril/ril_data.c:195-223 | in place: the slot and its partner, and the open-channel record of the context, whose SIM is not looked at |
| DataCalls.DataService.PutUnusablePdpCid | sprd-ril/ril_data.c:254-264 | every unusable mark of the SIM is taken back and nothing else changes |
| DataCalls.DataService.OnModemReset | sprd-ril/ril_data.c:134-165 | whatever the tables held, they are the initial tables afterwards, and there are no users |
| DataCalls.DataService.ActivateCid | sprd-ril/ril_data.c:806-923 | in place, for every answer of the modem; other SIMs' slots are untouched, as in all of the following |
| DataCalls.DataService.CheckFallBack | sprd-ril/ril_data.c:965-993 | in place, the fallback of the specification |
| DataCalls.DataService.SplitIpv4Ipv6 | sprd-ril/ril_data.c:995-1050 | in place, the split of the specification |
| DataCalls.DataService.ReuseBearer | sprd-ril/ril_data.c:1405-1518 | in place; s_openchannelCid is set only when a bearer is brought up |
| DataCalls.DataService.AttemptPass | sprd-ril/ril_data.c:1541-1597 | in place, one pass from the label RETRY |
| DataCalls.DataService.SetupLoop | sprd-ril/ril_data.c:1520-1597 | the retry loop in place ends, and as the specification does, for every sequence of answers |
| DataCalls.DataService.Done | sprd-ril/ril_data.c:1599-1607 | in place, the label `done` |
| DataCalls.DataService.RefuseSetup | sprd-ril/ril_data.c:1611-1620 | in place, the label `error` |
| DataCalls.DataService.ReportDataCall | sprd-ril/ril_data.c:1335-1375 | in place: a context listed as inactive, or detached meanwhile, is given back; success iff it is listed as active otherwise |
| DataCalls.DataService.SetUpDataCall | sprd-ril/ril_data.c:1520-1635 | in place, the whole setup; s_openchannelCid names the context iff it goes to `done` |
| DataCalls.DataService.RequestSetupDataCall | sprd-ril/ril_data.c:1520-1635 | in place, on all tables and users, the setup request of the specification and its reply |
| DataCalls.DataService.RequestSetupDataConnection | sprd-ril/ril_data.c:4241-4289 | in place, the BIP request of the specification; the cid returned is positive iff a context is shared or set up, and its channel is not closed |
| DataCalls.DataService.DeactivateDataConnection | sprd-ril/ril_data.c:1681-1731 | in place, the deactivation of the specification and its reply, for every cid; one beyond the arrays is a fault |
| DataCalls.DataService.RequestDeactiveDataConnection | sprd-ril/ril_data.c:4291-4304 | in place: the channel is closed and the context deactivated |
| AtLines.CutAsYouLike | sprd-ril/atchannel.c:274-401 | if no line of a stream begins like a prompt and goes on, the lines returned are its lines however it is cut into reads: the non-empty CR/LF-terminated segments, and a prompt at its end |
| AtLines.CuttingDoesNotMatterIff | sprd-ril/atchannel.c:274-284 | and only if: for every other stream whose lines fit the buffer two deliverable cuttings give different lines |
| AtLines.TwoCuttings | sprd-ril/atchannel.c:275-278 | for example, whatever stands behind a prompt: one line in one read, two lines if the first read ends behind the blank |
| AtLines.SegmentsFirstLine | sprd-ril/atchannel.c:296-401 | the segments of a stream are its first line and the segments of what follows |
| AtPrompt.LinesComeOut | sprd-ril/atchannel.c:296-401 | for any calls, reads and failing reads, past any number of prompts: if the stream fits the buffer, no line begins like a prompt and goes on, and no unterminated prompt leaves anything but newlines, the lines returned are the first lines of the stream, and all of them when it has ended |
| AtPrompt.CallIs | sprd-ril/atchannel.c:296-401 | one call: the first line of what was left and read, with the rest of that left, or nothing with all of it left |
| AtPrompt.PromptKeeps | sprd-ril/atchannel.c:387-391 | after an unterminated prompt the text goes on with what the buffer held there before the call, from the cell behind the prompt's NUL up to the next NUL |
| AtPrompt.NewlinesBringNothingIff | sprd-ril/atchannel.c:308-335 | from there a call that reads nothing but newlines returns no line iff that text is nothing but newlines; if the cell is NUL it is empty |
| AtPrompt.NothingIsLeftIff | sprd-ril/atchannel.c:308-335 | and whatever is read, the calls return what they would on an empty buffer iff it is nothing but newlines |
| AtPrompt.CursorLeavesIff | sprd-ril/atchannel.c:387-391 | a call leaves the cursor behind the array iff it returns an unterminated prompt that ends the full buffer |
| AtStale.PromptLeavesTail | sprd-ril/atchannel.c:275-278 | a line that comes in one read, then a prompt in one read: the line without its first three characters is left behind the prompt, so nothing is left iff it has at most three |
| AtStale.LineComesBack | sprd-ril/atchannel.c:312-335 | a run of calls on such a stream: the line, the prompt, the tail of the line as a line of its own, and only then the answer |
| AtStale.LinesOfStream | sprd-ril/atchannel.c:296-401 | the stream of that run is unambiguous, and has no such line |
| AtStale.CursorLeaves | sprd-ril/atchannel.c:387-391 | a run of two calls, on one read that fills the buffer and ends in a prompt, after which the cursor is behind the array |
| AtReader.LineReader.Drain | sprd-ril/atchannel.c:296-401 | in place, any number of calls, up to one that takes the cursor out of the array: the lines are those of that run of calls; under the conditions of LinesComeOut they are the lines of the stream |
| AtReader.LineReader.ReadLine | sprd-ril/atchannel.c:296-401 | in place: reads are made only while no line is complete, and the line, the whole buffer and the cursor are exactly those of the specification |
| AtReader.LineReader.Prepare | sprd-ril/atchannel.c:308-335 | before the loop: leading newlines are skipped; a line already buffered, or the partial line at the front of the buffer with the cells behind it as they were |
| AtReader.LineReader.ReadUntilLine | sprd-ril/atchannel.c:337-385 | the read loop ends with a line or at a failing read; each read goes behind the text, and a text that fills the buffer is dropped before the next one |
| AtReader.LineReader.FindNextEol | sprd-ril/atchannel.c:274-284 | the end of the line, or the prompt, or nothing |
| AtReader.LineReader.MoveToFront | sprd-ril/atchannel.c:325-331 | the partial line is moved to the front, with its NUL, and no other cell changes |
| AtReader.LineReader.Cut | sprd-ril/atchannel.c:387-400 | the line is handed out, its end becomes NUL and the cursor goes behind it, which for an unterminated prompt changes no cell |
| AtTransaction.GatherIsAnswer | sprd-ril/atchannel.c:208-266 | whatever lines arrive for a command, its response holds the lines that answer it, newest first, the last final line, the success that line stands for, and the PDU is gone iff a prompt came |
| AtTransaction.EveryLineGoesOnePlace | sprd-ril/atchannel.c:208-266 | conservation: while a command is pending the lines processed are those handed on as unsolicited, those of the answer, the final lines and the prompt its PDU was written for, each as often as it came |
| AtTransaction.StepKeepsInv | sprd-ril/atchannel.c:809-876 | if every sender holds its channel, at most the holder waits, it waits iff a response is pending, and that response is what the lines since its command make of it |
| AtTransaction.RunKeepsInv | sprd-ril/atchannel.c:809-931 | the same for all channels over whole runs of any number of threads |
| AtTransaction.DisciplinedCommandsGetTheirAnswer | sprd-ril/atchannel.c:809-1056 | no command finds another pending; each that ends well gets its answer in arrival order and a success flag that agrees with its final line; a successful singleline, numeric or sms command gets exactly one line |
| AtTransaction.WaitingOwnerIsAlone | libril_threads/request_threads.c:123-179 | while the holder of a channel waits nobody else may send on it or give it away, and the response stays in place |
| AtTransaction.FindsAnotherIff | sprd-ril/atchannel.c:817-820 | after any run in which every sender holds its channel, a command of whatever thread finds another one pending iff a thread waits; that one holds the channel and waits on, but its response has been freed |
| AtTransaction.OrphanTimesOut | sprd-ril/atchannel.c:838-852 | until another command is sent the waiting thread gets nothing but its timeout, whatever lines arrive |
| AtTransaction.SentOnABusyChannel | sprd-ril/atchannel.c:817-820 | the run: one thread gets the channel and sends, another sends without asking |
| AtChannel.StrStartsWith | sprd-ril/misc.c:19-27 | true iff the prefix is one |
| AtChannel.IsFinalResponse | sprd-ril/atchannel.c:130-161 | true iff the line starts with an entry of the table |
| AtChannel.ATResponse.AddIntermediate | sprd-ril/atchannel.c:100-112 | the line is put in front of the linked list |
| AtChannel.ATResponse.ReverseIntermediates | sprd-ril/atchannel.c:789-801 | the same nodes, relinked in the opposite order |
| AtChannel.ReverseChain | sprd-ril/atchannel.c:792-800 | the loop of the in-place reversal |
| AtChannel.ATChannel.ProcessLine | sprd-ril/atchannel.c:208-266 | in place, the step of the specification |
| AtChannel.ATChannel.Issue | sprd-ril/atchannel.c:817-834 | a fresh pending response, or an error exit with none |
| AtChannel.ATChannel.Collect | sprd-ril/atchannel.c:857-875 | the issuer gets the response with its lines in arrival order and nothing is pending |
| AtChannel.ATChannel.ClearPendingCommand | sprd-ril/atchannel.c:602-612 | nothing is pending afterwards |
| AtChannel.ChannelPool.GetChannel | libril_threads/request_threads.c:142-179 | the first idle channel of the SIM becomes busy; it carries no unsolicited results and maps back to the SIM |
| AtChannel.ChannelPool.PutChannel | libril_threads/request_threads.c:123-139 | the channel is idle afterwards, whoever held it |
| AtChannel.ChannelPool.EachChannelHasOneSim | libril_threads/request_threads.c:154-189 | the ranges of the SIMs are disjoint and getSocketIdByChannelID is their inverse |
| Scheduler.TimeValIsMicros | libril/ril_event.cpp:37-66 | timeradd, timercmp and timersub are arithmetic on microseconds and keep values normalised |
| Scheduler.InsertKeepsSorted | libril/ril_event.cpp:286-312 | insertion keeps the list sorted |
| Scheduler.InsertAddsOne | libril/ril_event.cpp:286-312 | insertion adds exactly the timer |
| Scheduler.TimersFireInOrder | libril/ril_event.cpp:158-213 | over every run timers fire after their deadlines, in deadline order across turns, and fired and listed timers together are those added |
| Scheduler.TurnFiresAllExpired | libril/ril_event.cpp:158-180 | a turn leaves no expired timer |
| Scheduler.TiesNewestFirst | libril/ril_event.cpp:302-308 | of equal deadlines the one added last goes first |
| EventLoop.AddToList | libril/ril_event.cpp:112-119 | the node is spliced into the ring before the given one |
| EventLoop.RemoveFromList | libril/ril_event.cpp:121-131 | the node leaves the ring, which stays closed |
| EventLoop.Loop.TimerAdd | libril/ril_event.cpp:286-312 | the linked list becomes the sorted insertion of the specification |
| EventLoop.Loop.ProcessTimeouts | libril/ril_event.cpp:158-180 | exactly the expired timers move to the pending list, in order, and both rings stay well formed and disjoint |
| EventLoop.Loop.FirePending | libril/ril_event.cpp:202-213 | the pending events fire in order, each once |
| EventLoop.Loop.Turn | libril/ril_event.cpp:376-381 | a turn fires exactly the expired timers |
| EventLoop.Loop.CalcNextTimeout | libril/ril_event.cpp:215-238 | the sleep is the normalised max(0, earliest deadline - now), or endless without timers |
| WatchTable.AllReadyAreTaken | libril/ril_event.cpp:182-199 | each ready watch is taken once and stays watched iff it persists |
| WatchTable.WatchList.Add | libril/ril_event.cpp:265-283 | the first free slot; a full table drops the event; the bound stays tight, and the descriptor set exact if it was |
| WatchTable.WatchList.RemoveWatch | libril/ril_event.cpp:134-156 | the slot is free and the bound tight again; the descriptor set stays exact iff no other watch has the descriptor |
| WatchTable.WatchList.LargestFd | libril/ril_event.cpp:143-152 | the recomputed bound is tight |
| WatchTable.WatchList.ProcessReadReadies | libril/ril_event.cpp:182-199 | the first n ready watches go to the pending list in table order and the one-shot ones are unwatched |
| WakeLock.StepKeepsInv | libril/ril.cpp:364-378 | grabs, releases, timers of others, expiries and callbacks keep: held iff counted iff exactly one release is armed, the last, still listed, due 200 ms after the last grab |
| WakeLock.RunKeepsInv | libril/ril.cpp:699-770 | the same over whole runs |
| WakeLock.HeldLockIsArmed | libril/ril.cpp:699-770 | so a held lock always has its release on its way, and a free one has none |
| WakeLock.TurnReleasesIffOverdue | libril/ril.cpp:752-770 | a turn of the event loop frees a held lock iff more than 200 ms have passed since the last grab, whatever the count |
| WakeLock.DrainReleases | libril/ril.cpp:364-378 | firing the pending timers frees the lock iff the last timeout is among them |
| WakeLock.LastReleaseFrees | libril/ril.cpp:725-747 | while no timeout fires the lock is freed by the last of as many releases as it counts |
| WakeLock.FailedGrabKeepsInv | libril/ril.cpp:707-711 | a grab whose timeout cannot be allocated drops the lock: harmless iff it was free |
| WakeLock.WakeLockState.GrabPartialWakeLock | libril/ril.cpp:699-723 | in place, the step of the specification; the last timeout is cancelled through its pointer |
| WakeLock.WakeLockState.ReleaseWakeLock | libril/ril.cpp:725-747 | in place, the step of the specification |
| WakeLock.WakeLockState.RequestTimedCallback | libril/ril.cpp:923-954 | a fresh timer record is filed at its place in the sorted list |
| WakeLock.WakeLockState.UserTimerCallback | libril/ril.cpp:364-378 | in place, the step of the specification; the last pointer never dangles |
| PendingRequests.EachRequestIsAnsweredOnce | libril/ril.cpp:640-697 | whatever tokens come back, a request is answered at most once, is answered or listed but never both, and its response asks for an ack iff it was itself acknowledged |
| PendingRequests.UnknownTokensAreRefused | libril/ril.cpp:550-604 | acks and completions of a request that is not listed change nothing |
| PendingRequests.RunKeepsInv | libril/ril.cpp:215-268 | every run of additions, acks and completions keeps the list exact |
| PendingRequests.PendingList.AddRequestToList | libril/ril.cpp:215-268 | the request is pushed at the front |
| PendingRequests.PendingList.OnRequestAck | libril/ril.cpp:607-638 | the request is marked, if it is listed |
| PendingRequests.PendingList.OnRequestComplete | libril/ril.cpp:640-697 | the request is unlinked, if it is listed, and answered |
| PendingRequests.Unlink | libril/ril.cpp:588-600 | the node leaves the linked list, at its head or inside |
| AsyncCommands.EndsAtMostOnce | sprd-ril/ril_async_cmd_handler.c:245-352 | whichever of result, timeout and removal comes first, an entry ends once and is not listed afterwards; a token may have several entries |
| AsyncCommands.RunKeepsInv | sprd-ril/ril_async_cmd_handler.c:73-352 | over every run each entry added is in exactly one of timer list, pending list and the ended ones; the list stays sorted |
| AsyncCommands.ResultTakesEarliest | sprd-ril/ril_async_cmd_handler.c:334-352 | a result ends an entry iff the timer list has a match: a matching one of earliest deadline, completed iff the command table has a handler for it and freed unanswered otherwise |
| AsyncCommands.TurnCompletesOverdue | sprd-ril/ril_async_cmd_handler.c:147-174 | a turn completes every overdue entry and no other |
| AsyncCommands.DrainCompletesPending | sprd-ril/ril_async_cmd_handler.c:166-174 | every pending entry is completed with a failure |
| AsyncTokens.SafeIff | sprd-ril/ril_async_cmd_handler.c:245-352 | no token can be completed twice by what is listed and what may happen to it iff no token has two entries that are listed or have completed it |
| AsyncTokens.TokensAreCompletedOnceIff | sprd-ril/ril_async_cmd_handler.c:265-289 | along every run each token is completed at most once, and can be by what is listed, iff no entry is added with a token that is already completed or still listed |
| AsyncTokens.StartIsSafe | sprd-ril/ril_async_cmd_handler.c:209-220 | at the start nothing is listed or completed, so every token is free |
| AsyncTokens.RetryCompletesTwice | sprd-ril/ril_network.c:1930-1946 | the run of the callers that try again: the entry times out, the removal finds nothing, the entry is added anew, and its token is completed a second time although each entry ends once |
| AsyncTokens.ErrorPathCompletesOnceIff | sprd-ril/ril_sim.c:1313-1323 | a caller that gives up removes an entry and completes the token itself; the handler never does, before or after and whatever happens, iff every entry that is listed with the token or has completed it is the one removed |
| AsyncTokens.CallersAreAnswered | sprd-ril/ril_async_cmd_handler.c:24-27 | the callers enter +CLCK: and +SPTESTMODE: only, which have handlers, so no entry of theirs is freed by a result without its token being completed |
| AsyncCommands.CommandHandler.AddAsyncCmdList | sprd-ril/ril_async_cmd_handler.c:265-289 | in place, a sorted insertion; a timeout that is not positive is due at once |
| AsyncCommands.CommandHandler.ProcessTimeouts | sprd-ril/ril_async_cmd_handler.c:147-163 | in place, exactly the expired entries move |
| AsyncCommands.CommandHandler.FirePending | sprd-ril/ril_async_cmd_handler.c:166-174 | in place, the pending list is emptied in order |
| AsyncCommands.CommandHandler.Scan | sprd-ril/ril_async_cmd_handler.c:297-308 | the first matching entry of the timer list |
| AsyncCommands.CommandHandler.CheckAndCompleteRequest | sprd-ril/ril_async_cmd_handler.c:334-352 | in place, the step of the specification |
| AsyncCommands.CommandHandler.RemoveAsyncCmdList | sprd-ril/ril_async_cmd_handler.c:291-310 | in place, the step of the specification |
| RecordStream.Reader.Drain | librilutils/record_stream.c:123-181 | for any records that fit, any cutting into reads and any failing reads, the records come out unchanged and in order, all of them by the time the stream is said to end, which only failing reads can delay; no record is too big |
| RecordStream.Reader.GetNext | librilutils/record_stream.c:123-181 | on any bytes: the first record of the stream, or nothing taken away; the too-big branch only for a header above the limit |
| RecordStream.Reader.GetNextRecord | librilutils/record_stream.c:92-108 | a complete record iff the buffer holds one |
| RecordStream.Reader.Read | librilutils/record_stream.c:160-161 | each read asks for a positive number of bytes that fit |
| RecordStream.Reader.MoveToFront | librilutils/record_stream.c:146-158 | the remainder is moved, not changed |
| RecordStream.FirstEndStays | librilutils/record_stream.c:71-90 | more bytes do not change a complete record |
| RecordStream.FirstOfEncoded | librilutils/record_stream.c:71-108 | the first record of an encoded list is its first element and the rest encodes the rest |
| AtTok.ReadUndoesPrint | sprd-ril/at_tok.c:67-127 | any list of integers, plain and quoted fields is returned unchanged by as many calls, and then nothing is left |
| AtTok.NextTokOfField | sprd-ril/at_tok.c:67-83 | nextTok returns one printed field and leaves exactly the rest |
| AtTok.StrToLOfPrint | sprd-ril/at_tok.c:103-113 | a printed int is read back, whatever non-digit follows |
| AtTok.HasMoreIff | sprd-ril/at_tok.c:176-178 | before a field there is more, except for an empty last field |
| AtTok.StartSkipsPrefix | sprd-ril/at_tok.c:28-45 | the fields are found behind any prefix |
| AtTokBuffer.WrittenNul | sprd-ril/at_tok.c:75-80 | a NUL written by strsep cuts the strings that contain it and no others |
| AtTokBuffer.Tokenizer.NextToken | sprd-ril/at_tok.c:67-83 | in the buffer: the token and rest of the specification, and every string in front of the pointer stays intact |
| AtTokBuffer.Tokenizer.NextInt | sprd-ril/at_tok.c:91-131 | the value, truncated to int; failure iff there is no number, and the pointer moves on all the same |
| AtTokBuffer.Tokenizer.NextStr | sprd-ril/at_tok.c:165-173 | the token, failing only at the end of the text |
| AtTokBuffer.Tokenizer.Start | sprd-ril/at_tok.c:28-45 | the pointer is behind the first flag character, or NULL |
| AtTokBuffer.Tokenizer.AtTokHasMore | sprd-ril/at_tok.c:176-178 | whether text is left |
| Cgdcont.RewriteKeepsCommandIff | sprd-ril/ril_data.c:3534-3632 | a six-field AT+CGDCONT= command comes out unchanged with a carriage return iff it has at most 126 characters |
| Cgdcont.CgdcontSetCmdReq | sprd-ril/ril_data.c:3534-3632 | in the buffer, what Rewrite says |
| BroadcastConfig.GetterUndoesSetter | sprd-ril/ril_sms.c:551-595 | for every non-empty list of ranges with values from 0 to 0xffff a report of the setter's arguments is read as the same ranges; every selected flag comes back as the negation of the first |
| BroadcastConfig.SelectedIsNegated | sprd-ril/ril_sms.c:416-418 | so no list at all comes back with its flags |
| BroadcastConfig.SetSmsBroadcastConfig | sprd-ril/ril_sms.c:380-466 | builds the command with its two running lists |
| BroadcastConfig.GetSmsBroadcastConfig | sprd-ril/ril_sms.c:538-595 | reads the report as specified, malformed ones included |
| BroadcastConfig.ChannelIsPrinted | sprd-ril/ril_sms.c:412-437 | the id list is the printed ranges separated by commas behind one quote, with the shorthand for one value |
| BroadcastConfig.LangIsPrinted | sprd-ril/ril_sms.c:439-451 | so is the list of coding schemes, without the shorthand |
| WarningSegments.MessagesAreReassembled | sprd-ril/ril_sms.c:1034-1115 | any number of messages of fewer than ten segments, each segment once and in any order: the texts are the concatenated pages, nothing is out of bounds, and the static variables end as they began |
| WarningSegments.MessageMakesOneText | sprd-ril/ril_sms.c:1068-1115 | any n segments with ids from 1 to n, repeated or not, make one text at the last of them |
| WarningSegments.AllPagesThereIff | sprd-ril/ril_sms.c:1082-1089 | after n segments no page is missing iff no id came twice |
| WarningSegments.TextFitsBuffer | sprd-ril/ril_sms.c:1077-1090 | dataLen is the stored length unless an id repeats, and never less, so the text fits its buffer |
| WarningLoss.SegmentFaultsIff | sprd-ril/ril_sms.c:1063-1076 | from the initial state and from the middle of any message: a segment is stored out of bounds iff its id is not beyond its own total and is not positive or beyond the array, which the first segment has made for its own total if that is below ten |
| WarningLoss.LostThenLonger | sprd-ril/ril_sms.c:1063-1076 | for example segment 1 of 2 and then segment 3 of 3, although both messages have fewer than ten segments |
| WarningLoss.OutOfStep | sprd-ril/ril_sms.c:1063-1115 | a whole message, in any order, on top of left-over segments of an incomplete one: it runs out of the array iff that was made for a shorter one; otherwise there are left-over segments again, and a text is passed on too early iff fewer were left over than it has |
| WarningLoss.NeverInStepAgain | sprd-ril/ril_sms.c:1063-1115 | so after one lost segment all later messages leave left-over segments, however many there are |
| WarningLoss.ComesOutRightIff | sprd-ril/ril_sms.c:1063-1115 | after a part of a message and any whole messages, all of fewer than ten segments, a further message in a given order comes out as its text, whatever it says, iff the part is empty |
| WarningLoss.MessagesAreMixed | sprd-ril/ril_sms.c:1068-1115 | for example one lost segment of two, then a message of two: two texts are passed on, the second from pages of both messages |
| WarningSegments.Reassembler.ReceiveSegment | sprd-ril/ril_sms.c:1063-1115 | in place on the static variables, the step of the specification |

## Left out

- RequestDispatch.DispatchQueue.AddTail: the request lists are sequences; the splicing of their nodes is that of `EventLoop.AddToList` and `EventLoop.RemoveFromList`.
- getCmdType: the table from requests to lists is not modelled; a request enters any list.
- dataDispatch: data requests run one after the other, without an unsolicited +CGEV result inside a setup.
- DataCalls.DataService.DeactivateDataConnection: what a cid above 6 makes the code do behind its arrays is not modelled; the tables stay as they are. A request for an absent card gets another reply.
- DataCalls.DataService.RequestSetupDataConnection: the wait for a context whose setup is under way is not modelled.
- DataCalls.DataService.ReportDataCall: the modem lists all six contexts; a shorter list makes the code read behind its array.
- DataCalls: access-point names, addresses, network interfaces and the fail causes are not modelled; what depends on them is an answer.
- AtReader.LineReader.Drain: NUL characters in the stream are excluded by hypothesis. It stops when the cursor leaves the array; what the code does behind it is not modelled.
- AtPrompt.LinesComeOut: runs of newlines and lines that together fill the buffer are excluded by hypothesis, because there the result does depend on the reads; `AtReader.LineReader.ReadLine` has them.
- AtTransaction.OrphanTimesOut: a wake-up makes the waiting thread read through the cleared pointer; the model has no step for it.
- AtTransaction: callers that pass no place for the response, the second line of two-line SMS results, and the counting of timed-out commands are not modelled.
- AtChannel.ChannelPool.GetChannel: one pass over the channels; the code sleeps and tries again. More than two SIMs have no channel numbers in the enumeration.
- EventLoop: callbacks are opaque; what they add to the lists while pending events fire is not modelled.
- WakeLock: callback versions below 13 are not modelled, and a timer callback is one step.
- PendingRequests: one list; the code has one for each SIM. The fields local and cancelled are never set.
- AsyncCommands: the timer and pending lists are sequences; unlinking and completing an entry is one step. The radio mutexes that a timeout unlocks are not modelled.
- AtTok.Read: base 16 integers and booleans are not modelled; long has 64 bits.
- Cgdcont.CgdcontSetCmdReq: the name servers in the seventh and eighth field are not modelled.
- BroadcastConfig.GetSmsBroadcastConfig: strings are values; the code runs two tokenizers on one buffer. More than 64 entries overrun an array the model does not have.
- WarningSegments.Reassembler.ReceiveSegment: the conversion of the text from hexadecimal digits is not modelled.
- Memory is never exhausted, apart from `WakeLock.FailedGrabKeepsInv`.
- HIDL and SAP services, socket and device I/O, response tables and the remaining requests are not part of this model.
