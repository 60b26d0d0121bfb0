/**
 The wake-up protocol between the thread that runs the event loop and the threads that commit
 events or ask it to exit.  Every lock region, every unlocked read and every pipe operation is
 one step; a run is any interleaving of the steps of all threads.
 */
module WakeUp {

  /** How long a wait may block. */
  datatype Limit = Infinite | Finite | Zero

  /**
   Where the loop thread is.  `owes` marks a callback on the loop thread that has published an
   event or an exit request and has not yet written its wake byte.  `timed` marks the wait that
   is repeated until a timer is due, `drained` that bytes were read from the pipe in this wait.
   */
  datatype Pc =
    | Top                                              // about to take the lock in onRun
    | Checked(empty: bool)                             // has seen the queues, exit was not set
    | Processing(owes: bool)                           // handlers run, before the second look
    | Looked(seen: Seen)                               // in the second look, some queues seen empty
    | Idling(owes: bool)                               // slots of the idle signal run
    | Waiting(limit: Limit)                            // enters the wait
    | Timing(owes: bool, polled: bool)                 // timer slots run, before or after the poll
    | Polling(limit: Limit, timed: bool)               // blocked in poll
    | Draining(drained: bool, timed: bool)             // reads the pipe until it is empty
    | Dispatching(owes: bool, drained: bool, timed: bool) // device callbacks run
    | Serving(owes: bool)                              // handlers run after an active wait
    | Returned(timed: bool)                            // one wait has ended without activity
    | Leaving(owes: bool)                              // slots of the timeout signal run
    | Stopped                                          // onRun has left its loop

  // The source sends the timeout signal only after the wait of an idle loop; `wait(0)` of a loop
  // that is not idle (src/eventloop.cpp:212) and the poll behind a timer that is due
  // (src/selector.cpp:166-170) return without it.  Here every wait without activity goes through
  // `Leaving`, whose slots may do nothing, so the runs of the model include those of the source.

  /** The second look reads the normal, the priority and the active queue, without a lock. */
  datatype Seen = NormalEmpty | PriorityEmpty

  /** Another thread: between its lock region and its write it still has to wake the loop. */
  datatype ThreadPc = Away | MustWake

  /** `committed` counts events whose sender wakes the loop, `plain` those only queued. */
  datatype Queue = Queue(committed: nat, plain: nat)

  const NO_EVENTS: Queue := Queue(0, 0)

  datatype State = State(pc: Pc, normal: Queue, priority: Queue, active: Queue, exit: bool, pipe: nat, threads: map<nat, ThreadPc>)

  /** A full pipe drops the byte, which is harmless: it is not empty then. */
  const PIPE_CAPACITY: nat := 65536

  /** One read call takes up to this many bytes. */
  const READ_SIZE: nat := 1024

  predicate QueuesEmpty(s: State) {
    s.normal == NO_EVENTS && s.priority == NO_EVENTS && s.active == NO_EVENTS
  }

  /** Pending events whose sender wakes the loop. */
  function Committed(s: State): nat {
    s.normal.committed + s.priority.committed + s.active.committed
  }

  function Joined(a: Queue, b: Queue): Queue {
    Queue(a.committed + b.committed, a.plain + b.plain)
  }

  function One(committed: bool): Queue {
    if committed then Queue(1, 0) else Queue(0, 1)
  }

  function Queued(s: State, committed: bool, priority: bool): State {
    if priority then s.(priority := Joined(s.priority, One(committed)))
    else s.(normal := Joined(s.normal, One(committed)))
  }

  /** An unfinished normal batch is overtaken, or an empty batch refilled; the choice is not the protocol's. */
  function Moved(s: State, which: Move): State {
    match which
    case Overtake => s.(normal := Joined(s.active, s.normal), active := s.priority, priority := NO_EVENTS)
    case FromPriority => s.(active := Joined(s.active, s.priority), priority := NO_EVENTS)
    case FromNormal => s.(active := Joined(s.active, s.normal), normal := NO_EVENTS)
  }

  datatype Move = Overtake | FromPriority | FromNormal

  function Written(pipe: nat): nat {
    if pipe < PIPE_CAPACITY then pipe + 1 else pipe
  }

  datatype Step =
    // other threads
    | Commit(t: nat, toPriority: bool)
    | RequestExit(t: nat)
    | QueueOnly(toPriority: bool)
    | Write(t: nat)
    // callbacks on the loop thread
    | CallbackCommit(toPriority: bool)
    | CallbackExit
    | CallbackQueue(toPriority: bool)
    | CallbackWrite
    // the loop thread itself
    | Check
    | Begin
    | MoveEvents(which: Move)
    | Deliver(wasCommitted: bool)
    | LookAtNormal
    | LookAtPriority
    | LookAtActive
    | EndIdle(limit: Limit)
    | TimersDue
    | EnterPoll(timed: bool)
    | EndTimers
    | Ready
    | TimedOut
    | Read
    | EndDispatch(found: bool)
    | EndServing
    | PollAgain
    | Leave
    | EndLeaving

  predicate InCallback(pc: Pc) {
    pc.Processing? || pc.Idling? || pc.Timing? || pc.Dispatching? || pc.Serving? || pc.Leaving?
  }

  predicate Owes(pc: Pc) {
    InCallback(pc) && pc.owes
  }

  function SetOwes(pc: Pc, owes: bool): Pc
    requires InCallback(pc)
  {
    pc.(owes := owes)
  }

  predicate MustWakeSoon(s: State, t: nat) {
    t in s.threads && s.threads[t] == MustWake
  }

  predicate Enabled(s: State, a: Step) {
    match a
    case Commit(t, _) => !MustWakeSoon(s, t)
    case RequestExit(t) => !MustWakeSoon(s, t)
    case QueueOnly(_) => true
    case Write(t) => MustWakeSoon(s, t)
    case CallbackCommit(_) => InCallback(s.pc) && !s.pc.owes
    case CallbackExit => InCallback(s.pc) && !s.pc.owes
    case CallbackQueue(_) => InCallback(s.pc) && !s.pc.owes
    case CallbackWrite => Owes(s.pc)
    case Check => s.pc == Top
    case Begin => s.pc.Checked?
    case MoveEvents(_) => s.pc == Processing(false) || s.pc == Serving(false)
    case Deliver(wasCommitted) =>
      (s.pc == Processing(false) || s.pc == Serving(false)) && (if wasCommitted then s.active.committed > 0 else s.active.plain > 0)
    case LookAtNormal => s.pc == Processing(false)
    case LookAtPriority => s.pc == Looked(NormalEmpty)
    case LookAtActive => s.pc == Looked(PriorityEmpty)
    case EndIdle(_) => s.pc == Idling(false)
    case TimersDue => s.pc.Waiting? || s.pc == Returned(true)
    case EnterPoll(timed) => s.pc.Waiting? && (timed ==> s.pc.limit != Zero)
    case EndTimers => s.pc.Timing? && !s.pc.owes
    case Ready => s.pc.Polling? // the pipe or a device is readable
    case TimedOut => s.pc.Polling? && s.pc.limit != Infinite && s.pipe == 0
    case Read => s.pc.Draining?
    case EndDispatch(_) => s.pc.Dispatching? && !s.pc.owes
    case EndServing => s.pc == Serving(false)
    case PollAgain => s.pc == Returned(true)
    case Leave => s.pc == Returned(false)
    case EndLeaving => s.pc == Leaving(false)
  }

  function Next(s: State, a: Step): State
    requires Enabled(s, a)
  {
    match a
    case Commit(t, toPriority) => Queued(s, true, toPriority).(threads := s.threads[t := MustWake])
    case RequestExit(t) => s.(exit := true, threads := s.threads[t := MustWake])
    case QueueOnly(toPriority) => Queued(s, false, toPriority)
    case Write(t) => s.(pipe := Written(s.pipe), threads := s.threads[t := Away])
    case CallbackCommit(toPriority) => Queued(s, true, toPriority).(pc := SetOwes(s.pc, true))
    case CallbackExit => s.(exit := true, pc := SetOwes(s.pc, true))
    case CallbackQueue(toPriority) => Queued(s, false, toPriority)
    case CallbackWrite => s.(pipe := Written(s.pipe), pc := SetOwes(s.pc, false))
    case Check => if s.exit then s.(exit := false, pc := Stopped) else s.(pc := Checked(QueuesEmpty(s)))
    case Begin => s.(pc := if s.pc.empty then Idling(false) else Processing(false))
    case MoveEvents(which) => Moved(s, which)
    case Deliver(wasCommitted) =>
      if wasCommitted then s.(active := s.active.(committed := s.active.committed - 1))
      else s.(active := s.active.(plain := s.active.plain - 1))
    case LookAtNormal => s.(pc := if s.normal == NO_EVENTS then Looked(NormalEmpty) else Waiting(Zero))
    case LookAtPriority => s.(pc := if s.priority == NO_EVENTS then Looked(PriorityEmpty) else Waiting(Zero))
    case LookAtActive => s.(pc := if s.active == NO_EVENTS then Idling(false) else Waiting(Zero))
    case EndIdle(limit) => s.(pc := Waiting(limit))
    case TimersDue => s.(pc := Timing(false, s.pc.Returned?))
    case EnterPoll(timed) => s.(pc := if timed then Polling(Finite, true) else Polling(s.pc.limit, false))
    case EndTimers => s.(pc := if s.pc.polled then Top else Polling(Zero, false))
    case Ready => s.(pc := if s.pipe > 0 then Draining(false, s.pc.timed) else Dispatching(false, false, s.pc.timed))
    case TimedOut => s.(pc := Returned(s.pc.timed))
    case Read => if s.pipe > READ_SIZE then s.(pipe := s.pipe - READ_SIZE, pc := Draining(true, s.pc.timed))
                 else if s.pipe > 0 then s.(pipe := 0, pc := Draining(true, s.pc.timed))
                 else s.(pc := Dispatching(false, s.pc.drained, s.pc.timed))
    case EndDispatch(found) => s.(pc := if !found && !s.pc.drained then Returned(s.pc.timed)
                                        else if QueuesEmpty(s) then Top
                                        else Serving(false))
    case EndServing => s.(pc := Top)
    case PollAgain => s.(pc := Polling(Finite, true))
    case Leave => s.(pc := Leaving(false))
    case EndLeaving => s.(pc := Top)
  }

  /** A finite interleaving: every step is enabled where it is taken. */
  predicate IsRun(s: State, run: seq<Step>)
    decreases |run|
  {
    run == [] || (Enabled(s, run[0]) && IsRun(Next(s, run[0]), run[1..]))
  }

  function After(s: State, run: seq<Step>): State
    requires IsRun(s, run)
    decreases |run|
  {
    if run == [] then s else After(Next(s, run[0]), run[1..])
  }

  /** The loop starts with events already queued, but no thread in the middle of waking it. */
  predicate Initial(s: State) {
    s.pc == Top && s.threads == map[]
  }

  /** A wake byte is in the pipe or will be written without any help from the loop. */
  ghost predicate WakeComing(s: State) {
    s.pipe > 0 || Owes(s.pc) || exists t :: MustWakeSoon(s, t)
  }

  /** The loop may block from here without another look at the queues. */
  predicate MayBlock(pc: Pc) {
    || (pc.Checked? && pc.empty)
    || pc.Idling?
    || (pc.Waiting? && pc.limit != Zero)
    || (pc.Polling? && pc.limit != Zero)
    || (pc.Draining? && pc.timed && !pc.drained)
    || (pc.Dispatching? && pc.timed && !pc.drained)
    || (pc.Returned? && pc.timed)
  }

  /** The loop may block from here without another look at the exit flag. */
  predicate MayMissExit(pc: Pc) {
    MayBlock(pc) || pc.Checked? || pc.Processing? || pc.Looked?
  }

  /** Committed events in the queues that will not be looked at again before the loop may block. */
  function Overlooked(s: State): nat {
    if MayBlock(s.pc) then Committed(s)
    else if s.pc == Looked(NormalEmpty) then s.normal.committed
    else if s.pc == Looked(PriorityEmpty) then s.normal.committed + s.priority.committed
    else 0
  }

  /** What every reachable state keeps. */
  ghost predicate Safe(s: State) {
    && (s.pc.Polling? && s.pc.timed ==> s.pc.limit == Finite)
    && (MayMissExit(s.pc) && s.exit ==> WakeComing(s))
    && (Overlooked(s) > 0 ==> WakeComing(s))
  }

  predicate ByThread(a: Step) {
    a.Commit? || a.RequestExit? || a.QueueOnly? || a.Write?
  }

  predicate ByCallback(a: Step) {
    a.CallbackCommit? || a.CallbackExit? || a.CallbackQueue? || a.CallbackWrite?
  }

  lemma ThreadIsSafe(s: State, a: Step)
    requires Safe(s) && Enabled(s, a) && ByThread(a)
    ensures Safe(Next(s, a))
  {
    var s' := Next(s, a);
    if a.Commit? || a.RequestExit? {
      assert MustWakeSoon(s', a.t);
    } else {
      assert forall t :: MustWakeSoon(s, t) && a != Write(t) ==> MustWakeSoon(s', t);
    }
  }

  lemma CallbackIsSafe(s: State, a: Step)
    requires Safe(s) && Enabled(s, a) && ByCallback(a)
    ensures Safe(Next(s, a))
  {
    var s' := Next(s, a);
    assert forall t :: MustWakeSoon(s, t) ==> MustWakeSoon(s', t);
  }

  /** The loop thread up to the second look at the queues. */
  predicate InRun(a: Step) {
    a.Check? || a.Begin? || a.MoveEvents? || a.Deliver? || a.LookAtNormal? || a.LookAtPriority? || a.LookAtActive? || a.EndIdle?
  }

  lemma RunLoopIsSafe(s: State, a: Step)
    requires Safe(s) && Enabled(s, a) && InRun(a)
    ensures Safe(Next(s, a))
  {
    var s' := Next(s, a);
    assert forall t :: MustWakeSoon(s, t) ==> MustWakeSoon(s', t);
  }

  lemma WaitIsSafe(s: State, a: Step)
    requires Safe(s) && Enabled(s, a) && !ByThread(a) && !ByCallback(a) && !InRun(a)
    ensures Safe(Next(s, a))
  {
    var s' := Next(s, a);
    assert forall t :: MustWakeSoon(s, t) ==> MustWakeSoon(s', t);
  }

  /** Every step of another thread, of a callback and of the loop itself. */
  lemma StepIsSafe(s: State, a: Step)
    requires Safe(s) && Enabled(s, a)
    ensures Safe(Next(s, a))
  {
    hide Safe, Next;
    if ByThread(a) {
      ThreadIsSafe(s, a);
    } else if ByCallback(a) {
      CallbackIsSafe(s, a);
    } else if InRun(a) {
      RunLoopIsSafe(s, a);
    } else {
      WaitIsSafe(s, a);
    }
  }

  lemma {:induction false} RunIsSafe(s: State, run: seq<Step>)
    requires Safe(s) && IsRun(s, run)
    ensures Safe(After(s, run))
    decreases |run|
  {
    if run != [] {
      StepIsSafe(s, run[0]);
      RunIsSafe(Next(s, run[0]), run[1..]);
    }
  }

  /**
   No lost wake-up: in every interleaving, a loop that blocks while a committed event or an exit
   request is pending finds a byte in the pipe, or another thread is still to write one.
   */
  lemma NoLostWakeUp(s: State, run: seq<Step>)
    requires Initial(s) && IsRun(s, run)
    ensures var e := After(s, run);
            (e.pc.Polling? && e.pc.limit != Zero && (Committed(e) > 0 || e.exit))
            ==> (e.pipe > 0 || exists t :: MustWakeSoon(e, t))
  {
    RunIsSafe(s, run);
  }

  function ReadsToEmpty(pipe: nat): seq<Step>
    decreases pipe
  {
    if pipe == 0 then [Read] else [Read] + ReadsToEmpty(if pipe > READ_SIZE then pipe - READ_SIZE else 0)
  }

  lemma {:induction false} DrainEmpties(s: State)
    requires s.pc.Draining?
    ensures var run := ReadsToEmpty(s.pipe);
            IsRun(s, run) && After(s, run) == s.(pipe := 0, pc := Dispatching(false, s.pc.drained || s.pipe > 0, s.pc.timed))
    decreases s.pipe
  {
    var run := ReadsToEmpty(s.pipe);
    if s.pipe == 0 {
      assert run == [Read];
    } else {
      var s1 := Next(s, Read);
      DrainEmpties(s1);
      assert run[1..] == ReadsToEmpty(s1.pipe);
    }
  }

  lemma {:induction false} RunsConcat(s: State, r1: seq<Step>, r2: seq<Step>)
    requires IsRun(s, r1) && IsRun(After(s, r1), r2)
    ensures IsRun(s, r1 + r2) && After(s, r1 + r2) == After(After(s, r1), r2)
    decreases |r1|
  {
    hide Next, Enabled;
    if r1 == [] {
      assert r1 + r2 == r2;
    } else {
      RunsConcat(Next(s, r1[0]), r1[1..], r2);
      assert (r1 + r2)[1..] == r1[1..] + r2;
    }
  }

  lemma WokenSteps(s: State)
    requires s.pc.Polling? && s.pipe > 0
    ensures !Enabled(s, TimedOut)
    ensures Enabled(s, Ready) && Next(s, Ready) == s.(pc := Draining(false, s.pc.timed))
    ensures var d := s.(pipe := 0, pc := Dispatching(false, true, s.pc.timed));
            Enabled(d, EndDispatch(false))
            && Next(d, EndDispatch(false)) == s.(pipe := 0, pc := if QueuesEmpty(s) then Top else Serving(false))
  {
  }

  /**
   A byte in the pipe ends every wait, also the one repeated for a timer: by its own steps the
   loop empties the pipe and then serves the queues, or is back where it looks at the exit flag.
   */
  lemma WakeByteEndsTheWait(s: State)
    requires s.pc.Polling? && s.pipe > 0
    ensures !Enabled(s, TimedOut)
    ensures var run := [Ready] + ReadsToEmpty(s.pipe) + [EndDispatch(false)];
            IsRun(s, run) && After(s, run) == s.(pipe := 0, pc := if QueuesEmpty(s) then Top else Serving(false))
  {
    hide IsRun, After, Next, Enabled, QueuesEmpty;
    var s1 := s.(pc := Draining(false, s.pc.timed));
    var s2 := s.(pipe := 0, pc := Dispatching(false, true, s.pc.timed));
    var s3 := s.(pipe := 0, pc := if QueuesEmpty(s) then Top else Serving(false));
    WokenSteps(s);
    var drain := ReadsToEmpty(s.pipe);
    var last := [EndDispatch(false)] + [];
    DrainEmpties(s1);
    NoSteps(s3);
    Prepend(s2, EndDispatch(false), []);
    RunsConcat(s1, drain, last);
    Prepend(s, Ready, drain + last);
    assert [Ready] + (drain + last) == [Ready] + drain + [EndDispatch(false)];
  }

  lemma Prepend(s: State, a: Step, run: seq<Step>)
    requires Enabled(s, a) && IsRun(Next(s, a), run)
    ensures IsRun(s, [a] + run) && After(s, [a] + run) == After(Next(s, a), run)
  {
    assert ([a] + run)[1..] == run;
  }

  lemma NoSteps(s: State)
    ensures IsRun(s, []) && After(s, []) == s
  {
  }

  /** A loop with nothing to do and no timer goes to sleep without limit. */
  lemma IdleLoopSleeps(s: State) returns (run: seq<Step>)
    requires s.pc == Top && QueuesEmpty(s) && !s.exit
    ensures IsRun(s, run) && After(s, run) == s.(pc := Polling(Infinite, false))
  {
    var s1 := Next(s, Check);
    assert s1 == s.(pc := Checked(true));
    var s2 := Next(s1, Begin);
    assert s2 == s.(pc := Idling(false));
    var s3 := Next(s2, EndIdle(Infinite));
    assert s3 == s.(pc := Waiting(Infinite));
    var s4 := Next(s3, EnterPoll(false));
    assert s4 == s.(pc := Polling(Infinite, false));
    hide *;
    NoSteps(s4);
    Prepend(s3, EnterPoll(false), []);
    run := [EnterPoll(false)] + [];
    Prepend(s2, EndIdle(Infinite), run);
    run := [EndIdle(Infinite)] + run;
    Prepend(s1, Begin, run);
    run := [Begin] + run;
    Prepend(s, Check, run);
    run := [Check] + run;
  }

  /**
   The wake byte is what the guarantee hangs on: an event that another thread only queues leaves
   a sleeping loop asleep, with no byte written and nobody about to write one.
   */
  lemma QueuedOnlyMaySleep(s: State) returns (run: seq<Step>)
    requires Initial(s) && QueuesEmpty(s) && !s.exit && s.pipe == 0
    ensures IsRun(s, run)
    ensures var e := After(s, run);
            e.pc == Polling(Infinite, false) && !QueuesEmpty(e) && !WakeComing(e)
  {
    hide IsRun, After, Next, Enabled;
    var r1 := IdleLoopSleeps(s);
    var s1 := After(s, r1);
    QueuedOnlyIsUnheard(s1);
    var e := Next(s1, QueueOnly(false));
    NoSteps(e);
    Prepend(s1, QueueOnly(false), []);
    run := r1 + ([QueueOnly(false)] + []);
    RunsConcat(s, r1, [QueueOnly(false)] + []);
  }

  lemma QueuedOnlyIsUnheard(s: State)
    requires s.pc == Polling(Infinite, false) && s.pipe == 0 && s.threads == map[]
    ensures Enabled(s, QueueOnly(false))
    ensures var e := Next(s, QueueOnly(false));
            e.pc == Polling(Infinite, false) && !QueuesEmpty(e) && !WakeComing(e)
  {
  }
}
