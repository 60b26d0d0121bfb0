/**
 The queues of `EventLoop`: a normal and a priority queue that any thread may fill, and an
 active batch that only the loop thread touches.  A run is any interleaving of the atomic
 actions below, so handlers and other threads may queue at every point.
 */
module EventScheduler {

  /** A cloned event; every `clone` call yields a new number. */
  type Event = nat

  /**
   Where a `processEvents` call is: at the head of its loop, behind the refill, about to pop an
   event because it has seen one and no exit request, or in the handler of an event.
   */
  datatype Pc = AtHead | Refilled | Chosen | Handling

  /** The activation record of one `processEvents` call. */
  datatype Call = Call(max: nat, count: nat, pc: Pc)

  datatype Loop = Loop(
    exit: bool,
    normal: seq<Event>,
    priority: seq<Event>,
    active: seq<Event>,
    activeIsPriority: bool,
    // the calls that are running, outermost first; a handler may call processEvents again
    calls: seq<Call>,
    // events handed to handlers and not yet destroyed, outermost handler first
    inFlight: seq<Event>,
    // history: everything queued, delivered and destroyed so far
    queuedNormal: seq<Event>,
    queuedPriority: seq<Event>,
    deliveredNormal: seq<Event>,
    deliveredPriority: seq<Event>,
    destroyed: seq<Event>)

  function NewLoop(): Loop {
    Loop(false, [], [], [], false, [], [], [], [], [], [], [])
  }

  // ---------------------------------------------------------------- atomic actions

  function Queue(s: Loop, e: Event, priority: bool): Loop {
    if priority then s.(priority := s.priority + [e], queuedPriority := s.queuedPriority + [e])
    else s.(normal := s.normal + [e], queuedNormal := s.queuedNormal + [e])
  }

  /** Priority events overtake an unfinished normal batch, which goes back to its queue's front. */
  function Bypass(s: Loop): Loop {
    if s.active != [] && !s.activeIsPriority && s.priority != [] then
      s.(normal := s.active + s.normal, active := s.priority, priority := [], activeIsPriority := true)
    else s
  }

  function Refill(s: Loop): Loop {
    if s.active != [] then s
    else if s.priority != [] then s.(active := s.priority, priority := [], activeIsPriority := true)
    else if s.normal != [] then s.(active := s.normal, normal := [], activeIsPriority := false)
    else s
  }

  function Deliver(s: Loop): Loop
    requires s.active != []
  {
    var e := s.active[0];
    var s' := s.(active := s.active[1..], inFlight := s.inFlight + [e]);
    if s.activeIsPriority then s'.(deliveredPriority := s.deliveredPriority + [e])
    else s'.(deliveredNormal := s.deliveredNormal + [e])
  }

  /** The innermost handler returns or throws; its event is destroyed either way. */
  function Destroy(s: Loop): Loop
    requires s.inFlight != []
  {
    var k := |s.inFlight| - 1;
    s.(inFlight := s.inFlight[..k], destroyed := s.destroyed + [s.inFlight[k]])
  }

  /** The destructor: everything still queued is destroyed. */
  function Teardown(s: Loop): Loop {
    s.(normal := [], priority := [], active := [], destroyed := s.destroyed + s.normal + s.priority + s.active)
  }

  // ---------------------------------------------------------------- two first-in first-out queues

  function PendingNormal(s: Loop): seq<Event> {
    if s.activeIsPriority then s.normal else s.active + s.normal
  }

  function PendingPriority(s: Loop): seq<Event> {
    if s.activeIsPriority then s.active + s.priority else s.priority
  }

  /** Each class is delivered in queuing order and nothing is lost. */
  ghost predicate Fifo(s: Loop) {
    && s.deliveredNormal + PendingNormal(s) == s.queuedNormal
    && s.deliveredPriority + PendingPriority(s) == s.queuedPriority
  }

  /** Every clone is in exactly one place. */
  ghost predicate Conserved(s: Loop) {
    multiset(s.queuedNormal) + multiset(s.queuedPriority) ==
    multiset(s.normal) + multiset(s.priority) + multiset(s.active) + multiset(s.inFlight) + multiset(s.destroyed)
  }

  ghost predicate Valid(s: Loop) {
    Fifo(s) && Conserved(s)
  }

  /** The front of the pending events moves to the end of the delivered ones. */
  lemma Shift(delivered: seq<Event>, e: Event, rest: seq<Event>, waiting: seq<Event>)
    ensures delivered + (([e] + rest) + waiting) == (delivered + [e]) + (rest + waiting)
  {
  }

  /** A delivered prefix and the pending rest grow together at the far end. */
  lemma Appended(delivered: seq<Event>, active: seq<Event>, waiting: seq<Event>, e: Event)
    ensures delivered + (active + (waiting + [e])) == delivered + (active + waiting) + [e]
    ensures delivered + (waiting + [e]) == delivered + waiting + [e]
  {
  }

  lemma QueueFifo(s: Loop, e: Event, priority: bool)
    requires Fifo(s)
    ensures Fifo(Queue(s, e, priority))
  {
    if priority {
      Appended(s.deliveredPriority, s.active, s.priority, e);
    } else {
      Appended(s.deliveredNormal, s.active, s.normal, e);
    }
  }

  lemma QueueConserved(s: Loop, e: Event, priority: bool)
    requires Conserved(s)
    ensures Conserved(Queue(s, e, priority))
  {
    var rest := multiset(s.active) + multiset(s.inFlight) + multiset(s.destroyed);
    var n, p := multiset(s.normal), multiset(s.priority);
    assert n + p + multiset(s.active) + multiset(s.inFlight) + multiset(s.destroyed) == n + p + rest;
    OneMore(multiset(s.queuedNormal), multiset(s.queuedPriority), n, p, rest, e);
    var q := Queue(s, e, priority);
    if priority {
      assert multiset(q.priority) == p + multiset{e} && multiset(q.queuedPriority) == multiset(s.queuedPriority) + multiset{e};
    } else {
      assert multiset(q.normal) == n + multiset{e} && multiset(q.queuedNormal) == multiset(s.queuedNormal) + multiset{e};
    }
    var n', p' := multiset(q.normal), multiset(q.priority);
    assert n' + p' + multiset(s.active) + multiset(s.inFlight) + multiset(s.destroyed) == n' + p' + rest;
  }

  lemma OneMore(qn: multiset<Event>, qp: multiset<Event>, n: multiset<Event>, p: multiset<Event>, rest: multiset<Event>, e: Event)
    requires qn + qp == n + p + rest
    ensures qn + (qp + multiset{e}) == n + (p + multiset{e}) + rest
    ensures qn + multiset{e} + qp == n + multiset{e} + p + rest
  {
    assert qn + (qp + multiset{e}) == qn + qp + multiset{e};
    assert n + (p + multiset{e}) + rest == n + p + rest + multiset{e};
    assert qn + multiset{e} + qp == qn + qp + multiset{e};
    assert n + multiset{e} + p + rest == n + p + rest + multiset{e};
  }

  lemma QueueKeeps(s: Loop, e: Event, priority: bool)
    requires Valid(s)
    ensures Valid(Queue(s, e, priority))
  {
    hide Fifo, Conserved;
    QueueFifo(s, e, priority);
    QueueConserved(s, e, priority);
  }

  lemma BypassKeeps(s: Loop)
    requires Valid(s)
    ensures Valid(Bypass(s))
  {
    assert s.priority + [] == s.priority;
  }

  lemma RefillKeeps(s: Loop)
    requires Valid(s)
    ensures Valid(Refill(s))
  {
    assert Fifo(Refill(s)) by {
      hide Conserved;
      assert [] + s.priority == s.priority == s.priority + [];
      assert [] + s.normal == s.normal == s.normal + [];
    }
    hide Fifo;
  }

  lemma DeliverFifo(s: Loop)
    requires Fifo(s) && s.active != []
    ensures Fifo(Deliver(s))
  {
    var e, rest := s.active[0], s.active[1..];
    assert s.active == [e] + rest;
    if s.activeIsPriority {
      Shift(s.deliveredPriority, e, rest, s.priority);
    } else {
      Shift(s.deliveredNormal, e, rest, s.normal);
    }
  }

  lemma DeliverConserved(s: Loop)
    requires Conserved(s) && s.active != []
    ensures Conserved(Deliver(s))
  {
    assert s.active == [s.active[0]] + s.active[1..];
  }

  lemma DeliverKeeps(s: Loop)
    requires Valid(s) && s.active != []
    ensures Valid(Deliver(s))
  {
    hide Fifo, Conserved;
    DeliverFifo(s);
    DeliverConserved(s);
  }

  lemma DestroyKeeps(s: Loop)
    requires Valid(s) && s.inFlight != []
    ensures Valid(Destroy(s))
  {
    var k := |s.inFlight| - 1;
    assert s.inFlight == s.inFlight[..k] + [s.inFlight[k]];
  }

  // ---------------------------------------------------------------- runs

  /** What any thread, a handler or the loop thread does in one go. */
  datatype Action =
    | DoQueue(e: Event, priority: bool)
    | DoExit
    | DoClearExit
    | DoEnter(max: nat)
    | DoTest
    | DoChoose
    | DoDeliver
    | DoFinishHandler
    | DoThrow

  function Top(s: Loop): Call
    requires s.calls != []
  {
    s.calls[|s.calls| - 1]
  }

  function SetTop(s: Loop, c: Call): Loop
    requires s.calls != []
  {
    s.(calls := s.calls[..|s.calls| - 1] + [c])
  }

  function Return(s: Loop): Loop
    requires s.calls != []
  {
    s.(calls := s.calls[..|s.calls| - 1])
  }

  /** The loop thread is in no call, or in a handler, and may call anything. */
  predicate Free(s: Loop) {
    s.calls == [] || Top(s).pc == Handling
  }

  /** Queuing and exiting are always possible, to every thread. */
  predicate Enabled(s: Loop, a: Action) {
    match a
    case DoQueue(_, _) | DoExit => true
    case DoClearExit => Free(s)
    case DoEnter(_) => Free(s)
    case DoTest => s.calls != [] && Top(s).pc == AtHead
    case DoChoose => s.calls != [] && Top(s).pc == Refilled
    case DoDeliver => s.calls != [] && Top(s).pc == Chosen && s.active != []
    case DoFinishHandler | DoThrow => s.calls != [] && Top(s).pc == Handling && s.inFlight != []
  }

  /** A call ends with its limit, otherwise it goes back to the head of its loop. */
  function Continue(s: Loop): Loop
    requires s.calls != []
  {
    var c := Top(s);
    if c.max != 0 && c.count >= c.max then Return(s) else SetTop(s, c.(pc := AtHead))
  }

  function Act(s: Loop, a: Action): Loop
    requires Enabled(s, a)
  {
    match a
    case DoQueue(e, priority) => Queue(s, e, priority)
    case DoExit => s.(exit := true)
    case DoClearExit => s.(exit := false)
    case DoEnter(max) => Bypass(s.(calls := s.calls + [Call(max, 0, AtHead)]))
    case DoTest => if s.exit then Return(s) else Refill(SetTop(s, Top(s).(pc := Refilled)))
    case DoChoose => if s.exit || s.active == [] then Return(s) else SetTop(s, Top(s).(pc := Chosen))
    case DoDeliver => Deliver(SetTop(s, Top(s).(pc := Handling, count := Top(s).count + 1)))
    case DoFinishHandler => Continue(Destroy(s))
    case DoThrow => Return(Destroy(s))
  }

  predicate IsRun(s: Loop, run: seq<Action>)
    decreases |run|
  {
    run != [] ==> Enabled(s, run[0]) && IsRun(Act(s, run[0]), run[1..])
  }

  function After(s: Loop, run: seq<Action>): Loop
    requires IsRun(s, run)
    decreases |run|
  {
    if run == [] then s else After(Act(s, run[0]), run[1..])
  }

  /** Order and conservation are about the queues, not about calls and exit requests. */
  lemma ValidWithoutCalls(s: Loop, calls: seq<Call>, exit: bool)
    requires Valid(s)
    ensures Valid(s.(calls := calls, exit := exit))
  {
  }

  lemma ActKeeps(s: Loop, a: Action)
    requires Valid(s) && Enabled(s, a)
    ensures Valid(Act(s, a))
  {
    hide Valid, Queue, Bypass, Refill, Deliver;
    match a
    case DoQueue(e, priority) => QueueKeeps(s, e, priority);
    case DoExit => ValidWithoutCalls(s, s.calls, true);
    case DoClearExit => ValidWithoutCalls(s, s.calls, false);
    case DoEnter(max) =>
      ValidWithoutCalls(s, s.calls + [Call(max, 0, AtHead)], s.exit);
      BypassKeeps(s.(calls := s.calls + [Call(max, 0, AtHead)]));
    case DoTest =>
      ValidWithoutCalls(s, Act(s, a).calls, s.exit);
      var t := SetTop(s, Top(s).(pc := Refilled));
      ValidWithoutCalls(s, t.calls, s.exit);
      RefillKeeps(t);
    case DoChoose => ValidWithoutCalls(s, Act(s, a).calls, s.exit);
    case DoDeliver =>
      var t := SetTop(s, Top(s).(pc := Handling, count := Top(s).count + 1));
      ValidWithoutCalls(s, t.calls, s.exit);
      DeliverKeeps(t);
    case DoFinishHandler =>
      DestroyKeeps(s);
      ValidWithoutCalls(Destroy(s), Act(s, a).calls, s.exit);
    case DoThrow =>
      DestroyKeeps(s);
      ValidWithoutCalls(Destroy(s), Act(s, a).calls, s.exit);
  }

  /**
   Every running call but the innermost is in a handler, every handler has its event, and a call
   that may still deliver has not used up its limit.
   */
  predicate Stacked(s: Loop) {
    && (forall i :: 0 <= i < |s.calls| - 1 ==> s.calls[i].pc == Handling)
    && |s.inFlight| == |s.calls| - (if Free(s) then 0 else 1)
    && (!Free(s) ==> (Top(s).pc == Chosen ==> s.active != []) && (Top(s).max > 0 ==> Top(s).count < Top(s).max))
  }

  lemma ActStacks(s: Loop, a: Action)
    requires Stacked(s) && Enabled(s, a)
    ensures Stacked(Act(s, a))
  {
    if a.DoEnter? || a.DoTest? || a.DoChoose? {
      CallStacks(s, a);
    } else if a.DoDeliver? || a.DoFinishHandler? || a.DoThrow? {
      HandlerStacks(s, a);
    }
  }

  lemma CallStacks(s: Loop, a: Action)
    requires Stacked(s) && Enabled(s, a) && (a.DoEnter? || a.DoTest? || a.DoChoose?)
    ensures Stacked(Act(s, a))
  {
  }

  lemma HandlerStacks(s: Loop, a: Action)
    requires Stacked(s) && Enabled(s, a) && (a.DoDeliver? || a.DoFinishHandler? || a.DoThrow?)
    ensures Stacked(Act(s, a))
  {
    hide Bypass, Refill;
  }

  /** Over every run: each class in order, nothing lost or duplicated. */
  lemma {:induction false} RunKeeps(s: Loop, run: seq<Action>)
    requires Valid(s) && IsRun(s, run)
    ensures Valid(After(s, run))
    decreases |run|
  {
    hide Valid, Act;
    if run != [] {
      ActKeeps(s, run[0]);
      RunKeeps(Act(s, run[0]), run[1..]);
    }
  }

  lemma {:induction false} RunStacks(s: Loop, run: seq<Action>)
    requires Stacked(s) && IsRun(s, run)
    ensures Stacked(After(s, run))
    decreases |run|
  {
    hide Stacked, Act;
    if run != [] {
      ActStacks(s, run[0]);
      RunStacks(Act(s, run[0]), run[1..]);
    }
  }

  /** How often a clone was queued; clones are distinct, so at most once. */
  ghost predicate DistinctClones(s: Loop) {
    forall e :: (multiset(s.queuedNormal) + multiset(s.queuedPriority))[e] <= 1
  }

  /**
   After any run from a new loop, with calls nested in handlers, exceptions and the loop run
   again after an exit, destroying it once no call is running: every clone that was ever queued
   has been destroyed exactly once.
   */
  lemma DestroyedExactlyOnce(run: seq<Action>)
    requires IsRun(NewLoop(), run) && After(NewLoop(), run).calls == []
    ensures var s := After(NewLoop(), run);
            var t := Teardown(s);
            && multiset(t.destroyed) == multiset(s.queuedNormal) + multiset(s.queuedPriority)
            && (DistinctClones(s) ==> forall e :: e in t.destroyed <==> multiset(t.destroyed)[e] == 1)
  {
    hide IsRun, After;
    RunKeeps(NewLoop(), run);
    RunStacks(NewLoop(), run);
    var s := After(NewLoop(), run);
    assert s.inFlight == [];
    assert multiset(s.destroyed + s.normal + s.priority + s.active) ==
           multiset(s.destroyed) + multiset(s.normal) + multiset(s.priority) + multiset(s.active);
  }

  // ---------------------------------------------------------------- how long a priority event waits

  predicate Waiting(s: Loop, e: Event) {
    e in s.priority || (s.activeIsPriority && e in s.active)
  }

  /** Some running call has no limit. */
  predicate Unlimited(calls: seq<Call>) {
    exists i :: 0 <= i < |calls| && calls[i].max == 0
  }

  /** What is left of the limits of the running calls. */
  function Allowance(calls: seq<Call>): nat
    decreases |calls|
  {
    if calls == [] then 0
    else
      var c := calls[|calls| - 1];
      Allowance(calls[..|calls| - 1]) + (if c.count < c.max then c.max - c.count else 0)
  }

  /** How many normal events the running calls may still deliver before they look for priority events. */
  function Slack(s: Loop): nat {
    if s.calls == [] || s.active == [] || s.activeIsPriority then 0
    else if Unlimited(s.calls) || |s.active| < Allowance(s.calls) then |s.active|
    else Allowance(s.calls)
  }

  /** The event is queued before the run and delivered, if at all, after it. */
  predicate WaitsThrough(s: Loop, run: seq<Action>, e: Event)
    requires IsRun(s, run)
    decreases |run|
  {
    Waiting(s, e) && (run != [] ==> WaitsThrough(Act(s, run[0]), run[1..], e))
  }

  /**
   Bounded bypass: from any point a loop can reach, while a priority event waits, whatever is
   queued meanwhile, however the calls are cut or nested, and also if the loop is left and run
   again: the loop delivers at most as many normal events as were left of the active normal
   batch, at most what was left of the limits of the running calls, and none otherwise.
   */
  lemma BoundedBypass(before: seq<Action>, run: seq<Action>, e: Event)
    requires IsRun(NewLoop(), before) && IsRun(After(NewLoop(), before), run)
    requires WaitsThrough(After(NewLoop(), before), run, e)
    ensures var s := After(NewLoop(), before);
            var normal := |After(s, run).deliveredNormal| - |s.deliveredNormal|;
            && normal <= |s.active|
            && (s.activeIsPriority || s.calls == [] ==> normal <= 0)
            && (!Unlimited(s.calls) ==> normal <= Allowance(s.calls))
            && (|s.calls| == 1 && s.calls[0].max > 0 ==> normal <= s.calls[0].max)
  {
    var s := After(NewLoop(), before);
    RunStacks(NewLoop(), before);
    SlackAlong(s, run, e);
    if |s.calls| == 1 {
      assert s.calls[..0] == [];
    }
  }

  lemma AllowanceOfReturn(s: Loop)
    requires s.calls != []
    ensures Allowance(Return(s).calls) <= Allowance(s.calls)
    ensures Unlimited(Return(s).calls) ==> Unlimited(s.calls)
  {
  }

  lemma AllowanceOfTop(s: Loop, c: Call)
    requires s.calls != [] && c.max == Top(s).max
    ensures Unlimited(SetTop(s, c).calls) <==> Unlimited(s.calls)
    ensures c.count == Top(s).count ==> Allowance(SetTop(s, c).calls) == Allowance(s.calls)
    ensures c.count == Top(s).count + 1 && Top(s).count < c.max ==> Allowance(SetTop(s, c).calls) == Allowance(s.calls) - 1
  {
    var k := |s.calls| - 1;
    var calls := SetTop(s, c).calls;
    assert calls[..k] == s.calls[..k] && calls[k] == c;
    if Unlimited(s.calls) {
      var i :| 0 <= i < |s.calls| && s.calls[i].max == 0;
      assert calls[i].max == 0;
    }
    if Unlimited(calls) {
      var i :| 0 <= i < |calls| && calls[i].max == 0;
      assert s.calls[i].max == 0;
    }
  }

  /** A priority event that waits makes every new call start with a priority batch. */
  lemma EnterSlack(s: Loop, max: nat, e: Event)
    requires Waiting(s, e)
    ensures Slack(Bypass(s.(calls := s.calls + [Call(max, 0, AtHead)]))) == 0
  {
  }

  lemma DeliverSlack(s: Loop)
    requires Stacked(s) && Enabled(s, DoDeliver)
    ensures |Act(s, DoDeliver).deliveredNormal| + Slack(Act(s, DoDeliver)) <= |s.deliveredNormal| + Slack(s)
  {
    var c := Top(s).(pc := Handling, count := Top(s).count + 1);
    AllowanceOfTop(s, c);
    if Top(s).max == 0 {
      assert Unlimited(s.calls);
    }
    hide Allowance, Unlimited;
  }

  lemma ActSlack(s: Loop, a: Action, e: Event)
    requires Stacked(s) && Enabled(s, a) && Waiting(s, e)
    ensures |Act(s, a).deliveredNormal| + Slack(Act(s, a)) <= |s.deliveredNormal| + Slack(s)
  {
    hide Allowance, Unlimited;
    match a
    case DoQueue(_, _) =>
    case DoExit =>
    case DoClearExit =>
    case DoEnter(max) => EnterSlack(s, max, e);
    case DoTest =>
      AllowanceOfReturn(s);
      AllowanceOfTop(s, Top(s).(pc := Refilled));
    case DoChoose =>
      AllowanceOfReturn(s);
      AllowanceOfTop(s, Top(s).(pc := Chosen));
    case DoDeliver => DeliverSlack(s);
    case DoFinishHandler =>
      AllowanceOfReturn(s);
      AllowanceOfTop(s, Top(s).(pc := AtHead));
    case DoThrow => AllowanceOfReturn(s);
  }

  lemma {:induction false} SlackAlong(s: Loop, run: seq<Action>, e: Event)
    requires Stacked(s) && IsRun(s, run) && WaitsThrough(s, run, e)
    ensures |After(s, run).deliveredNormal| + Slack(After(s, run)) <= |s.deliveredNormal| + Slack(s)
    decreases |run|
  {
    hide Stacked, Act, Slack, Waiting;
    if run != [] {
      ActSlack(s, run[0], e);
      ActStacks(s, run[0]);
      SlackAlong(Act(s, run[0]), run[1..], e);
    }
  }

  /** A waiting event leaves the queues only by being delivered, as a priority event. */
  lemma WaitingEndsInDelivery(s: Loop, a: Action, e: Event)
    requires Enabled(s, a) && Waiting(s, e)
    ensures Waiting(Act(s, a), e) || (a == DoDeliver && Act(s, a).deliveredPriority == s.deliveredPriority + [e])
  {
    if a == DoDeliver && s.activeIsPriority && e in s.active {
      assert s.active == [s.active[0]] + s.active[1..];
    }
  }

  // ---------------------------------------------------------------- one call of processEvents

  /**
   What a handler does, or another thread while it runs.  An exception of a nested call goes on
   through the handler unless the handler guards the call.
   */
  datatype Deed =
    | Queues(e: Event, priority: bool)
    | Exits
    | Processes(max: nat, script: seq<Reaction>, guarded: bool)

  /** What happens while one event is being handled, and whether its handler throws in the end. */
  datatype Reaction = Reaction(deeds: seq<Deed>, throws: bool)

  datatype Reacted = Reacted(loop: Loop, threw: bool)

  /** How a call ends; `count` are the events it has delivered itself. */
  datatype Served = Served(loop: Loop, count: nat, threw: bool)

  function Pending(s: Loop): nat {
    |s.normal| + |s.priority| + |s.active|
  }

  function React(s: Loop, deeds: seq<Deed>): (r: Reacted)
    ensures r.loop.inFlight == s.inFlight
    decreases deeds, 0, 0
  {
    if deeds == [] then Reacted(s, false)
    else
      match deeds[0]
      case Queues(e, priority) => React(Queue(s, e, priority), deeds[1..])
      case Exits => React(s.(exit := true), deeds[1..])
      case Processes(max, script, guarded) =>
        var r := Process(s, max, script);
        if r.threw && !guarded then Reacted(r.loop, true) else React(r.loop, deeds[1..])
  }

  /** One event: delivered, reacted to, destroyed. */
  function Handle(s: Loop, script: seq<Reaction>): (r: Reacted)
    requires s.active != []
    ensures r.loop.inFlight == s.inFlight
    ensures script == [] ==> !r.threw && Pending(r.loop) < Pending(s)
    decreases script, Pending(s), 0
  {
    var d := Deliver(s);
    if script == [] then Reacted(Destroy(d), false)
    else
      var r := React(d, script[0].deeds);
      Reacted(Destroy(r.loop), r.threw || script[0].throws)
  }

  function Rest(script: seq<Reaction>): seq<Reaction> {
    if script == [] then [] else script[1..]
  }

  /** The rest of a call, for given reactions to the deliveries still to come. */
  function Serve(s: Loop, max: nat, count: nat, script: seq<Reaction>): (r: Served)
    ensures r.loop.inFlight == s.inFlight
    decreases script, Pending(s), 1
  {
    if s.exit then Served(s, count, false)
    else
      var s1 := Refill(s);
      if s1.active == [] then Served(s1, count, false)
      else
        var h := Handle(s1, script);
        if h.threw || (max != 0 && count + 1 >= max) then Served(h.loop, count + 1, h.threw)
        else Serve(h.loop, max, count + 1, Rest(script))
  }

  /** The whole call: an unfinished normal batch may be overtaken first. */
  function Process(s: Loop, max: nat, script: seq<Reaction>): (r: Served)
    ensures r.loop.inFlight == s.inFlight
    decreases script, Pending(s), 2
  {
    Serve(Bypass(s), max, 0, script)
  }

  function Delivered(s: Loop): nat {
    |s.deliveredNormal| + |s.deliveredPriority|
  }

  /** Why a call ends: exit was requested, it had to end, or nothing is pending. */
  predicate Settled(s: Loop, ended: bool) {
    s.exit || ended || (s.active == [] && s.normal == [] && s.priority == [])
  }

  predicate CallsNothing(deeds: seq<Deed>) {
    forall d :: d in deeds ==> !d.Processes?
  }

  /** No handler calls `processEvents` again. */
  predicate Flat(script: seq<Reaction>) {
    forall r :: r in script ==> CallsNothing(r.deeds)
  }

  /**
   What a call has achieved: order and conservation, at most `max` events delivered by itself,
   further ones only by calls from its handlers, and an end for one of the reasons or by an
   exception.
   */
  ghost predicate Kept(s: Loop, max: nat, count: nat, script: seq<Reaction>, r: Served) {
    && Valid(r.loop) && r.loop.inFlight == s.inFlight
    && r.count >= count && Delivered(r.loop) >= Delivered(s) + (r.count - count)
    && (Flat(script) ==> Delivered(r.loop) == Delivered(s) + (r.count - count))
    && (max != 0 ==> r.count <= max)
    && Settled(r.loop, r.threw || (max != 0 && r.count == max))
  }

  lemma {:induction false} ServeKeeps(s: Loop, max: nat, count: nat, script: seq<Reaction>)
    requires Valid(s) && (max != 0 ==> count < max)
    ensures Kept(s, max, count, script, Serve(s, max, count, script))
    decreases script, Pending(s), 1
  {
    hide Valid, Handle;
    RefillKeeps(s);
    RefillKeepsCount(s);
    var s1 := Refill(s);
    if !s.exit && s1.active != [] {
      HandleKeeps(s1, script);
      var h := Handle(s1, script);
      if !(h.threw || (max != 0 && count + 1 >= max)) {
        ServeKeeps(h.loop, max, count + 1, Rest(script));
      }
    }
  }

  lemma {:induction false} HandleKeeps(s: Loop, script: seq<Reaction>)
    requires Valid(s) && s.active != []
    ensures var r := Handle(s, script);
            && Valid(r.loop) && Delivered(r.loop) >= Delivered(s) + 1
            && (Flat(script) ==> Delivered(r.loop) == Delivered(s) + 1)
    decreases script, Pending(s), 0
  {
    hide Valid;
    var d := Deliver(s);
    DeliverKeeps(s);
    if script == [] {
      DestroyKeeps(d);
    } else {
      ReactKeeps(d, script[0].deeds);
      DestroyKeeps(React(d, script[0].deeds).loop);
    }
  }

  lemma {:induction false} ReactKeeps(s: Loop, deeds: seq<Deed>)
    requires Valid(s)
    ensures var r := React(s, deeds);
            && Valid(r.loop) && Delivered(r.loop) >= Delivered(s)
            && (CallsNothing(deeds) ==> Delivered(r.loop) == Delivered(s))
    decreases deeds, 0, 0
  {
    hide Valid;
    if deeds != [] {
      match deeds[0]
      case Queues(e, priority) =>
        QueueKeeps(s, e, priority);
        ReactKeeps(Queue(s, e, priority), deeds[1..]);
      case Exits =>
        ValidWithoutCalls(s, s.calls, true);
        ReactKeeps(s.(exit := true), deeds[1..]);
      case Processes(max, script, _) =>
        ProcessKeeps(s, max, script);
        ReactKeeps(Process(s, max, script).loop, deeds[1..]);
    }
  }

  lemma BypassMovesOnly(s: Loop)
    ensures var r := Bypass(s); Pending(r) == Pending(s) && Delivered(r) == Delivered(s) && r.inFlight == s.inFlight
  {
  }

  lemma {:induction false} ProcessKeeps(s: Loop, max: nat, script: seq<Reaction>)
    requires Valid(s)
    ensures Kept(s, max, 0, script, Process(s, max, script))
    decreases script, Pending(s), 2
  {
    BypassKeeps(s);
    BypassMovesOnly(s);
    hide Valid, Serve, Flat, Settled, Bypass, Pending, Delivered;
    ServeKeeps(Bypass(s), max, 0, script);
  }

  // ---------------------------------------------------------------- a call is a run

  lemma NoActions(s: Loop)
    ensures IsRun(s, []) && After(s, []) == s
  {
  }

  lemma Prepend(s: Loop, a: Action, run: seq<Action>)
    requires Enabled(s, a) && IsRun(Act(s, a), run)
    ensures IsRun(s, [a] + run) && After(s, [a] + run) == After(Act(s, a), run)
  {
    assert ([a] + run)[1..] == run;
  }

  lemma {:induction false} RunsConcat(s: Loop, r1: seq<Action>, r2: seq<Action>)
    requires IsRun(s, r1) && IsRun(After(s, r1), r2)
    ensures IsRun(s, r1 + r2) && After(s, r1 + r2) == After(After(s, r1), r2)
    decreases |r1|
  {
    hide Act, Enabled;
    if r1 == [] {
      assert r1 + r2 == r2;
    } else {
      RunsConcat(Act(s, r1[0]), r1[1..], r2);
      assert (r1 + r2)[1..] == r1[1..] + r2;
    }
  }

  /** The loop with these calls running. */
  function With(s: Loop, calls: seq<Call>): Loop {
    s.(calls := calls)
  }

  lemma WithTop(s: Loop, calls: seq<Call>, c: Call, c': Call)
    ensures var q := With(s, calls + [c]);
            Top(q) == c && SetTop(q, c') == With(s, calls + [c']) && Return(q) == With(s, calls)
  {
    assert (calls + [c])[..|calls|] == calls;
  }

  /** Testing, refilling and choosing, up to the decision to pop an event or to return. */
  lemma ChoosingIsRun(s: Loop, calls: seq<Call>, c: Call) returns (run: seq<Action>)
    requires c.pc == AtHead && !s.exit
    ensures IsRun(With(s, calls + [c]), run)
    ensures After(With(s, calls + [c]), run) ==
            var s1 := Refill(s); With(s1, if s1.active == [] then calls else calls + [c.(pc := Chosen)])
  {
    var s1, r, ch := Refill(s), c.(pc := Refilled), c.(pc := Chosen);
    WithTop(s, calls, c, r);
    WithTop(s1, calls, r, ch);
    var q, q1 := With(s, calls + [c]), With(s1, calls + [r]);
    assert Act(q, DoTest) == q1;
    var e := Act(q1, DoChoose);
    assert e == With(s1, if s1.active == [] then calls else calls + [ch]);
    hide IsRun, After, Act, Refill;
    NoActions(e);
    Prepend(q1, DoChoose, []);
    Prepend(q, DoTest, [DoChoose] + []);
    run := [DoTest] + ([DoChoose] + []);
  }

  /** One event, from the decision to pop it to the end of its handler. */
  lemma {:induction false} HandlingIsRun(s: Loop, calls: seq<Call>, c: Call, script: seq<Reaction>) returns (run: seq<Action>)
    requires c.pc == Chosen && s.active != []
    ensures IsRun(With(s, calls + [c]), run)
    ensures var h := Handle(s, script);
            After(With(s, calls + [c]), run) ==
            With(h.loop, if h.threw || (c.max != 0 && c.count + 1 >= c.max) then calls
                         else calls + [c.(pc := AtHead, count := c.count + 1)])
    decreases script, Pending(s), 0
  {
    var q, d, hc := With(s, calls + [c]), Deliver(s), c.(pc := Handling, count := c.count + 1);
    WithTop(s, calls, c, hc);
    var q1 := With(d, calls + [hc]);
    assert Enabled(q, DoDeliver) && Act(q, DoDeliver) == q1 && Free(q1);
    var throws := script != [] && (React(d, script[0].deeds).threw || script[0].throws);
    var h := if script == [] then d else React(d, script[0].deeds).loop;
    var last, e := LeavingHandler(h, calls, hc, throws);
    hide IsRun, After, Act, React, Deliver, Destroy, With, Free, Enabled;
    NoActions(q1);
    var r := [];
    if script != [] {
      r := ReactIsRun(d, calls + [hc], script[0].deeds);
    }
    NoActions(e);
    Prepend(With(h, calls + [hc]), last, []);
    RunsConcat(q1, r, [last] + []);
    Prepend(q, DoDeliver, r + ([last] + []));
    run := [DoDeliver] + (r + ([last] + []));
  }

  lemma LeavingHandler(h: Loop, calls: seq<Call>, hc: Call, throws: bool) returns (last: Action, e: Loop)
    requires h.inFlight != [] && hc.pc == Handling
    ensures Enabled(With(h, calls + [hc]), last) && e == Act(With(h, calls + [hc]), last)
    ensures e == With(Destroy(h), if throws || (hc.max != 0 && hc.count >= hc.max) then calls else calls + [hc.(pc := AtHead)])
  {
    WithTop(h, calls, hc, hc);
    WithTop(Destroy(h), calls, hc, hc.(pc := AtHead));
    last := if throws then DoThrow else DoFinishHandler;
    e := Act(With(h, calls + [hc]), last);
    assert Destroy(With(h, calls + [hc])) == With(Destroy(h), calls + [hc]);
  }

  lemma {:induction false} ReactIsRun(s: Loop, calls: seq<Call>, deeds: seq<Deed>) returns (run: seq<Action>)
    requires Free(With(s, calls))
    ensures IsRun(With(s, calls), run) && After(With(s, calls), run) == With(React(s, deeds).loop, calls)
    decreases deeds, 0, 0
  {
    var q := With(s, calls);
    hide IsRun, After, Process;
    if deeds == [] {
      NoActions(q);
      run := [];
    } else {
      match deeds[0]
      case Queues(e, priority) =>
        var rest := ReactIsRun(Queue(s, e, priority), calls, deeds[1..]);
        Prepend(q, DoQueue(e, priority), rest);
        run := [DoQueue(e, priority)] + rest;
      case Exits =>
        var rest := ReactIsRun(s.(exit := true), calls, deeds[1..]);
        Prepend(q, DoExit, rest);
        run := [DoExit] + rest;
      case Processes(max, script, guarded) =>
        run := CallIsRun(s, calls, max, script);
        var r := Process(s, max, script);
        if !(r.threw && !guarded) {
          var rest := ReactIsRun(r.loop, calls, deeds[1..]);
          RunsConcat(q, run, rest);
          run := run + rest;
        }
    }
  }

  lemma {:induction false} ServeIsRun(s: Loop, calls: seq<Call>, max: nat, count: nat, script: seq<Reaction>)
    returns (run: seq<Action>)
    ensures var q := With(s, calls + [Call(max, count, AtHead)]);
            IsRun(q, run) && After(q, run) == With(Serve(s, max, count, script).loop, calls)
    decreases script, Pending(s), 1
  {
    var c := Call(max, count, AtHead);
    var q := With(s, calls + [c]);
    hide IsRun, After, Act, Handle, Refill, With;
    if s.exit {
      run := ExitIsRun(s, calls, c);
    } else {
      run := ChoosingIsRun(s, calls, c);
      var s1 := Refill(s);
      RefillKeepsCount(s);
      if s1.active != [] {
        var r := HandlingIsRun(s1, calls, c.(pc := Chosen), script);
        RunsConcat(q, run, r);
        run := run + r;
        var h := Handle(s1, script);
        if !(h.threw || (max != 0 && count + 1 >= max)) {
          var more := ServeIsRun(h.loop, calls, max, count + 1, Rest(script));
          RunsConcat(q, run, more);
          run := run + more;
        }
      }
    }
  }

  lemma ExitIsRun(s: Loop, calls: seq<Call>, c: Call) returns (run: seq<Action>)
    requires s.exit && c.pc == AtHead
    ensures IsRun(With(s, calls + [c]), run) && After(With(s, calls + [c]), run) == With(s, calls)
  {
    WithTop(s, calls, c, c);
    assert Act(With(s, calls + [c]), DoTest) == With(s, calls);
    hide IsRun, After, Act;
    NoActions(With(s, calls));
    Prepend(With(s, calls + [c]), DoTest, []);
    run := [DoTest] + [];
  }

  lemma RefillKeepsCount(s: Loop)
    ensures Pending(Refill(s)) == Pending(s)
  {
  }

  lemma {:induction false} CallIsRun(s: Loop, calls: seq<Call>, max: nat, script: seq<Reaction>) returns (run: seq<Action>)
    requires Free(With(s, calls))
    ensures IsRun(With(s, calls), run) && After(With(s, calls), run) == With(Process(s, max, script).loop, calls)
    decreases script, Pending(s), 2
  {
    var c, q := Call(max, 0, AtHead), With(s, calls);
    assert Act(q, DoEnter(max)) == With(Bypass(s), calls + [c]);
    BypassMovesOnly(s);
    hide IsRun, After, Act, Serve, Bypass;
    var r := ServeIsRun(Bypass(s), calls, max, 0, script);
    Prepend(q, DoEnter(max), r);
    run := [DoEnter(max)] + r;
  }

  /** A whole call, made from outside or from a handler, is one of the runs, nested calls included. */
  lemma ProcessIsRun(s: Loop, max: nat, script: seq<Reaction>) returns (run: seq<Action>)
    requires Free(s)
    ensures IsRun(s, run) && After(s, run) == Process(s, max, script).loop.(calls := s.calls)
  {
    run := CallIsRun(s, s.calls, max, script);
    assert With(s, s.calls) == s;
  }

  // ---------------------------------------------------------------- the object

  /** Destroying the front of the first queue that is not empty leaves the rest to the same end. */
  lemma PopsTowardsEnd(s: Loop)
    ensures s.normal != [] ==> Teardown(s.(normal := s.normal[1..], destroyed := s.destroyed + [s.normal[0]])) == Teardown(s)
    ensures s.normal == [] && s.priority != [] ==>
              Teardown(s.(priority := s.priority[1..], destroyed := s.destroyed + [s.priority[0]])) == Teardown(s)
    ensures s.normal == s.priority == [] && s.active != [] ==>
              Teardown(s.(active := s.active[1..], destroyed := s.destroyed + [s.active[0]])) == Teardown(s)
    ensures s.normal == s.priority == s.active == [] ==> Teardown(s) == s
  {
  }

  /** The implementation's fields; what has left the queues is kept as ghost history. */
  class EventLoop {
    var exitLoop: bool
    var eventQueue: seq<Event>
    var priorityEventQueue: seq<Event>
    var activeEventQueue: seq<Event>
    var activeEventQueueIsPriority: bool
    var wakes: nat // wake bytes written
    ghost var history: Loop

    ghost function State(): Loop
      reads this
    {
      history.(exit := exitLoop, normal := eventQueue, priority := priorityEventQueue,
               active := activeEventQueue, activeIsPriority := activeEventQueueIsPriority)
    }

    constructor ()
      ensures State() == NewLoop() && Valid(State())
    {
      exitLoop, eventQueue, priorityEventQueue, activeEventQueue := false, [], [], [];
      activeEventQueueIsPriority := false;
      wakes := 0;
      history := NewLoop();
    }

    method OnQueueEvent(e: Event, priority: bool)
      modifies this
      ensures State() == Queue(old(State()), e, priority) && wakes == old(wakes)
    {
      if priority {
        priorityEventQueue := priorityEventQueue + [e];
        history := history.(queuedPriority := history.queuedPriority + [e]);
      } else {
        eventQueue := eventQueue + [e];
        history := history.(queuedNormal := history.queuedNormal + [e]);
      }
    }

    method OnWake()
      modifies this`wakes
      ensures wakes == old(wakes) + 1
    {
      wakes := wakes + 1;
    }

    method OnExit()
      modifies this`exitLoop, this`wakes
      ensures State() == old(State()).(exit := true) && wakes == old(wakes) + 1
    {
      exitLoop := true;
      OnWake();
    }

    method OnCommitEvent(e: Event, priority: bool)
      modifies this
      ensures State() == Queue(old(State()), e, priority) && wakes == old(wakes) + 1
    {
      OnQueueEvent(e, priority);
      OnWake();
    }

    /** `event.send`: the handler runs while other threads run too. */
    method Send(e: Event, reaction: Reaction) returns (threw: bool)
      modifies this
      ensures var r := React(old(State()), reaction.deeds); State() == r.loop && threw == (r.threw || reaction.throws)
      decreases reaction.deeds, 0
    {
      ghost var start := State();
      var i := 0;
      while i < |reaction.deeds|
        invariant 0 <= i <= |reaction.deeds|
        invariant React(State(), reaction.deeds[i..]) == React(start, reaction.deeds)
      {
        assert reaction.deeds[i..][1..] == reaction.deeds[i + 1..];
        match reaction.deeds[i] {
          case Queues(e, priority) => OnQueueEvent(e, priority);
          case Exits => OnExit();
          case Processes(max, script, guarded) =>
            threw := OnProcessEvents(max, script);
            if threw && !guarded {
              return;
            }
        }
        i := i + 1;
      }
      threw := reaction.throws;
    }

    method BypassActive()
      modifies this
      ensures State() == Bypass(old(State()))
    {
      if activeEventQueue != [] && !activeEventQueueIsPriority && priorityEventQueue != [] {
        if eventQueue == [] {
          eventQueue, activeEventQueue := activeEventQueue, [];
        } else {
          eventQueue := activeEventQueue + eventQueue;
          activeEventQueue := [];
        }
        priorityEventQueue, activeEventQueue := activeEventQueue, priorityEventQueue;
        activeEventQueueIsPriority := true;
        assert old(activeEventQueue) + [] == old(activeEventQueue);
      }
    }

    method RefillActive()
      modifies this
      ensures State() == Refill(old(State()))
    {
      if activeEventQueue == [] {
        if priorityEventQueue != [] {
          activeEventQueueIsPriority := true;
          activeEventQueue, priorityEventQueue := priorityEventQueue, activeEventQueue;
        } else if eventQueue != [] {
          activeEventQueueIsPriority := false;
          activeEventQueue, eventQueue := eventQueue, activeEventQueue;
        }
      }
    }

    /** Takes the front event, sends it, and destroys it when the handler returns or throws. */
    method SendFront(script: seq<Reaction>) returns (threw: bool)
      requires activeEventQueue != []
      modifies this
      ensures var r := Handle(old(State()), script); State() == r.loop && threw == r.threw
      decreases script, 0
    {
      var e := activeEventQueue[0];
      activeEventQueue := activeEventQueue[1..];
      history := Deliver(old(State()));
      threw := false;
      if script != [] {
        threw := Send(e, script[0]);
      }
      history := Destroy(State());
    }

    /** `script` says what happens during each delivery; nothing happens after its end. */
    method OnProcessEvents(max: nat, script: seq<Reaction>) returns (threw: bool)
      modifies this
      ensures var r := Process(old(State()), max, script); State() == r.loop && threw == r.threw
      ensures Valid(old(State())) ==> Kept(old(State()), max, 0, script, Process(old(State()), max, script))
      decreases script, 1
    {
      hide Handle, Valid, Bypass, Kept;
      ghost var start := State();
      if Valid(start) {
        ProcessKeeps(start, max, script);
      }
      BypassActive();
      threw := false;
      var count, rest := 0, script;
      ghost var k := 0;
      while !exitLoop
        invariant 0 <= k <= |script| && rest == script[k..] && !threw
        invariant Serve(State(), max, count, rest) == Process(start, max, script)
        decreases |rest|, |eventQueue| + |priorityEventQueue| + |activeEventQueue|
      {
        RefillActive();
        if exitLoop || activeEventQueue == [] {
          break;
        }
        threw := SendFront(rest);
        count := count + 1;
        if threw || (max != 0 && count >= max) {
          break;
        }
        k := if rest == [] then k else k + 1;
        rest := Rest(rest);
      }
    }

    /** The destructor of the implementation: three loops that pop and destroy. */
    method Dispose()
      modifies this
      ensures State() == Teardown(old(State()))
    {
      hide Teardown;
      ghost var start := State();
      while eventQueue != []
        invariant Teardown(State()) == Teardown(start)
        decreases |eventQueue|
      {
        PopsTowardsEnd(State());
        history := history.(destroyed := history.destroyed + [eventQueue[0]]);
        eventQueue := eventQueue[1..];
      }
      while priorityEventQueue != []
        invariant Teardown(State()) == Teardown(start) && eventQueue == []
        decreases |priorityEventQueue|
      {
        PopsTowardsEnd(State());
        history := history.(destroyed := history.destroyed + [priorityEventQueue[0]]);
        priorityEventQueue := priorityEventQueue[1..];
      }
      while activeEventQueue != []
        invariant Teardown(State()) == Teardown(start) && eventQueue == [] && priorityEventQueue == []
        decreases |activeEventQueue|
      {
        PopsTowardsEnd(State());
        history := history.(destroyed := history.destroyed + [activeEventQueue[0]]);
        activeEventQueue := activeEventQueue[1..];
      }
      PopsTowardsEnd(State());
    }
  }
}
