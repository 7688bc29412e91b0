/** Debounce timers of the watchers: schedule, Stop, callback and stopWatchTimers in any
  * interleaving, and the wait group that counts timers not yet done. */
module Watch {
  import opened Wrappers

  // A timer is armed until its callback starts or Stop prevents it; the callback takes
  // the lock once, then enqueues or not, then returns.
  datatype Phase = Armed | Fired | Current | Enqueuing | Returning | Done

  datatype Timer = Timer(libraryId: string, generation: nat, phase: Phase)

  // Where startProviderWatchers stands with the current generation: running, cancelled
  // with watchers still alive, watchers gone, timers stopped, and Wait returned.
  datatype Stage = Live | Cancelled | WatchersGone | TimersStopped | Quiet

  datatype State = State(
    timers: map<nat, Timer>, watchTimers: map<string, nat>, waitGroup: int,
    generation: nat, stage: Stage, enqueued: seq<nat>)

  datatype Action =
    | Schedule(libraryId: string, timer: nat)
    | Fire(timer: nat)
    | Callback(timer: nat)
    | CancelGeneration
    | WatchersEnd
    | StopTimers
    | WaitReturns
    | Restart

  function WithPhase(timers: map<nat, Timer>, x: nat, phase: Phase): map<nat, Timer>
    requires x in timers
  {
    timers[x := timers[x].(phase := phase)]
  }

  // timer.Stop() and, when it prevented the callback, done.Do(watchTimerWG.Done).
  function StopOne(s: State, x: nat): State {
    if x in s.timers && s.timers[x].phase.Armed?
    then s.(timers := WithPhase(s.timers, x, Done), waitGroup := s.waitGroup - 1)
    else s
  }

  // The locked body of scheduleLibraryRescan.
  function Scheduled(s: State, libraryId: string, x: nat): State {
    var t := if libraryId in s.watchTimers then StopOne(s, s.watchTimers[libraryId]) else s;
    t.(waitGroup := t.waitGroup + 1,
       timers := t.timers[x := Timer(libraryId, s.generation, Armed)],
       watchTimers := t.watchTimers[libraryId := x])
  }

  ghost function ArmedTimers(timers: map<nat, Timer>): set<nat> {
    set x | x in timers && timers[x].phase.Armed?
  }

  // The locked body of stopWatchTimers, when every armed timer is in the map.
  ghost function StoppedAll(s: State): State {
    s.(timers := map x | x in s.timers :: if s.timers[x].phase.Armed? then s.timers[x].(phase := Done) else s.timers[x],
       waitGroup := s.waitGroup - |ArmedTimers(s.timers)|,
       watchTimers := map[])
  }

  // ctx.Err() != nil for the context the callback captured.
  predicate ContextOver(s: State, t: Timer) {
    t.generation < s.generation || !s.stage.Live?
  }

  // The next statement of a running callback.
  function CallbackNext(s: State, x: nat): Option<State> {
    if x !in s.timers then None
    else
      var t := s.timers[x];
      match t.phase
      case Armed => None
      case Fired =>
        if t.libraryId !in s.watchTimers || s.watchTimers[t.libraryId] != x
        then Some(s.(timers := WithPhase(s.timers, x, Returning)))
        else Some(s.(timers := WithPhase(s.timers, x, Current), watchTimers := s.watchTimers - {t.libraryId}))
      case Current => Some(s.(timers := WithPhase(s.timers, x, if ContextOver(s, t) then Returning else Enqueuing)))
      case Enqueuing => Some(s.(timers := WithPhase(s.timers, x, Returning), enqueued := s.enqueued + [x]))
      case Returning => Some(s.(timers := WithPhase(s.timers, x, Done), waitGroup := s.waitGroup - 1))
      case Done => None
  }

  ghost function Next(s: State, a: Action): Option<State> {
    match a
    case Schedule(libraryId, x) =>
      // The context is looked at before the lock is taken, so it may be over by now; the
      // watchers that call it are still alive.
      if x !in s.timers && (s.stage.Live? || s.stage.Cancelled?) then Some(Scheduled(s, libraryId, x)) else None
    case Fire(x) =>
      if x in s.timers && s.timers[x].phase.Armed? then Some(s.(timers := WithPhase(s.timers, x, Fired))) else None
    case Callback(x) => CallbackNext(s, x)
    case CancelGeneration => if s.stage.Live? then Some(s.(stage := Cancelled)) else None
    case WatchersEnd => if s.stage.Cancelled? then Some(s.(stage := WatchersGone)) else None
    case StopTimers => if s.stage.WatchersGone? then Some(StoppedAll(s).(stage := TimersStopped)) else None
    case WaitReturns => if s.stage.TimersStopped? && s.waitGroup == 0 then Some(s.(stage := Quiet)) else None
    case Restart => if s.stage.Quiet? then Some(s.(stage := Live, generation := s.generation + 1)) else None
  }

  // ---- The invariant ----

  ghost function Unfinished(timers: map<nat, Timer>): set<nat> {
    set x | x in timers && !timers[x].phase.Done?
  }

  // The map holds exactly the timers whose callback has not taken the lock, less the
  // superseded ones, which are no longer armed.
  ghost predicate MapAgrees(timers: map<nat, Timer>, watchTimers: map<string, nat>) {
    && (forall l :: l in watchTimers ==>
          && watchTimers[l] in timers
          && timers[watchTimers[l]].libraryId == l
          && (timers[watchTimers[l]].phase.Armed? || timers[watchTimers[l]].phase.Fired?))
    && (forall x :: x in timers && timers[x].phase.Armed? ==>
          timers[x].libraryId in watchTimers && watchTimers[timers[x].libraryId] == x)
  }

  ghost predicate Inv(s: State) {
    && MapAgrees(s.timers, s.watchTimers)
    && s.waitGroup == |Unfinished(s.timers)|
    && (s.stage.TimersStopped? || s.stage.Quiet? ==> s.watchTimers == map[])
    && (s.stage.Quiet? ==> Unfinished(s.timers) == {})
  }

  function Initial(): State {
    State(map[], map[], 0, 0, Live, [])
  }

  lemma InitialInv()
    ensures Inv(Initial())
  {
    assert Unfinished(map[]) == {};
  }

  lemma FinishingOne(timers: map<nat, Timer>, x: nat, phase: Phase)
    requires x in timers && !timers[x].phase.Done?
    ensures Unfinished(WithPhase(timers, x, phase)) == if phase.Done? then Unfinished(timers) - {x} else Unfinished(timers)
    ensures x in Unfinished(timers)
  {
  }

  lemma AddingOne(timers: map<nat, Timer>, x: nat, t: Timer)
    requires x !in timers && !t.phase.Done?
    ensures Unfinished(timers[x := t]) == Unfinished(timers) + {x}
    ensures x !in Unfinished(timers)
  {
  }

  lemma ScheduleCounts(s: State, libraryId: string, x: nat)
    requires s.waitGroup == |Unfinished(s.timers)| && x !in s.timers
    requires libraryId in s.watchTimers ==> s.watchTimers[libraryId] in s.timers
    ensures var t := Scheduled(s, libraryId, x); t.waitGroup == |Unfinished(t.timers)|
  {
    var t := if libraryId in s.watchTimers then StopOne(s, s.watchTimers[libraryId]) else s;
    if libraryId in s.watchTimers && s.timers[s.watchTimers[libraryId]].phase.Armed? {
      FinishingOne(s.timers, s.watchTimers[libraryId], Done);
    }
    hide Unfinished;
    AddingOne(t.timers, x, Timer(libraryId, s.generation, Armed));
  }

  lemma ScheduleAgrees(s: State, libraryId: string, x: nat)
    requires MapAgrees(s.timers, s.watchTimers) && x !in s.timers
    ensures var t := Scheduled(s, libraryId, x); MapAgrees(t.timers, t.watchTimers)
  {
  }

  lemma ScheduleKeepsInv(s: State, libraryId: string, x: nat)
    requires Inv(s) && Next(s, Schedule(libraryId, x)).Some?
    ensures Inv(Scheduled(s, libraryId, x))
  {
    ScheduleCounts(s, libraryId, x);
    ScheduleAgrees(s, libraryId, x);
    hide Unfinished, MapAgrees;
  }

  lemma CallbackCounts(s: State, x: nat)
    requires s.waitGroup == |Unfinished(s.timers)| && CallbackNext(s, x).Some?
    ensures var t := CallbackNext(s, x).value; t.waitGroup == |Unfinished(t.timers)|
  {
    FinishingOne(s.timers, x, CallbackNext(s, x).value.timers[x].phase);
    hide Unfinished;
  }

  lemma CallbackKeepsInv(s: State, x: nat)
    requires Inv(s) && CallbackNext(s, x).Some?
    ensures Inv(CallbackNext(s, x).value)
  {
    CallbackCounts(s, x);
    assert x in Unfinished(s.timers);
    hide Unfinished;
  }

  lemma StopKeepsInv(s: State)
    requires Inv(s)
    ensures var t := StoppedAll(s); MapAgrees(t.timers, t.watchTimers) && t.waitGroup == |Unfinished(t.timers)|
  {
    var t := StoppedAll(s);
    assert ArmedTimers(s.timers) <= Unfinished(s.timers);
    assert Unfinished(t.timers) == Unfinished(s.timers) - ArmedTimers(s.timers);
  }

  lemma StepKeepsInv(s: State, a: Action)
    requires Inv(s) && Next(s, a).Some?
    ensures Inv(Next(s, a).value)
  {
    match a
    case Schedule(libraryId, x) => ScheduleKeepsInv(s, libraryId, x);
    case Fire(x) =>
      FinishingOne(s.timers, x, Fired);
      hide Unfinished;
    case Callback(x) => CallbackKeepsInv(s, x);
    case StopTimers => StopKeepsInv(s);
    case WaitReturns =>
      assert Unfinished(s.timers) == {};
    case _ =>
  }

  // ---- Whole runs ----

  ghost predicate Run(states: seq<State>, actions: seq<Action>) {
    && |states| == |actions| + 1
    && states[0] == Initial()
    && forall i :: 0 <= i < |actions| ==> Next(states[i], actions[i]) == Some(states[i + 1])
  }

  lemma {:induction false} RunKeepsInv(states: seq<State>, actions: seq<Action>, i: nat)
    requires Run(states, actions) && i < |states|
    ensures Inv(states[i])
  {
    hide Inv, Next;
    if i == 0 {
      InitialInv();
    } else {
      var k := i - 1;
      assert Next(states[k], actions[k]) == Some(states[k + 1]);
      RunKeepsInv(states, actions, k);
      StepKeepsInv(states[k], actions[k]);
    }
  }

  // The wait group counts the timers not yet done: it is never negative, and Wait
  // returns only when there are none.
  lemma WaitGroupCounts(states: seq<State>, actions: seq<Action>, i: nat)
    requires Run(states, actions) && i < |states|
    ensures states[i].waitGroup == |Unfinished(states[i].timers)| >= 0
  {
    RunKeepsInv(states, actions, i);
  }

  // Once stopWatchTimers has returned, no timer of any generation is armed and no
  // callback is in flight.
  lemma NoCallbackAfterStop(states: seq<State>, actions: seq<Action>, i: nat, x: nat)
    requires Run(states, actions) && i < |states| && states[i].stage.Quiet?
    requires x in states[i].timers
    ensures states[i].timers[x].phase.Done?
  {
    RunKeepsInv(states, actions, i);
    assert x !in Unfinished(states[i].timers);
  }

  // A timer that can no longer enqueue: over, or displaced before its callback took the lock.
  ghost predicate Silenced(s: State, x: nat) {
    && x in s.timers
    && match s.timers[x].phase {
         case Returning => true
         case Done => true
         case Fired => s.timers[x].libraryId !in s.watchTimers || s.watchTimers[s.timers[x].libraryId] != x
         case _ => false
       }
  }

  lemma SilencedStays(s: State, a: Action, x: nat)
    requires Inv(s) && Silenced(s, x) && Next(s, a).Some?
    ensures Silenced(Next(s, a).value, x)
    ensures Next(s, a).value.enqueued == s.enqueued || (a.Callback? && a.timer != x)
  {
    hide Unfinished, ArmedTimers;
  }

  // Scheduling again for a library silences the timer that was waiting for it.
  lemma RescheduleSilences(s: State, libraryId: string, x: nat)
    requires Inv(s) && Next(s, Schedule(libraryId, x)).Some? && libraryId in s.watchTimers
    ensures Silenced(Next(s, Schedule(libraryId, x)).value, s.watchTimers[libraryId])
  {
    hide Unfinished;
  }

  ghost function Enqueues(s: State, x: nat): nat {
    multiset(s.enqueued)[x]
  }

  lemma {:induction false} SilencedNeverEnqueues(states: seq<State>, actions: seq<Action>, i: nat, j: nat, x: nat)
    requires Run(states, actions) && i <= j < |states| && Silenced(states[i], x)
    ensures Silenced(states[j], x) && Enqueues(states[j], x) == Enqueues(states[i], x)
    decreases j
  {
    hide Inv, Silenced;
    if i < j {
      var k := j - 1;
      assert Next(states[k], actions[k]) == Some(states[k + 1]);
      RunKeepsInv(states, actions, k);
      SilencedNeverEnqueues(states, actions, i, k, x);
      SilencedStays(states[k], actions[k], x);
      assert states[j].enqueued == states[k].enqueued
             || exists y :: y != x && states[j].enqueued == states[k].enqueued + [y];
    }
  }

  // A superseded timer never enqueues: whatever happens after the rescheduling step, the
  // timer it replaced enqueues nothing more.
  lemma SupersededNeverEnqueues(states: seq<State>, actions: seq<Action>, i: nat, j: nat)
    requires Run(states, actions) && i < j < |states|
    requires actions[i].Schedule? && actions[i].libraryId in states[i].watchTimers
    ensures var x := states[i].watchTimers[actions[i].libraryId];
            Enqueues(states[j], x) == Enqueues(states[i], x)
  {
    var x := states[i].watchTimers[actions[i].libraryId];
    RunKeepsInv(states, actions, i);
    assert Next(states[i], actions[i]) == Some(states[i + 1]);
    RescheduleSilences(states[i], actions[i].libraryId, actions[i].timer);
    assert states[i + 1].enqueued == states[i].enqueued;
    hide Inv, Next, Silenced;
    SilencedNeverEnqueues(states, actions, i + 1, j, x);
  }

  // A timer whose context is over: its generation has been cancelled or replaced. It may
  // still be past the check of its context.
  ghost predicate Over(s: State, x: nat) {
    && x in s.timers && !s.timers[x].phase.Enqueuing?
    && s.timers[x].generation <= s.generation && (s.timers[x].generation < s.generation || !s.stage.Live?)
  }

  lemma OverStays(s: State, a: Action, x: nat)
    requires Inv(s) && Over(s, x) && Next(s, a).Some?
    ensures Over(Next(s, a).value, x)
    ensures Next(s, a).value.enqueued == s.enqueued || (a.Callback? && a.timer != x)
  {
    hide Unfinished, ArmedTimers;
  }

  // Once its context is over, a callback that has not begun to enqueue never does.
  lemma {:induction false} OverNeverEnqueues(states: seq<State>, actions: seq<Action>, i: nat, j: nat, x: nat)
    requires Run(states, actions) && i <= j < |states| && Over(states[i], x)
    ensures Over(states[j], x) && Enqueues(states[j], x) == Enqueues(states[i], x)
    decreases j
  {
    hide Inv, Over;
    if i < j {
      var k := j - 1;
      assert Next(states[k], actions[k]) == Some(states[k + 1]);
      RunKeepsInv(states, actions, k);
      OverNeverEnqueues(states, actions, i, k, x);
      OverStays(states[k], actions[k], x);
      assert states[j].enqueued == states[k].enqueued
             || exists y :: y != x && states[j].enqueued == states[k].enqueued + [y];
    }
  }

  lemma {:induction false} TimersAreOfThePast(states: seq<State>, actions: seq<Action>, i: nat, x: nat)
    requires Run(states, actions) && i < |states| && x in states[i].timers
    ensures states[i].timers[x].generation <= states[i].generation
  {
    if i > 0 {
      var k := i - 1;
      assert Next(states[k], actions[k]) == Some(states[k + 1]);
      if x in states[k].timers {
        TimersAreOfThePast(states, actions, k, x);
      }
      hide Unfinished, ArmedTimers;
    }
  }

  // From the cancellation of a generation on, none of its timers enqueues, but for those
  // already past the check of their context.
  lemma CancelledNeverEnqueues(states: seq<State>, actions: seq<Action>, i: nat, j: nat, x: nat)
    requires Run(states, actions) && i < j < |states| && actions[i].CancelGeneration?
    requires x in states[i].timers && !states[i].timers[x].phase.Enqueuing?
    ensures Enqueues(states[j], x) == Enqueues(states[i], x)
  {
    assert Next(states[i], actions[i]) == Some(states[i + 1]);
    TimersAreOfThePast(states, actions, i, x);
    assert Over(states[i + 1], x) && states[i + 1].enqueued == states[i].enqueued;
    hide Inv, Next, Over;
    OverNeverEnqueues(states, actions, i + 1, j, x);
  }

  // A timer that still owes its library a scan, or has delivered it.
  ghost predicate Promised(s: State, x: nat) {
    && x in s.timers
    && s.timers[x].generation == s.generation
    && match s.timers[x].phase {
         case Armed => true
         case Fired => s.timers[x].libraryId in s.watchTimers && s.watchTimers[s.timers[x].libraryId] == x
         case Current => true
         case Enqueuing => true
         case _ => x in s.enqueued
       }
  }

  ghost predicate StillLive(s: State, generation: nat) {
    s.stage.Live? && s.generation == generation
  }

  lemma PromiseStays(s: State, a: Action, x: nat)
    requires Inv(s) && Promised(s, x) && Next(s, a).Some?
    requires StillLive(s, s.generation) && StillLive(Next(s, a).value, s.generation)
    requires !(a.Schedule? && a.libraryId == s.timers[x].libraryId)
    ensures Promised(Next(s, a).value, x)
    ensures Next(s, a).value.timers[x].libraryId == s.timers[x].libraryId
  {
    hide Unfinished, ArmedTimers;
  }

  // The last change of a burst is not lost: while the generation lives and nothing is
  // scheduled again for the library, its timer is pending, running or has enqueued.
  lemma {:induction false} LastScheduleIsKept(states: seq<State>, actions: seq<Action>, i: nat, j: nat)
    requires Run(states, actions) && i < j < |states| && actions[i].Schedule?
    requires forall k :: i <= k <= j ==> StillLive(states[k], states[i].generation)
    requires forall k :: i < k < j ==> !(actions[k].Schedule? && actions[k].libraryId == actions[i].libraryId)
    ensures Promised(states[j], actions[i].timer)
    ensures states[j].timers[actions[i].timer].libraryId == actions[i].libraryId
  {
    var k := j - 1;
    assert Next(states[k], actions[k]) == Some(states[k + 1]);
    assert StillLive(states[k], states[i].generation) && StillLive(states[j], states[i].generation);
    if i < k {
      hide Inv, Next, Promised;
      LastScheduleIsKept(states, actions, i, k);
      RunKeepsInv(states, actions, k);
      PromiseStays(states[k], actions[k], actions[i].timer);
    }
  }

  ghost predicate AtMostOnce(s: State, x: nat) {
    Enqueues(s, x) <= if x in s.timers && (s.timers[x].phase.Returning? || s.timers[x].phase.Done?) then 1 else 0
  }

  lemma AtMostOnceStays(s: State, a: Action, x: nat)
    requires AtMostOnce(s, x) && Next(s, a).Some?
    ensures AtMostOnce(Next(s, a).value, x)
  {
    hide ArmedTimers;
    if a.Callback? {
      assert multiset(s.enqueued + [a.timer])[x] == multiset(s.enqueued)[x] + multiset([a.timer])[x];
    }
  }

  // One scan request per timer, whatever Stop and the callback race to.
  lemma {:induction false} TimerEnqueuesAtMostOnce(states: seq<State>, actions: seq<Action>, i: nat, x: nat)
    requires Run(states, actions) && i < |states|
    ensures AtMostOnce(states[i], x)
  {
    if i > 0 {
      var k := i - 1;
      assert Next(states[k], actions[k]) == Some(states[k + 1]);
      hide Next, AtMostOnce;
      TimerEnqueuesAtMostOnce(states, actions, k, x);
      AtMostOnceStays(states[k], actions[k], x);
    }
  }

  // Where a change leads that nothing disturbs: its timer fires and enqueues a scan.
  lemma ChangeRun(libraryId: string) returns (states: seq<State>, actions: seq<Action>)
    ensures |states| == 7 && |actions| == 6 && states[0] == Initial()
    ensures forall i :: 0 <= i < 6 ==> Next(states[i], actions[i]) == Some(states[i + 1])
    ensures states[6] == State(map[0 := Timer(libraryId, 0, Done)], map[], 0, 0, Live, [0])
    ensures actions[0] == Schedule(libraryId, 0)
  {
    actions := [Schedule(libraryId, 0), Fire(0), Callback(0), Callback(0), Callback(0), Callback(0)];
    var s1 := Scheduled(Initial(), libraryId, 0);
    var s2 := s1.(timers := WithPhase(s1.timers, 0, Fired));
    var s3 := CallbackNext(s2, 0).value;
    var s4 := CallbackNext(s3, 0).value;
    var s5 := CallbackNext(s4, 0).value;
    var s6 := CallbackNext(s5, 0).value;
    assert s6.watchTimers == map[] && s6.timers == map[0 := Timer(libraryId, 0, Done)];
    states := [Initial(), s1, s2, s3, s4, s5, s6];
  }

  // From there the watchers restart.
  lemma RestartRun(s: State) returns (states: seq<State>, actions: seq<Action>)
    requires s.stage.Live? && s.waitGroup == 0 && ArmedTimers(s.timers) == {} && s.watchTimers == map[]
    ensures |states| == 6 && states[0] == s
    ensures actions == [CancelGeneration, WatchersEnd, StopTimers, WaitReturns, Restart]
    ensures forall i :: 0 <= i < 5 ==> Next(states[i], actions[i]) == Some(states[i + 1])
    ensures states[5] == s.(generation := s.generation + 1)
  {
    actions := [CancelGeneration, WatchersEnd, StopTimers, WaitReturns, Restart];
    var gone := s.(stage := WatchersGone);
    assert forall x :: x in s.timers && s.timers[x].phase.Armed? ==> x in ArmedTimers(s.timers);
    assert StoppedAll(gone).timers == gone.timers;
    hide StoppedAll;
    states := [s, s.(stage := Cancelled), gone, s.(stage := TimersStopped), s.(stage := Quiet),
               s.(generation := s.generation + 1)];
  }

  // ---- The object ----

  ghost function ArmedFor(timers: map<nat, Timer>, libraries: set<string>): set<nat> {
    set x | x in timers && timers[x].phase.Armed? && timers[x].libraryId in libraries
  }

  ghost function StoppedFor(timers: map<nat, Timer>, libraries: set<string>): map<nat, Timer> {
    map x | x in timers :: if x in ArmedFor(timers, libraries) then timers[x].(phase := Done) else timers[x]
  }

  lemma StopNone(timers: map<nat, Timer>)
    ensures ArmedFor(timers, {}) == {} && StoppedFor(timers, {}) == timers
  {
  }

  lemma StopNext(timers: map<nat, Timer>, watchTimers: map<string, nat>, libraries: set<string>, l: string)
    requires MapAgrees(timers, watchTimers) && l in watchTimers && l !in libraries
    ensures var x := watchTimers[l];
            var before := StoppedFor(timers, libraries);
            && x in before && before[x] == timers[x]
            && StoppedFor(timers, libraries + {l}) == (if timers[x].phase.Armed? then WithPhase(before, x, Done) else before)
            && |ArmedFor(timers, libraries + {l})| == |ArmedFor(timers, libraries)| + if timers[x].phase.Armed? then 1 else 0
  {
    var x := watchTimers[l];
    assert ArmedFor(timers, libraries + {l}) == ArmedFor(timers, libraries) + if timers[x].phase.Armed? then {x} else {};
    assert x !in ArmedFor(timers, libraries);
  }

  lemma StoppedForEvery(s: State)
    requires MapAgrees(s.timers, s.watchTimers)
    ensures ArmedFor(s.timers, s.watchTimers.Keys) == ArmedTimers(s.timers)
    ensures StoppedFor(s.timers, s.watchTimers.Keys) == StoppedAll(s).timers
  {
  }

  class Timers {
    var timers: map<nat, Timer>
    var watchTimers: map<string, nat>
    var waitGroup: int
    var generation: nat
    var stage: Stage
    var enqueued: seq<nat>

    ghost function Snapshot(): State
      reads this
    {
      State(timers, watchTimers, waitGroup, generation, stage, enqueued)
    }

    constructor ()
      ensures Snapshot() == Initial()
    {
      timers, watchTimers, waitGroup, generation, stage, enqueued := map[], map[], 0, 0, Live, [];
    }

    // timer.Stop(), reporting whether the callback was prevented.
    method StopTimer(x: nat) returns (prevented: bool)
      modifies this`timers
      ensures prevented <==> x in old(timers) && old(timers)[x].phase.Armed?
      ensures timers == if prevented then WithPhase(old(timers), x, Done) else old(timers)
    {
      prevented := x in timers && timers[x].phase.Armed?;
      if prevented {
        timers := timers[x := timers[x].(phase := Done)];
      }
    }

    // cancelled is what ctx.Err() said before the lock was taken.
    method ScheduleLibraryRescan(libraryId: string, x: nat, cancelled: bool)
      requires x !in timers && (stage.Live? || stage.Cancelled?)
      modifies this
      ensures if cancelled then Snapshot() == old(Snapshot())
              else Next(old(Snapshot()), Schedule(libraryId, x)) == Some(Snapshot())
    {
      if cancelled {
        return;
      }
      if libraryId in watchTimers {
        var prevented := StopTimer(watchTimers[libraryId]);
        if prevented {
          waitGroup := waitGroup - 1;
        }
      }
      waitGroup := waitGroup + 1;
      timers := timers[x := Timer(libraryId, generation, Armed)];
      watchTimers := watchTimers[libraryId := x];
    }

    // The next statement of the function given to AfterFunc.
    method StepCallback(x: nat)
      requires CallbackNext(Snapshot(), x).Some?
      modifies this
      ensures CallbackNext(old(Snapshot()), x) == Some(Snapshot())
    {
      var t := timers[x];
      match t.phase
      case Fired =>
        if t.libraryId !in watchTimers || watchTimers[t.libraryId] != x {
          timers := timers[x := t.(phase := Returning)];
        } else {
          watchTimers := watchTimers - {t.libraryId};
          timers := timers[x := t.(phase := Current)];
        }
      case Current =>
        var over := t.generation < generation || !stage.Live?;
        timers := timers[x := t.(phase := if over then Returning else Enqueuing)];
      case Enqueuing =>
        enqueued := enqueued + [x];
        timers := timers[x := t.(phase := Returning)];
      case Returning =>
        waitGroup := waitGroup - 1;
        timers := timers[x := t.(phase := Done)];
    }

    // The loop of stopWatchTimers over the map.
    method StopEvery()
      requires MapAgrees(timers, watchTimers)
      modifies this`timers, this`waitGroup
      ensures timers == StoppedFor(old(timers), watchTimers.Keys)
      ensures waitGroup == old(waitGroup) - |ArmedFor(old(timers), watchTimers.Keys)|
    {
      hide *;
      ghost var was := timers;
      ghost var done: set<string> := {};
      var rest := watchTimers.Keys;
      StopNone(was);
      while rest != {}
        invariant done !! rest && done + rest == watchTimers.Keys
        invariant timers == StoppedFor(was, done)
        invariant waitGroup == old(waitGroup) - |ArmedFor(was, done)|
        decreases |rest|
      {
        var l :| l in rest;
        StopNext(was, watchTimers, done, l);
        var prevented := StopTimer(watchTimers[l]);
        if prevented {
          waitGroup := waitGroup - 1;
        }
        rest, done := rest - {l}, done + {l};
      }
      assert done == watchTimers.Keys;
    }

    // The locked part of stopWatchTimers, up to the Wait.
    method StopWatchTimers()
      requires Inv(Snapshot()) && stage.WatchersGone?
      modifies this
      ensures Next(old(Snapshot()), StopTimers) == Some(Snapshot())
    {
      ghost var was := Snapshot();
      StopEvery();
      StoppedForEvery(was);
      watchTimers := map[];
      stage := TimersStopped;
    }
  }
}
