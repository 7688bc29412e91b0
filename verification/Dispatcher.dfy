/** The dispatcher: one drain loop that launches queued scans under two slots and a lock
  * per provider, and the scans that finish beside it.
  *
  * Next is one step of any of the goroutines. The invariant holds in every interleaving,
  * with the queue changing arbitrarily in between. */
module Dispatcher {
  import opened Wrappers
  import opened ScanQueue

  const MAX_CONCURRENT_SCANS: nat := 2

  // A finishing scan unlocks its provider, returns its slot, leaves the wait group and
  // sends a wake-up, in that order.
  datatype Phase = Scanning | Unlocked | SlotReturned | Leaving

  datatype Scan = Scan(provider: string, phase: Phase)

  // Where the drain goroutine stands.
  datatype Pc =
    | Waiting
    | TakeSlot
    | TakeSnapshot
    | Query(excluded: set<string>)
    | Lock(id: nat, provider: string, excluded: set<string>)
    | Validate(id: nat, provider: string)
    | Discarding(id: nat, provider: string)
    | Starting(id: nat, provider: string)
    | Abandon(provider: string, again: bool)
    | ReturnSlot(again: bool)

  // Why the last drain stopped.
  datatype Stop = Draining | SlotsFull | NothingDue(queue: Table, now: nat, excluded: set<string>) | Failed

  datatype State = State(
    pc: Pc, slots: nat, active: set<string>, scans: map<nat, Scan>, running: nat, wake: bool,
    queue: Table, stop: Stop)

  // What DeleteAndCreateTask did: all of it, nothing, or everything but reading the task back.
  datatype StartOutcome = Started | DequeueFailed | TaskNotRead

  // The steps of the loop around prepareQueuedScan, with what clock and database answer.
  datatype LoopStep =
    | ReceiveWake
    | ReceiveTick
    | AcquireSlot
    | SnapshotActive
    | QueryDue(now: nat, found: Option<nat>)
    | QueryError
    | ReleaseDrainSlot

  // The steps of prepareQueuedScan and of launching what it returns.
  datatype PrepareStep =
    | TryLock
    | TargetValidated(valid: bool)
    | DeleteInvalid(failed: bool)
    | StartScan(scanId: nat, outcome: StartOutcome)
    | UnlockAbandoned

  datatype Action =
    | Loop(loop: LoopStep)
    | Prepare(prepare: PrepareStep)
    | ScanFinishes(scanId: nat)
    | QueueChanges(queue: Table)

  // startScanQueueWorker and drainScanQueue; None when the step is not enabled.
  ghost function LoopNext(s: State, step: LoopStep): Option<State> {
    match step
    case ReceiveWake =>
      if s.pc.Waiting? && s.wake then Some(s.(pc := TakeSlot, wake := false, stop := Draining)) else None
    case ReceiveTick =>
      if s.pc.Waiting? then Some(s.(pc := TakeSlot, stop := Draining)) else None
    case AcquireSlot =>
      if !s.pc.TakeSlot? then None
      else if s.slots < MAX_CONCURRENT_SCANS then Some(s.(pc := TakeSnapshot, slots := s.slots + 1))
      else Some(s.(pc := Waiting, stop := SlotsFull))
    case SnapshotActive =>
      if s.pc.TakeSnapshot? then Some(s.(pc := Query(s.active))) else None
    case QueryDue(now, found) =>
      if !s.pc.Query? || !FirstDue(s.queue, now, s.pc.excluded, found) then None
      else if found.None? then Some(s.(pc := ReturnSlot(false), stop := NothingDue(s.queue, now, s.pc.excluded)))
      else Some(s.(pc := Lock(found.value, s.queue[found.value].group.providerId, s.pc.excluded)))
    case QueryError =>
      if s.pc.Query? then Some(s.(pc := ReturnSlot(false), stop := Failed)) else None
    case ReleaseDrainSlot =>
      if s.pc.ReturnSlot? && s.slots > 0
      then Some(s.(pc := if s.pc.again then TakeSlot else Waiting, slots := s.slots - 1)) else None
  }

  ghost function PrepareNext(s: State, step: PrepareStep): Option<State> {
    match step
    case TryLock =>
      if !s.pc.Lock? then None
      else if s.pc.provider in s.active then Some(s.(pc := ReturnSlot(true)))
      else Some(s.(pc := Validate(s.pc.id, s.pc.provider), active := s.active + {s.pc.provider}))
    case TargetValidated(valid) =>
      if !s.pc.Validate? then None
      else Some(s.(pc := if valid then Starting(s.pc.id, s.pc.provider) else Discarding(s.pc.id, s.pc.provider)))
    case DeleteInvalid(failed) =>
      if !s.pc.Discarding? then None
      else if failed || s.pc.id !in s.queue then Some(s.(pc := Abandon(s.pc.provider, false), stop := Failed))
      else Some(s.(pc := Abandon(s.pc.provider, true), queue := s.queue - {s.pc.id}))
    case StartScan(scanId, outcome) =>
      if !s.pc.Starting? || scanId in s.scans then None
      else if outcome.DequeueFailed? || s.pc.id !in s.queue then
        Some(s.(pc := Abandon(s.pc.provider, false), stop := Failed))
      else if outcome.TaskNotRead? then
        Some(s.(pc := Abandon(s.pc.provider, false), stop := Failed, queue := s.queue - {s.pc.id}))
      else
        Some(s.(pc := TakeSlot, queue := s.queue - {s.pc.id}, running := s.running + 1,
                scans := s.scans[scanId := Scan(s.pc.provider, Scanning)]))
    case UnlockAbandoned =>
      if s.pc.Abandon? then Some(s.(pc := ReturnSlot(s.pc.again), active := s.active - {s.pc.provider})) else None
  }

  // The next deferred call of a finishing scan; receiving from an empty slot channel
  // would block.
  function ScanNext(s: State, id: nat): Option<State> {
    if id !in s.scans then None
    else
      var scan := s.scans[id];
      match scan.phase
      case Scanning => Some(s.(scans := s.scans[id := scan.(phase := Unlocked)], active := s.active - {scan.provider}))
      case Unlocked =>
        if s.slots == 0 then None
        else Some(s.(scans := s.scans[id := scan.(phase := SlotReturned)], slots := s.slots - 1))
      case SlotReturned =>
        if s.running == 0 then None
        else Some(s.(scans := s.scans[id := scan.(phase := Leaving)], running := s.running - 1))
      case Leaving => Some(s.(scans := s.scans - {id}, wake := true))
  }

  ghost function Next(s: State, a: Action): Option<State> {
    match a
    case Loop(step) => LoopNext(s, step)
    case Prepare(step) => PrepareNext(s, step)
    case ScanFinishes(id) => ScanNext(s, id)
    case QueueChanges(queue) => Some(s.(queue := queue))
  }

  // ---- The invariant ----

  type Scans = map<nat, Scan>

  predicate InPhase(scans: Scans, id: nat, phase: Phase) {
    id in scans && scans[id].phase == phase
  }

  ghost function SlotHolders(scans: Scans): set<nat> {
    set id | id in scans && (scans[id].phase.Scanning? || scans[id].phase.Unlocked?)
  }

  ghost function Counted(scans: Scans): set<nat> {
    set id | id in scans && !scans[id].phase.Leaving?
  }

  predicate DrainHoldsSlot(pc: Pc) {
    !pc.Waiting? && !pc.TakeSlot?
  }

  function DrainLocks(pc: Pc): set<string> {
    match pc
    case Validate(_, provider) => {provider}
    case Discarding(_, provider) => {provider}
    case Starting(_, provider) => {provider}
    case Abandon(provider, _) => {provider}
    case _ => {}
  }

  // A slot is held by exactly the scans that have not returned theirs, and by the drain.
  ghost predicate SlotsAccounted(slots: nat, running: nat, scans: Scans, drainHolds: bool) {
    && slots == |SlotHolders(scans)| + (if drainHolds then 1 else 0)
    && slots <= MAX_CONCURRENT_SCANS
    && running == |Counted(scans)|
  }

  ghost predicate Scanned(scans: Scans, provider: string) {
    exists id :: InPhase(scans, id, Scanning) && scans[id].provider == provider
  }

  // A provider is locked exactly while one scan works on it or the drain prepares one.
  ghost predicate LocksAccounted(active: set<string>, scans: Scans, drainLocks: set<string>) {
    && (forall p :: p in active <==> p in drainLocks || Scanned(scans, p))
    && (forall p :: p in drainLocks ==> !Scanned(scans, p))
    && (forall a, b :: InPhase(scans, a, Scanning) && InPhase(scans, b, Scanning) && a != b ==>
          scans[a].provider != scans[b].provider)
  }

  // A wake-up token is in the channel, or some finishing scan has yet to send one.
  ghost predicate WakePending(wake: bool, scans: Scans) {
    wake || exists id :: id in scans && !scans[id].phase.Scanning?
  }

  // The snapshot still excludes every locked provider; a provider it excludes without
  // need is one whose scan has a wake-up to send.
  ghost predicate SnapshotUsable(s: State) {
    && (s.pc.Query? || s.pc.Lock? ==> s.active <= s.pc.excluded)
    && (s.pc.Query? ==> s.pc.excluded <= s.active || WakePending(s.wake, s.scans))
    && (s.pc.Lock? ==> s.pc.provider !in s.pc.excluded)
  }

  ghost predicate StopJustified(s: State) {
    && (s.stop.SlotsFull? ==> s.pc.Waiting? && (s.slots == MAX_CONCURRENT_SCANS || WakePending(s.wake, s.scans)))
    && (s.stop.NothingDue? ==>
          && (s.pc.Waiting? || s.pc.ReturnSlot?)
          && FirstDue(s.stop.queue, s.stop.now, s.stop.excluded, None)
          && (s.stop.excluded <= s.active || WakePending(s.wake, s.scans)))
    && (!s.stop.Draining? ==> s.pc.Waiting? || (s.pc.ReturnSlot? && !s.pc.again) || (s.pc.Abandon? && !s.pc.again))
  }

  ghost predicate Slots(s: State) {
    SlotsAccounted(s.slots, s.running, s.scans, DrainHoldsSlot(s.pc))
  }

  ghost predicate Locks(s: State) {
    LocksAccounted(s.active, s.scans, DrainLocks(s.pc))
  }

  ghost predicate Consistent(s: State) {
    Slots(s) && Locks(s) && SnapshotUsable(s) && StopJustified(s)
  }

  function Initial(queue: Table): State {
    State(TakeSlot, 0, {}, map[], 0, false, queue, Draining)
  }

  lemma InitialConsistent(queue: Table)
    ensures Consistent(Initial(queue))
  {
    assert SlotHolders(map[]) == {};
    assert Counted(map[]) == {};
  }

  // ---- Steps of the drain ----

  function WithPhase(scans: Scans, id: nat, phase: Phase): Scans
    requires id in scans
  {
    scans[id := scans[id].(phase := phase)]
  }

  lemma NewScanHolds(scans: Scans, id: nat, provider: string)
    requires id !in scans
    ensures SlotHolders(scans[id := Scan(provider, Scanning)]) == SlotHolders(scans) + {id}
    ensures Counted(scans[id := Scan(provider, Scanning)]) == Counted(scans) + {id}
    ensures id !in SlotHolders(scans) && id !in Counted(scans)
  {
  }

  lemma NewScanScanned(scans: Scans, id: nat, provider: string, p: string)
    requires id !in scans
    ensures Scanned(scans[id := Scan(provider, Scanning)], p) <==> p == provider || Scanned(scans, p)
  {
    var after := scans[id := Scan(provider, Scanning)];
    if Scanned(scans, p) {
      var k: nat :| InPhase(scans, k, Scanning) && scans[k].provider == p;
      assert InPhase(after, k, Scanning) && after[k].provider == p;
    }
    if p == provider {
      assert InPhase(after, id, Scanning) && after[id].provider == p;
    }
    if Scanned(after, p) && p != provider {
      var k: nat :| InPhase(after, k, Scanning) && after[k].provider == p;
      assert InPhase(scans, k, Scanning);
    }
  }

  // Starting a scan hands the drain's lock over to it.
  lemma ScanTakesOver(scans: Scans, id: nat, provider: string, active: set<string>)
    requires id !in scans && LocksAccounted(active, scans, {provider})
    ensures LocksAccounted(active, scans[id := Scan(provider, Scanning)], {})
  {
    var after := scans[id := Scan(provider, Scanning)];
    forall p ensures Scanned(after, p) <==> p == provider || Scanned(scans, p) {
      NewScanScanned(scans, id, provider, p);
    }
    forall k | InPhase(scans, k, Scanning) ensures scans[k].provider != provider {
      assert Scanned(scans, scans[k].provider);
    }
    hide Scanned;
  }

  lemma LoopKeepsSlotsAndLocks(s: State, step: LoopStep)
    requires Slots(s) && Locks(s) && LoopNext(s, step).Some?
    ensures Slots(LoopNext(s, step).value) && Locks(LoopNext(s, step).value)
  {
    hide FirstDue, LocksAccounted, SlotHolders, Counted;
  }

  lemma LoopKeepsStop(s: State, step: LoopStep)
    requires Slots(s) && SnapshotUsable(s) && StopJustified(s) && LoopNext(s, step).Some?
    ensures SnapshotUsable(LoopNext(s, step).value) && StopJustified(LoopNext(s, step).value)
  {
    hide WakePending, FirstDue, SlotHolders, Counted;
    if step.QueryDue? && step.found.Some? {
      FirstDueExcludes(s.queue, step.now, s.pc.excluded, step.found);
    }
  }

  lemma PrepareKeepsSlots(s: State, step: PrepareStep)
    requires Slots(s) && PrepareNext(s, step).Some?
    ensures Slots(PrepareNext(s, step).value)
  {
    if step.StartScan? {
      LaunchKeepsSlots(s, step.scanId, step.outcome);
      hide Slots;
    } else {
      hide SlotHolders, Counted;
    }
  }

  lemma LaunchKeepsSlots(s: State, scanId: nat, outcome: StartOutcome)
    requires Slots(s) && PrepareNext(s, StartScan(scanId, outcome)).Some?
    ensures Slots(PrepareNext(s, StartScan(scanId, outcome)).value)
  {
    hide SlotHolders, Counted;
    NewScanHolds(s.scans, scanId, s.pc.provider);
  }

  lemma PrepareKeepsLocks(s: State, step: PrepareStep)
    requires Locks(s) && SnapshotUsable(s) && PrepareNext(s, step).Some?
    ensures Locks(PrepareNext(s, step).value)
  {
    if step.StartScan? {
      ScanTakesOver(s.scans, step.scanId, s.pc.provider, s.active);
      hide LocksAccounted;
    } else {
      hide Scanned, WakePending;
    }
  }

  lemma PrepareKeepsStop(s: State, step: PrepareStep)
    requires SnapshotUsable(s) && StopJustified(s) && PrepareNext(s, step).Some?
    ensures SnapshotUsable(PrepareNext(s, step).value) && StopJustified(PrepareNext(s, step).value)
  {
    hide WakePending, FirstDue;
  }

  lemma FirstDueExcludes(t: Table, now: nat, excluded: set<string>, found: Option<nat>)
    requires FirstDue(t, now, excluded, found) && found.Some?
    ensures found.value in t && t[found.value].group.providerId !in excluded
  {
  }

  // ---- Steps of a finishing scan ----

  lemma PhaseCounted(scans: Scans, id: nat, phase: Phase)
    requires id in scans
    ensures SlotHolders(WithPhase(scans, id, phase))
         == if phase.Scanning? || phase.Unlocked? then SlotHolders(scans) + {id} else SlotHolders(scans) - {id}
    ensures Counted(WithPhase(scans, id, phase))
         == if phase.Leaving? then Counted(scans) - {id} else Counted(scans) + {id}
    ensures SlotHolders(scans - {id}) == SlotHolders(scans) - {id}
    ensures Counted(scans - {id}) == Counted(scans) - {id}
    ensures id in SlotHolders(scans) <==> scans[id].phase.Scanning? || scans[id].phase.Unlocked?
    ensures id in Counted(scans) <==> !scans[id].phase.Leaving?
  {
  }

  lemma ScanKeepsSlots(s: State, id: nat)
    requires Slots(s) && ScanNext(s, id).Some?
    ensures Slots(ScanNext(s, id).value)
  {
    var t := ScanNext(s, id).value;
    if t.scans != s.scans - {id} {
      PhaseCounted(s.scans, id, t.scans[id].phase);
      assert t.scans == WithPhase(s.scans, id, t.scans[id].phase);
    } else {
      PhaseCounted(s.scans, id, Leaving);
    }
    hide SlotHolders, Counted, WithPhase;
  }

  lemma ScanKeepsLocks(s: State, id: nat)
    requires Locks(s) && ScanNext(s, id).Some?
    ensures Locks(ScanNext(s, id).value)
  {
    var t := ScanNext(s, id).value;
    assert forall k :: InPhase(t.scans, k, Scanning) <==> k != id && InPhase(s.scans, k, Scanning);
    forall p ensures Scanned(t.scans, p)
                <==> Scanned(s.scans, p) && !(InPhase(s.scans, id, Scanning) && s.scans[id].provider == p)
    {
      if Scanned(s.scans, p) && !(InPhase(s.scans, id, Scanning) && s.scans[id].provider == p) {
        var k: nat :| InPhase(s.scans, k, Scanning) && s.scans[k].provider == p;
        assert InPhase(t.scans, k, Scanning) && t.scans[k].provider == p;
      }
      if Scanned(t.scans, p) {
        var k: nat :| InPhase(t.scans, k, Scanning) && t.scans[k].provider == p;
        assert InPhase(s.scans, k, Scanning) && s.scans[k].provider == p;
      }
    }
    if InPhase(s.scans, id, Scanning) {
      assert Scanned(s.scans, s.scans[id].provider);
    }
  }

  // Whatever a finishing scan gives back, a wake-up is pending afterwards.
  lemma ScanLeavesWake(s: State, id: nat)
    requires ScanNext(s, id).Some?
    ensures WakePending(ScanNext(s, id).value.wake, ScanNext(s, id).value.scans)
  {
    var t := ScanNext(s, id).value;
    if !s.scans[id].phase.Leaving? {
      assert id in t.scans && !t.scans[id].phase.Scanning?;
    }
  }

  lemma ScanKeepsStop(s: State, id: nat)
    requires SnapshotUsable(s) && StopJustified(s) && ScanNext(s, id).Some?
    ensures SnapshotUsable(ScanNext(s, id).value) && StopJustified(ScanNext(s, id).value)
  {
    ScanLeavesWake(s, id);
    hide WakePending, FirstDue;
  }

  lemma StepKeepsConsistent(s: State, a: Action)
    requires Consistent(s) && Next(s, a).Some?
    ensures Consistent(Next(s, a).value)
  {
    match a
    case Loop(step) =>
      LoopKeepsSlotsAndLocks(s, step);
      LoopKeepsStop(s, step);
      hide LoopNext, Slots, Locks, SnapshotUsable, StopJustified;
    case Prepare(step) =>
      PrepareKeepsSlots(s, step);
      PrepareKeepsLocks(s, step);
      PrepareKeepsStop(s, step);
      hide PrepareNext, Slots, Locks, SnapshotUsable, StopJustified;
    case ScanFinishes(id) =>
      ScanKeepsSlots(s, id);
      ScanKeepsLocks(s, id);
      ScanKeepsStop(s, id);
      hide ScanNext, Slots, Locks, SnapshotUsable, StopJustified;
    case QueueChanges(_) =>
  }

  // ---- Whole runs ----

  // The state after a sequence of steps, if each is enabled where it is taken.
  ghost function Exec(s: State, trace: seq<Action>): Option<State> {
    if trace == [] then Some(s)
    else
      var before := Exec(s, trace[..|trace| - 1]);
      if before.None? then None else Next(before.value, trace[|trace| - 1])
  }

  lemma {:induction false} RunKeepsConsistent(s: State, trace: seq<Action>)
    requires Consistent(s) && Exec(s, trace).Some?
    ensures Consistent(Exec(s, trace).value)
  {
    hide Consistent, Next;
    if trace != [] {
      RunKeepsConsistent(s, trace[..|trace| - 1]);
      StepKeepsConsistent(Exec(s, trace[..|trace| - 1]).value, trace[|trace| - 1]);
    }
  }

  lemma FinishEnabled(s: State, id: nat)
    requires Slots(s) && id in s.scans
    ensures ScanNext(s, id).Some?
  {
    if InPhase(s.scans, id, Unlocked) {
      assert id in SlotHolders(s.scans);
    }
    if InPhase(s.scans, id, SlotReturned) {
      assert id in Counted(s.scans);
    }
  }

  ghost predicate Safe(s: State) {
    && |SlotHolders(s.scans)| <= MAX_CONCURRENT_SCANS
    && (forall a, b :: InPhase(s.scans, a, Scanning) && InPhase(s.scans, b, Scanning) && a != b ==>
          s.scans[a].provider != s.scans[b].provider)
    && (forall id :: InPhase(s.scans, id, Scanning) ==> s.scans[id].provider in s.active)
    && (forall id :: id in s.scans ==> ScanNext(s, id).Some?)
    && (s.pc.ReturnSlot? ==> LoopNext(s, ReleaseDrainSlot).Some?)
  }

  lemma ConsistentIsSafe(s: State)
    requires Consistent(s)
    ensures Safe(s)
  {
    hide SnapshotUsable, StopJustified;
    forall id | id in s.scans ensures ScanNext(s, id).Some? {
      FinishEnabled(s, id);
    }
    hide ScanNext, SlotHolders, Counted;
    forall id | InPhase(s.scans, id, Scanning) ensures s.scans[id].provider in s.active {
      assert Scanned(s.scans, s.scans[id].provider);
    }
  }

  // In every interleaving: at most two scans hold slots, no provider is scanned twice at
  // once, every scanning provider is locked, a finishing scan never waits for a slot to
  // return or a count to lower, and neither does the drain.
  lemma DispatcherIsSafe(queue: Table, trace: seq<Action>)
    requires Exec(Initial(queue), trace).Some?
    ensures Safe(Exec(Initial(queue), trace).value) && |SlotHolders(Exec(Initial(queue), trace).value.scans)| <= 2
  {
    InitialConsistent(queue);
    assert Safe(Exec(Initial(queue), trace).value) ==> |SlotHolders(Exec(Initial(queue), trace).value.scans)| <= 2;
    hide Initial, Exec, Consistent, Safe;
    RunKeepsConsistent(Initial(queue), trace);
    ConsistentIsSafe(Exec(Initial(queue), trace).value);
  }

  // tryLockProvider never fails on the row the query returned.
  lemma LockNeverFails(s: State)
    requires Consistent(s) && s.pc.Lock?
    ensures s.pc.provider !in s.active
  {
    hide Slots, Locks, StopJustified;
  }

  // No wake-up is lost. When the worker waits with no token in the channel and no
  // finishing scan left to send one, then either both slots are taken by scans, or every
  // row that was due when the drain stopped belongs to a provider still being scanned.
  lemma NoWakeUpIsLost(s: State)
    requires Consistent(s) && s.pc.Waiting? && !WakePending(s.wake, s.scans)
    ensures s.stop.SlotsFull? ==> |SlotHolders(s.scans)| == MAX_CONCURRENT_SCANS
    ensures s.stop.NothingDue? ==>
              forall id :: id in s.stop.queue && s.stop.queue[id].runAfter <= s.stop.now ==>
                Scanned(s.scans, s.stop.queue[id].group.providerId)
  {
    hide WakePending, Scanned;
    if s.stop.NothingDue? {
      forall id | id in s.stop.queue && s.stop.queue[id].runAfter <= s.stop.now
        ensures Scanned(s.scans, s.stop.queue[id].group.providerId)
      {
        assert !Due(s.stop.queue[id], s.stop.now, s.stop.excluded);
        assert s.stop.queue[id].group.providerId in s.active;
      }
    }
  }

  // ---- The drain terminates ----

  function Rank(pc: Pc): nat {
    match pc
    case Waiting => 0
    case ReturnSlot(again) => if again then 11 else 1
    case Abandon(_, again) => if again then 12 else 2
    case TakeSlot => 10
    case TakeSnapshot => 9
    case Query(_) => 8
    case Lock(_, _, _) => 7
    case Validate(_, _) => 6
    case Discarding(_, _) => 5
    case Starting(_, _) => 5
  }

  lemma OneRowLess(t: Table, id: nat)
    requires id in t
    ensures |t - {id}| == |t| - 1
  {
    assert (t - {id}).Keys == t.Keys - {id};
  }

  ghost predicate TookOneRow(before: Table, after: Table) {
    exists id :: id in before && after == before - {id}
  }

  lemma LoopStepDecreases(s: State, step: LoopStep)
    requires !s.pc.Waiting? && LoopNext(s, step).Some?
    ensures LoopNext(s, step).value.queue == s.queue && Rank(LoopNext(s, step).value.pc) < Rank(s.pc)
  {
    hide FirstDue;
  }

  lemma PrepareStepDecreases(s: State, step: PrepareStep)
    requires PrepareNext(s, step).Some? && (s.pc.Lock? ==> s.pc.provider !in s.active)
    ensures var t := PrepareNext(s, step).value;
            (t.queue == s.queue && Rank(t.pc) < Rank(s.pc)) || TookOneRow(s.queue, t.queue)
  {
    var t := PrepareNext(s, step).value;
    if step.DeleteInvalid? || step.StartScan? {
      assert t.queue == s.queue - {s.pc.id} && s.pc.id in s.queue ==> TookOneRow(s.queue, t.queue);
      hide TookOneRow;
    } else {
      hide TookOneRow;
    }
  }

  // Each pass of the loop that goes on takes exactly one row out of the queue, so with
  // no new rows the number of rows and the place in the loop decrease at every step.
  lemma DrainStepDecreases(s: State, a: Action)
    requires Consistent(s) && !s.pc.Waiting? && (a.Loop? || a.Prepare?) && Next(s, a).Some?
    ensures var t := Next(s, a).value;
            (t.queue == s.queue && Rank(t.pc) < Rank(s.pc)) || (TookOneRow(s.queue, t.queue) && |t.queue| == |s.queue| - 1)
  {
    var t := Next(s, a).value;
    if s.pc.Lock? {
      LockNeverFails(s);
    }
    hide Consistent, LoopNext, PrepareNext, Rank;
    if a.Loop? {
      LoopStepDecreases(s, a.loop);
    } else {
      PrepareStepDecreases(s, a.prepare);
    }
    if TookOneRow(s.queue, t.queue) {
      var id :| id in s.queue && t.queue == s.queue - {id};
      OneRowLess(s.queue, id);
    }
  }

  // ---- What a launch follows ----

  // The drain takes no step between i and j.
  ghost predicate DrainRests(trace: seq<Action>, i: nat, j: nat) {
    forall m :: i < m < j && m < |trace| ==> !trace[m].Loop? && !trace[m].Prepare?
  }

  // The state before step i of a run.
  ghost predicate At(s0: State, trace: seq<Action>, i: nat, s: State) {
    i <= |trace| && Exec(s0, trace[..i]) == Some(s)
  }

  // Where the drain stands after a run, it stood after its own last step.
  lemma {:induction false} LastDrainStep(s0: State, trace: seq<Action>) returns (j: nat, before: State)
    requires Exec(s0, trace).Some? && Exec(s0, trace).value.pc != s0.pc
    ensures j < |trace| && (trace[j].Loop? || trace[j].Prepare?) && DrainRests(trace, j, |trace|)
    ensures At(s0, trace, j, before) && Next(before, trace[j]).Some?
    ensures Next(before, trace[j]).value.pc == Exec(s0, trace).value.pc
    decreases |trace|
  {
    hide LoopNext, PrepareNext;
    var k := |trace| - 1;
    var front := trace[..k];
    if trace[k].Loop? || trace[k].Prepare? {
      j, before := k, Exec(s0, front).value;
    } else {
      assert Exec(s0, trace).value.pc == Exec(s0, front).value.pc;
      j, before := LastDrainStep(s0, front);
      assert front[..j] == trace[..j];
    }
  }

  lemma Standing(s0: State, trace: seq<Action>, i: nat, s: State)
    requires At(s0, trace, i, s) && i < |trace| && Exec(s0, trace).Some?
    ensures Next(s, trace[i]).Some?
    decreases |trace|
  {
    hide Next;
    var front := trace[..|trace| - 1];
    if i < |front| {
      assert front[..i] == trace[..i];
      Standing(s0, front, i, s);
    }
  }

  // The drain begins each pass without a row in hand.
  predicate NoRow(pc: Pc) {
    pc.Waiting? || pc.TakeSlot?
  }

  lemma ValidatedBefore(s: State, a: Action)
    requires Next(s, a).Some? && (a.Loop? || a.Prepare?)
    ensures var pc := Next(s, a).value.pc;
            && (pc.Starting? ==> a == Prepare(TargetValidated(true)) && s.pc == Validate(pc.id, pc.provider))
            && (pc.Discarding? ==> a == Prepare(TargetValidated(false)) && s.pc == Validate(pc.id, pc.provider))
            && (pc.Validate? ==> a == Prepare(TryLock) && s.pc.Lock? && s.pc.id == pc.id && s.pc.provider == pc.provider)
            && (pc.Lock? ==> a.Loop? && a.loop.QueryDue? && a.loop.found == Some(pc.id) && pc.id in s.queue
                             && s.queue[pc.id].runAfter <= a.loop.now && s.queue[pc.id].group.providerId == pc.provider)
  {
  }

  // Whatever is launched or deleted as invalid was returned as due by the query of the same
  // pass, and its target was found valid, or invalid, between the two; the drain does
  // nothing else in between but take the lock.
  lemma HandledRowWasDue(s0: State, trace: seq<Action>, i: nat, s: State, id: nat, provider: string)
    returns (q: nat, l: nat, v: nat, asked: State)
    requires NoRow(s0.pc) && At(s0, trace, i, s)
    requires s.pc == Starting(id, provider) || s.pc == Discarding(id, provider)
    ensures q < l < v < i && DrainRests(trace, q, l) && DrainRests(trace, l, v) && DrainRests(trace, v, i)
    ensures trace[v] == Prepare(TargetValidated(s.pc.Starting?)) && trace[l] == Prepare(TryLock)
    ensures trace[q].Loop? && trace[q].loop.QueryDue? && trace[q].loop.found == Some(id)
    ensures At(s0, trace, q, asked) && id in asked.queue && asked.queue[id].group.providerId == provider
    ensures asked.queue[id].runAfter <= trace[q].loop.now
  {
    hide Next;
    var front := trace[..i];
    var validating, locking: State;
    v, validating := LastDrainStep(s0, front);
    ValidatedBefore(validating, front[v]);
    assert front[..v] == trace[..v];
    l, locking := LastDrainStep(s0, trace[..v]);
    ValidatedBefore(locking, trace[..v][l]);
    assert trace[..v][..l] == trace[..l];
    q, asked := LastDrainStep(s0, trace[..l]);
    ValidatedBefore(asked, trace[..l][q]);
    assert trace[..l][..q] == trace[..q];
  }

  // Every scan that is launched is one of a row that was due, of its provider, with a target
  // found valid.
  lemma LaunchFollowsValidation(s0: State, trace: seq<Action>, i: nat, s: State) returns (q: nat, v: nat, asked: State)
    requires NoRow(s0.pc) && At(s0, trace, i, s) && i < |trace| && Exec(s0, trace).Some?
    requires trace[i].Prepare? && trace[i].prepare.StartScan?
    ensures s.pc.Starting? && q < v < i && trace[v] == Prepare(TargetValidated(true)) && DrainRests(trace, v, i)
    ensures trace[q].Loop? && trace[q].loop.QueryDue? && trace[q].loop.found == Some(s.pc.id)
    ensures At(s0, trace, q, asked) && s.pc.id in asked.queue
    ensures asked.queue[s.pc.id].runAfter <= trace[q].loop.now
    ensures asked.queue[s.pc.id].group.providerId == s.pc.provider
  {
    Standing(s0, trace, i, s);
    var l;
    q, l, v, asked := HandledRowWasDue(s0, trace, i, s, s.pc.id, s.pc.provider);
  }

  // Only a row whose target was found invalid is deleted without being scanned.
  lemma DiscardFollowsValidation(s0: State, trace: seq<Action>, i: nat, s: State) returns (v: nat)
    requires NoRow(s0.pc) && At(s0, trace, i, s) && i < |trace| && Exec(s0, trace).Some?
    requires trace[i].Prepare? && trace[i].prepare.DeleteInvalid?
    ensures s.pc.Discarding? && v < i && trace[v] == Prepare(TargetValidated(false)) && DrainRests(trace, v, i)
  {
    Standing(s0, trace, i, s);
    var q, l, asked;
    q, l, v, asked := HandledRowWasDue(s0, trace, i, s, s.pc.id, s.pc.provider);
  }

  // ---- Wake-ups are conserved ----

  // How many wake-ups the worker has received.
  function Received(trace: seq<Action>): nat {
    if trace == [] then 0
    else Received(trace[..|trace| - 1]) + if trace[|trace| - 1] == Loop(ReceiveWake) then 1 else 0
  }

  // How many scans have sent theirs.
  ghost function Sent(s0: State, trace: seq<Action>): nat
    requires Exec(s0, trace).Some?
  {
    if trace == [] then 0
    else
      var front, a := trace[..|trace| - 1], trace[|trace| - 1];
      Sent(s0, front)
      + if a.ScanFinishes? && InPhase(Exec(s0, front).value.scans, a.scanId, Leaving) then 1 else 0
  }

  // No wake-up is received that no scan has sent, and each is received once.
  lemma {:induction false} WakeUpsAreSent(s0: State, trace: seq<Action>)
    requires Exec(s0, trace).Some? && !s0.wake
    ensures Received(trace) + (if Exec(s0, trace).value.wake then 1 else 0) <= Sent(s0, trace)
    decreases |trace|
  {
    if trace != [] {
      WakeUpsAreSent(s0, trace[..|trace| - 1]);
      hide FirstDue;
    }
  }

  // ---- The worker object ----

  lemma Extend(s0: State, trace: seq<Action>, s: State, a: Action) returns (s': State, trace': seq<Action>)
    requires Exec(s0, trace) == Some(s) && Consistent(s) && Next(s, a).Some?
    ensures Some(s') == Next(s, a) && Consistent(s')
    ensures trace' == trace + [a] && Exec(s0, trace') == Some(s')
    ensures OnlyDrainSteps(trace) && (a.Loop? || a.Prepare?) ==> OnlyDrainSteps(trace')
  {
    StepKeepsConsistent(s, a);
    hide Next, Consistent;
    s', trace' := Next(s, a).value, trace + [a];
    assert trace'[..|trace|] == trace;
  }

  lemma SlotsNeverExceed(s: State)
    requires Consistent(s)
    ensures s.slots <= MAX_CONCURRENT_SCANS
    ensures s.pc.ReturnSlot? ==> s.slots > 0
  {
    hide Locks, SnapshotUsable, StopJustified;
  }

  // One scan of the provider has begun.
  ghost predicate OneMoreScan(before: Scans, after: Scans, provider: string) {
    exists id: nat :: id !in before && after == before[id := Scan(provider, Scanning)]
  }

  method FreshKey(keys: set<nat>) returns (unused: nat)
    ensures unused !in keys
  {
    unused := 0;
    var rest := keys;
    while rest != {}
      invariant rest <= keys
      invariant forall k :: k in keys && k !in rest ==> k < unused
    {
      var k :| k in rest;
      rest := rest - {k};
      if k >= unused {
        unused := k + 1;
      }
    }
  }

  // What the clock and the database answer during one drain.
  datatype Answers = Answers(
    clock: nat -> nat, queryFails: nat -> bool, valid: set<nat>, undeletable: set<nat>, unreadable: set<nat>)

  class Worker {
    var slots: nat
    var active: set<string>
    var scans: Scans
    var running: nat
    var wake: bool
    const queue: Repository

    // The state of the machine when the drain goroutine stands at pc.
    ghost function StateAt(pc: Pc, stop: Stop): State
      reads this, queue
    {
      State(pc, slots, active, scans, running, wake, queue.rows, stop)
    }

    constructor (queue: Repository)
      ensures this.queue == queue && StateAt(TakeSlot, Draining) == Initial(queue.rows)
    {
      this.queue := queue;
      slots, active, scans, running, wake := 0, {}, map[], 0, false;
    }

    // tryLockProvider.
    method TryLockProvider(provider: string) returns (ok: bool)
      modifies this`active
      ensures ok <==> provider !in old(active)
      ensures active == old(active) + {provider}
    {
      ok := provider !in active;
      if ok {
        active := active + {provider};
      }
    }

    // unlockProvider.
    method UnlockProvider(provider: string)
      modifies this`active
      ensures active == old(active) - {provider}
    {
      active := active - {provider};
    }

    // One deferred call of a finishing scan, wherever the drain stands: it never blocks.
    method FinishScan(id: nat, ghost pc: Pc, ghost stop: Stop)
      requires Consistent(StateAt(pc, stop)) && id in scans
      modifies this
      ensures ScanNext(old(StateAt(pc, stop)), id) == Some(StateAt(pc, stop))
      ensures Consistent(StateAt(pc, stop)) && WakePending(wake, scans)
    {
      ghost var s := StateAt(pc, stop);
      FinishEnabled(s, id);
      StepKeepsConsistent(s, ScanFinishes(id));
      ScanLeavesWake(s, id);
      hide Consistent, WakePending;
      match scans[id].phase {
        case Scanning =>
          UnlockProvider(scans[id].provider);
          scans := scans[id := scans[id].(phase := Unlocked)];
        case Unlocked =>
          slots := slots - 1;
          scans := scans[id := scans[id].(phase := SlotReturned)];
        case SlotReturned =>
          running := running - 1;
          scans := scans[id := scans[id].(phase := Leaving)];
        case Leaving =>
          scans := scans - {id};
          wake := true;
      }
    }

    // prepareQueuedScan, and the launch of the scan when it succeeds.
    method PrepareQueuedScan(
      id: nat, answers: Answers, ghost excluded: set<string>, ghost s0: State, ghost before: seq<Action>)
      returns (started: bool, continueDraining: bool, ghost trace: seq<Action>)
      requires id in queue.rows
      requires var s := StateAt(Lock(id, queue.rows[id].group.providerId, excluded), Draining);
               Exec(s0, before) == Some(s) && Consistent(s)
      modifies this, queue
      ensures slots == old(slots) && wake == old(wake)
      ensures var s := StateAt(if started then TakeSlot else ReturnSlot(continueDraining),
                               if started || continueDraining then Draining else Failed);
              Exec(s0, trace) == Some(s) && Consistent(s)
      ensures started <==> id in answers.valid && id !in answers.undeletable && id !in answers.unreadable
      ensures continueDraining <==> id !in answers.valid && id !in answers.undeletable
      ensures queue.rows == if id in answers.undeletable then old(queue.rows) else old(queue.rows) - {id}
      ensures if started then OneMoreScan(old(scans), scans, old(queue.rows)[id].group.providerId) else scans == old(scans)
      ensures running == old(running) + if started then 1 else 0
      ensures active == old(active) + if started then {old(queue.rows)[id].group.providerId} else {}
      ensures OnlyDrainSteps(before) ==> OnlyDrainSteps(trace)
    {
      hide Exec, Consistent, FirstDue, OnlyDrainSteps;
      var provider := queue.rows[id].group.providerId;
      ghost var s := StateAt(Lock(id, provider, excluded), Draining);
      LockNeverFails(s);
      s, trace := Extend(s0, before, s, Prepare(TryLock));
      var locked := TryLockProvider(provider);
      s, trace := Extend(s0, trace, s, Prepare(TargetValidated(id in answers.valid)));
      started, continueDraining := false, false;
      if id !in answers.valid {
        s, trace := Extend(s0, trace, s, Prepare(DeleteInvalid(id in answers.undeletable)));
        if id !in answers.undeletable {
          continueDraining := queue.Delete(id);
        }
      } else {
        var scanId := FreshKey(scans.Keys);
        var outcome :=
          if id in answers.undeletable then DequeueFailed else if id in answers.unreadable then TaskNotRead else Started;
        s, trace := Extend(s0, trace, s, Prepare(StartScan(scanId, outcome)));
        if !outcome.DequeueFailed? {
          var _ := queue.Delete(id);
        }
        if outcome.Started? {
          scans := scans[scanId := Scan(provider, Scanning)];
          running := running + 1;
          started := true;
          return;
        }
      }
      s, trace := Extend(s0, trace, s, Prepare(UnlockAbandoned));
      UnlockProvider(provider);
    }

    // The head of the loop: a slot, the snapshot, the query. None when the drain stops.
    method NextDueRow(now: nat, queryFails: bool, ghost s0: State, ghost before: seq<Action>)
      returns (found: Option<nat>, stop: Stop, ghost trace: seq<Action>)
      requires Exec(s0, before) == Some(StateAt(TakeSlot, Draining)) && Consistent(StateAt(TakeSlot, Draining))
      modifies this`slots
      ensures found.Some? <==> stop.Draining?
      ensures found.Some? ==>
                && found.value in queue.rows && queue.rows[found.value].runAfter <= now
                && queue.rows[found.value].group.providerId !in active
      ensures var s := if found.None? then StateAt(Waiting, stop)
                       else StateAt(Lock(found.value, queue.rows[found.value].group.providerId, active), Draining);
              Exec(s0, trace) == Some(s) && Consistent(s)
      ensures stop.SlotsFull? <==> old(slots) == MAX_CONCURRENT_SCANS
      ensures stop.Failed? <==> old(slots) < MAX_CONCURRENT_SCANS && queryFails
      ensures slots == old(slots) + if found.Some? then 1 else 0
      ensures stop.NothingDue? ==> stop.now == now && FirstDue(queue.rows, now, active, None)
      ensures OnlyDrainSteps(before) ==> OnlyDrainSteps(trace)
    {
      hide Exec, Consistent, OnlyDrainSteps;
      ghost var s := StateAt(TakeSlot, Draining);
      SlotsNeverExceed(s);
      s, trace := Extend(s0, before, s, Loop(AcquireSlot));
      if slots >= MAX_CONCURRENT_SCANS {
        return None, SlotsFull, trace;
      }
      slots := slots + 1;
      s, trace := Extend(s0, trace, s, Loop(SnapshotActive));
      if queryFails {
        s, trace := Extend(s0, trace, s, Loop(QueryError));
        s, trace := Extend(s0, trace, s, Loop(ReleaseDrainSlot));
        slots := slots - 1;
        return None, Failed, trace;
      }
      found := queue.FirstDueExcludingProviders(now, active);
      s, trace := Extend(s0, trace, s, Loop(QueryDue(now, found)));
      if found.None? {
        s, trace := Extend(s0, trace, s, Loop(ReleaseDrainSlot));
        slots := slots - 1;
        return None, NothingDue(queue.rows, now, active), trace;
      }
      stop := Draining;
    }

    // releaseSlot after a row that was not launched.
    method ReturnDrainSlot(again: bool, ghost s0: State, ghost before: seq<Action>) returns (ghost trace: seq<Action>)
      requires var s := StateAt(ReturnSlot(again), if again then Draining else Failed);
               Exec(s0, before) == Some(s) && Consistent(s)
      modifies this`slots
      ensures var s := StateAt(if again then TakeSlot else Waiting, if again then Draining else Failed);
              Exec(s0, trace) == Some(s) && Consistent(s)
      ensures OnlyDrainSteps(before) ==> OnlyDrainSteps(trace)
      ensures slots == old(slots) - 1
    {
      hide Exec, Consistent, FirstDue, OnlyDrainSteps;
      ghost var s := StateAt(ReturnSlot(again), if again then Draining else Failed);
      SlotsNeverExceed(s);
      s, trace := Extend(s0, before, s, Loop(ReleaseDrainSlot));
      slots := slots - 1;
    }

    // drainScanQueue with nothing else running: a trace of the machine above, ending
    // with every slot taken, with a database error, or with no due row left whose
    // provider is free.
    method DrainScanQueue(answers: Answers) returns (stop: Stop, ghost trace: seq<Action>)
      requires Consistent(StateAt(TakeSlot, Draining))
      modifies this, queue
      ensures Exec(old(StateAt(TakeSlot, Draining)), trace) == Some(StateAt(Waiting, stop))
      ensures OnlyDrainSteps(trace)
      ensures stop.SlotsFull? ==> slots == MAX_CONCURRENT_SCANS
      ensures stop.NothingDue? ==> FirstDue(queue.rows, stop.now, active, None)
      ensures !stop.Draining?
    {
      ghost var s0 := StateAt(TakeSlot, Draining);
      trace := [];
      NoSteps(s0);
      hide Exec, FirstDue, Consistent, OneMoreScan, OnlyDrainSteps;
      var pass := 0;
      while true
        invariant Exec(s0, trace) == Some(StateAt(TakeSlot, Draining)) && Consistent(StateAt(TakeSlot, Draining))
        invariant OnlyDrainSteps(trace)
        decreases |queue.rows|
      {
        var found;
        found, stop, trace := NextDueRow(answers.clock(pass), answers.queryFails(pass), s0, trace);
        if found.None? {
          return;
        }
        pass := pass + 1;
        OneRowLess(queue.rows, found.value);
        var started, continueDraining;
        started, continueDraining, trace := PrepareQueuedScan(found.value, answers, active, s0, trace);
        if !started {
          trace := ReturnDrainSlot(continueDraining, s0, trace);
          if !continueDraining {
            stop := Failed;
            return;
          }
        }
      }
    }
  }

  ghost predicate OnlyDrainSteps(trace: seq<Action>) {
    forall i :: 0 <= i < |trace| ==> trace[i].Loop? || trace[i].Prepare?
  }

  lemma NoSteps(s: State)
    ensures Exec(s, []) == Some(s) && OnlyDrainSteps([])
  {
  }
}
