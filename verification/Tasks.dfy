/** The life of a scan task: runner, cancellers and failure handlers each read the row,
  * change their copy and write it back with UpdateIfActive, in any interleaving. */
module Tasks {
  import opened Wrappers

  datatype Status = Pending | Running | Completed | Failed | Cancelled {
    predicate Active() { Pending? || Running? }
    predicate Terminal() { !Active() }
    // Pending, then running, then one of the terminal states.
    function Rank(): nat { if Pending? then 0 else if Running? then 1 else 2 }
  }

  datatype Task = Task(status: Status, message: string, errorMessage: string, finishedAt: string)

  // ---- The writes, each from the writer's own copy ----

  function AsRunning(copy: Task): Task {
    copy.(status := Running, message := "running library scan")
  }

  function AsCompleted(copy: Task, now: string): Task {
    copy.(status := Completed, message := "library scan completed", finishedAt := now)
  }

  function AsCancelled(copy: Task, now: string): Task {
    copy.(status := Cancelled, message := "scan cancelled", errorMessage := "", finishedAt := now)
  }

  function AsFailed(copy: Task, reason: string, now: string): Task {
    copy.(status := Failed, message := "scan failed", errorMessage := reason, finishedAt := now)
  }

  function AsInterrupted(copy: Task, now: string): Task {
    copy.(status := Failed, message := "scan interrupted by service restart", finishedAt := now,
          errorMessage := if copy.errorMessage == "" then "task did not resume after service restart" else copy.errorMessage)
  }

  class Repository {
    var rows: map<string, Task>
    var logs: seq<(string, Status)>   // the terminal entries of the task log

    constructor ()
      ensures rows == map[] && logs == []
    {
      rows, logs := map[], [];
    }

    // UpdateIfActive: a compare-and-set on the stored status.
    method UpdateIfActive(id: string, item: Task) returns (updated: bool)
      modifies this`rows
      ensures updated <==> id in old(rows) && old(rows)[id].status.Active()
      ensures rows == if updated then old(rows)[id := item] else old(rows)
    {
      updated := id in rows && rows[id].status.Active();
      if updated {
        rows := rows[id := item];
      }
    }

    // cancelScanTask, and markTaskCancelled.
    method CancelScanTask(id: string, now: string) returns (task: Option<Task>)
      modifies this
      ensures id in old(rows) && old(rows)[id].status.Active() ==>
                rows == old(rows)[id := AsCancelled(old(rows)[id], now)] && logs == old(logs) + [(id, Cancelled)]
                && rows[id].status == Cancelled && rows[id].finishedAt == now && rows[id].errorMessage == ""
      ensures id !in old(rows) || old(rows)[id].status.Terminal() ==> rows == old(rows) && logs == old(logs)
      ensures task == if id in rows then Some(rows[id]) else None
    {
      if id !in rows {
        return None;
      }
      var copy := rows[id];
      if !copy.status.Active() {
        return Some(copy);
      }
      var updated := UpdateIfActive(id, AsCancelled(copy, now));
      if updated {
        logs := logs + [(id, Cancelled)];
      }
      task := Some(rows[id]);
    }

    // failTask: no look at the status it read; the compare-and-set decides.
    method FailTask(id: string, reason: string, now: string)
      modifies this
      ensures id in old(rows) && old(rows)[id].status.Active() ==>
                rows == old(rows)[id := AsFailed(old(rows)[id], reason, now)] && logs == old(logs) + [(id, Failed)]
                && rows[id].status == Failed && rows[id].finishedAt == now && rows[id].errorMessage == reason
      ensures id !in old(rows) || old(rows)[id].status.Terminal() ==> rows == old(rows) && logs == old(logs)
    {
      if id !in rows {
        return;
      }
      var updated := UpdateIfActive(id, AsFailed(rows[id], reason, now));
      if updated {
        logs := logs + [(id, Failed)];
      }
    }
  }

  // ---- Interleavings on one task ----

  // What a goroutine remembers between its statements.
  datatype Actor =
    | Fresh
    | Read(copy: Task)     // after tasks.Get
    | Begun(copy: Task)    // a runner whose write of Running succeeded
    | MustLog              // its terminal write succeeded
    | Gone

  datatype State = State(row: Option<Task>, actors: map<nat, Actor>, terminalWrites: nat, terminalLogs: nat)

  datatype Action =
    | Arrive(actor: nat)
    | Get(actor: nat)
    | WriteRunning(actor: nat)
    | WriteCompleted(actor: nat, now: string)
    | WriteCancelled(actor: nat, now: string)
    | WriteFailed(actor: nat, reason: string, now: string)
    | AppendLog(actor: nat)
    | GiveUp(actor: nat)      // an error return, or a log entry that was not stored
    | Prune                   // DeleteFinishedBefore
    | Crash                   // the service stops wherever its goroutines stand
    | Recover(now: string)    // recoverInterruptedScanTasks, before anything else runs

  // UpdateIfActive by one actor.
  function Attempt(s: State, actor: nat, item: Task, onSuccess: Actor): State {
    if s.row.Some? && s.row.value.status.Active() then
      s.(row := Some(item), actors := s.actors[actor := onSuccess],
         terminalWrites := s.terminalWrites + if item.status.Terminal() then 1 else 0)
    else s.(actors := s.actors[actor := Gone])
  }

  function Next(s: State, a: Action): Option<State> {
    match a
    case Arrive(k) => if k in s.actors then None else Some(s.(actors := s.actors[k := Fresh]))
    case Get(k) =>
      if k !in s.actors || !s.actors[k].Fresh? then None
      else Some(s.(actors := s.actors[k := if s.row.Some? then Read(s.row.value) else Gone]))
    case WriteRunning(k) =>
      // The runner looks only for a cancelled copy.
      if k !in s.actors || !s.actors[k].Read? || s.actors[k].copy.status.Cancelled? then None
      else Some(Attempt(s, k, AsRunning(s.actors[k].copy), Begun(AsRunning(s.actors[k].copy))))
    case WriteCompleted(k, now) =>
      if k !in s.actors || !s.actors[k].Begun? || now == "" then None
      else Some(Attempt(s, k, AsCompleted(s.actors[k].copy, now), MustLog))
    case WriteCancelled(k, now) =>
      if k !in s.actors || !s.actors[k].Read? || s.actors[k].copy.status.Terminal() || now == "" then None
      else Some(Attempt(s, k, AsCancelled(s.actors[k].copy, now), MustLog))
    case WriteFailed(k, reason, now) =>
      if k !in s.actors || !s.actors[k].Read? || now == "" then None
      else Some(Attempt(s, k, AsFailed(s.actors[k].copy, reason, now), MustLog))
    case AppendLog(k) =>
      if k !in s.actors || !s.actors[k].MustLog? then None
      else Some(s.(actors := s.actors[k := Gone], terminalLogs := s.terminalLogs + 1))
    case GiveUp(k) => if k !in s.actors then None else Some(s.(actors := s.actors[k := Gone]))
    case Prune =>
      if s.row.Some? && s.row.value.status.Terminal() then Some(s.(row := None)) else None
    case Crash => Some(s.(actors := map[]))
    case Recover(now) =>
      if s.actors != map[] || s.row.None? || s.row.value.status.Terminal() || now == "" then None
      else Some(State(Some(AsInterrupted(s.row.value, now)), map[], s.terminalWrites + 1, s.terminalLogs + 1))
  }

  // finished_at is set exactly in terminal states, an error only on failed tasks.
  predicate WellFormed(t: Task) {
    (t.status.Terminal() <==> t.finishedAt != "") && (t.errorMessage != "" ==> t.status.Failed?)
  }

  // A copy read earlier: never ahead of the row, however stale.
  predicate StaleCopy(copy: Task, row: Option<Task>) {
    WellFormed(copy) && (row.Some? ==> copy.status.Rank() <= row.value.status.Rank())
  }

  predicate ActorOk(actor: Actor, row: Option<Task>) {
    match actor
    case Read(copy) => StaleCopy(copy, row)
    case Begun(copy) => StaleCopy(copy, row) && copy.status.Running?
    case _ => true
  }

  ghost predicate Inv(s: State) {
    && (s.row.Some? ==> WellFormed(s.row.value))
    && (forall k :: k in s.actors ==> ActorOk(s.actors[k], s.row))
    && s.terminalWrites == (if s.row.Some? && s.row.value.status.Active() then 0 else 1)
    && (forall k :: k in s.actors && s.actors[k].MustLog? ==> s.terminalWrites == 1 && s.terminalLogs == 0)
    && (forall k, l :: k in s.actors && l in s.actors && s.actors[k].MustLog? && s.actors[l].MustLog? ==> k == l)
    && s.terminalLogs <= s.terminalWrites
  }

  // As DeleteAndCreateTask leaves it.
  function Created(message: string): State {
    State(Some(Task(Pending, message, "", "")), map[], 0, 0)
  }

  lemma CreatedInv(message: string)
    ensures Inv(Created(message))
  {
  }

  // Overwriting an active row with a later well-formed one keeps every stale copy stale.
  lemma AttemptKeepsInv(s: State, k: nat, item: Task, onSuccess: Actor)
    requires Inv(s) && k in s.actors && !s.actors[k].MustLog?
    requires WellFormed(item) || (s.row.Some? ==> s.row.value.status.Terminal())
    requires !item.status.Pending?
    requires item.status.Terminal() ==> onSuccess.MustLog?
    requires item.status.Running? ==> onSuccess == Begun(item)
    ensures Inv(Attempt(s, k, item, onSuccess))
  {
    var t := Attempt(s, k, item, onSuccess);
    forall j | j in t.actors ensures ActorOk(t.actors[j], t.row) {
      if j != k {
        assert ActorOk(s.actors[j], s.row);
      }
    }
  }

  lemma StepKeepsInv(s: State, a: Action)
    requires Inv(s) && Next(s, a).Some?
    ensures Inv(Next(s, a).value)
  {
    match a
    case WriteRunning(k) =>
      var copy := s.actors[k].copy;
      assert ActorOk(s.actors[k], s.row);
      AttemptKeepsInv(s, k, AsRunning(copy), Begun(AsRunning(copy)));
    case WriteCompleted(k, now) =>
      assert ActorOk(s.actors[k], s.row);
      AttemptKeepsInv(s, k, AsCompleted(s.actors[k].copy, now), MustLog);
    case WriteCancelled(k, now) =>
      assert ActorOk(s.actors[k], s.row);
      AttemptKeepsInv(s, k, AsCancelled(s.actors[k].copy, now), MustLog);
    case WriteFailed(k, reason, now) =>
      AttemptKeepsInv(s, k, AsFailed(s.actors[k].copy, reason, now), MustLog);
    case _ =>
  }

  // What one step may do to the stored row: move forward while it is active, and
  // nothing but removal once it is terminal.
  ghost predicate Forward(before: Option<Task>, after: Option<Task>) {
    match before
    case None => after.None?
    case Some(b) =>
      if b.status.Terminal() then after == before || after.None?
      else after.Some? && b.status.Rank() <= after.value.status.Rank()
  }

  lemma StepIsForward(s: State, a: Action)
    requires Inv(s) && Next(s, a).Some?
    ensures Forward(s.row, Next(s, a).value.row)
  {
    if a.WriteRunning? {
      assert ActorOk(s.actors[a.actor], s.row);
    }
  }

  // A run from the creation of the task.
  ghost predicate Run(states: seq<State>, actions: seq<Action>) {
    && |states| == |actions| + 1
    && (exists message :: states[0] == Created(message))
    && forall i :: 0 <= i < |actions| ==> Next(states[i], actions[i]) == Some(states[i + 1])
  }

  lemma {:induction false} RunKeepsInv(states: seq<State>, actions: seq<Action>, i: nat)
    requires Run(states, actions) && i < |states|
    ensures Inv(states[i])
  {
    if i == 0 {
      var message :| states[0] == Created(message);
      CreatedInv(message);
    } else {
      hide Next, Inv;
      var k := i - 1;
      assert Next(states[k], actions[k]) == Some(states[k + 1]);
      RunKeepsInv(states, actions, k);
      StepKeepsInv(states[k], actions[k]);
    }
  }

  // In every interleaving the status only moves forward, and a terminal row is never
  // overwritten, only pruned.
  lemma {:induction false} StatusOnlyAdvances(states: seq<State>, actions: seq<Action>, i: nat, j: nat)
    requires Run(states, actions) && i <= j < |states|
    ensures match states[i].row
            case None => states[j].row.None?
            case Some(b) =>
              if b.status.Terminal() then states[j].row == states[i].row || states[j].row.None?
              else states[j].row.Some? ==> b.status.Rank() <= states[j].row.value.status.Rank()
    decreases j
  {
    if i < j {
      hide Next, Inv;
      var k := j - 1;
      assert Next(states[k], actions[k]) == Some(states[k + 1]);
      StatusOnlyAdvances(states, actions, i, k);
      RunKeepsInv(states, actions, k);
      StepIsForward(states[k], actions[k]);
    }
  }

  // Wherever the service stops, a task that is not over is failed by the recovery that
  // follows, with the one terminal entry in the log; a task that is over stays as it is.
  lemma RestartEndsTask(states: seq<State>, actions: seq<Action>, i: nat, now: string)
    requires Run(states, actions) && i < |states| && now != ""
    ensures var stopped := Next(states[i], Crash).value;
            var recovered := Next(stopped, Recover(now));
            if states[i].row.Some? && states[i].row.value.status.Active() then
              recovered.Some? && recovered.value.row.Some? && recovered.value.row.value.status.Failed?
              && recovered.value.row.value.errorMessage != ""
              && recovered.value.terminalWrites == recovered.value.terminalLogs == 1
            else stopped.row == states[i].row && recovered.None?
  {
    RunKeepsInv(states, actions, i);
  }

  // The write that ended the task says how: a runner completes it, a canceller cancels it, a
  // failure handler fails it with its reason, a recovery with one of its own.
  predicate Ends(a: Action, t: Task) {
    match a
    case WriteCompleted(_, now) => t.status == Completed && t.finishedAt == now && t.errorMessage == ""
    case WriteCancelled(_, now) => t.status == Cancelled && t.finishedAt == now && t.errorMessage == ""
    case WriteFailed(_, reason, now) => t.status == Failed && t.finishedAt == now && t.errorMessage == reason
    case Recover(now) => t.status == Failed && t.finishedAt == now && t.errorMessage != ""
    case _ => false
  }

  ghost predicate ActiveRow(s: State) {
    s.row.Some? && s.row.value.status.Active()
  }

  // A terminal write on an active row ends the task, and nothing else does.
  lemma StepEnds(s: State, a: Action)
    requires Inv(s) && Next(s, a).Some? && ActiveRow(s)
    ensures var t := Next(s, a).value;
            && t.row.Some?
            && (a.WriteCompleted? || a.WriteCancelled? || a.WriteFailed? || a.Recover? ==> Ends(a, t.row.value))
            && (t.row.value.status.Terminal() ==> Ends(a, t.row.value))
            && (a.WriteRunning? ==> t.row.value.status == Running)
  {
    if a.WriteCompleted? || a.WriteCancelled? {
      assert ActorOk(s.actors[a.actor], s.row);
    }
  }

  // How a finished task ended: one step ended it, and the row has stayed as that step left it.
  lemma {:induction false} EndedBy(states: seq<State>, actions: seq<Action>, j: nat) returns (i: nat)
    requires Run(states, actions) && j < |states| && states[j].row.Some? && states[j].row.value.status.Terminal()
    ensures i < j && ActiveRow(states[i]) && Ends(actions[i], states[j].row.value)
    ensures forall n :: i < n <= j ==> states[n].row == states[j].row
    decreases j
  {
    hide Inv, Next, Ends;
    var message :| states[0] == Created(message);
    assert j > 0;
    var k := j - 1;
    assert Next(states[k], actions[k]) == Some(states[k + 1]);
    RunKeepsInv(states, actions, k);
    StepIsForward(states[k], actions[k]);
    if ActiveRow(states[k]) {
      StepEnds(states[k], actions[k]);
      i := k;
    } else {
      i := EndedBy(states, actions, k);
    }
  }

  // The life of a task that nothing disturbs: it is read, begun, completed, logged and pruned.
  lemma UndisturbedRun(now: string, message: string) returns (states: seq<State>, actions: seq<Action>)
    requires now != ""
    ensures Run(states, actions) && |states| == 7
    ensures actions == [Arrive(0), Get(0), WriteRunning(0), WriteCompleted(0, now), AppendLog(0), Prune]
    ensures states[3].row.Some? && states[3].row.value.status == Running
    ensures states[5].row.Some? && states[5].row.value.status == Completed && states[5].terminalLogs == 1
    ensures states[6].row.None?
  {
    var s0 := Created(message);
    actions := [Arrive(0), Get(0), WriteRunning(0), WriteCompleted(0, now), AppendLog(0), Prune];
    var s1 := Next(s0, actions[0]).value;
    var s2 := Next(s1, actions[1]).value;
    var s3 := Next(s2, actions[2]).value;
    var s4 := Next(s3, actions[3]).value;
    var s5 := Next(s4, actions[4]).value;
    states := [s0, s1, s2, s3, s4, s5, Next(s5, actions[5]).value];
  }

  // A canceller that has read the task ends it while its runner still works: the runner's
  // write is refused.
  lemma CancelledRun(now: string, message: string) returns (states: seq<State>, actions: seq<Action>)
    requires now != ""
    ensures Run(states, actions) && |states| == 8
    ensures actions[5] == WriteCancelled(1, now) && actions[6] == WriteCompleted(0, now)
    ensures states[7].row.Some? && states[7].row.value.status == Cancelled && states[7].terminalWrites == 1
  {
    var s0 := Created(message);
    actions := [Arrive(0), Arrive(1), Get(0), Get(1), WriteRunning(0), WriteCancelled(1, now), WriteCompleted(0, now)];
    var s1 := Next(s0, actions[0]).value;
    var s2 := Next(s1, actions[1]).value;
    var s3 := Next(s2, actions[2]).value;
    var s4 := Next(s3, actions[3]).value;
    var s5 := Next(s4, actions[4]).value;
    var s6 := Next(s5, actions[5]).value;
    states := [s0, s1, s2, s3, s4, s5, s6, Next(s6, actions[6]).value];
  }

  // At most one terminal write succeeds, exactly one has when the task is over, and at
  // most one terminal entry follows it in the log.
  lemma OneTerminalWrite(states: seq<State>, actions: seq<Action>, i: nat)
    requires Run(states, actions) && i < |states|
    ensures states[i].terminalLogs <= states[i].terminalWrites <= 1
    ensures states[i].terminalWrites == 1 <==> states[i].row.None? || states[i].row.value.status.Terminal()
    ensures states[i].row.Some? ==> (states[i].row.value.finishedAt != "" <==> states[i].row.value.status.Terminal())
  {
    RunKeepsInv(states, actions, i);
  }
}
