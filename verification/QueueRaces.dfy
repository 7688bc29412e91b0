/** enqueueScan statement by statement. The source runs its query, its touch or upsert and
  * its delete without a transaction or a lock, beside the drain and other callers. Every
  * interleaving of these statements is a run here. */
module QueueRaces {
  import opened Wrappers
  import opened Paths
  import opened ScanQueue
  import Like

  // Where one call of enqueueScan stands.
  datatype Call =
    | Asking(request: Request)
    | Touching(request: Request, id: nat)
    | Upserting(request: Request)
    | Deleting(request: Request)
    | Accepted(request: Request)
    | Refused(request: Request)

  // used holds every key ever given to a row: keys are not given twice.
  datatype State = State(table: Table, used: set<nat>, calls: map<nat, Call>)

  datatype Step =
    | Arrive(call: nat, request: Request)
    | Find(call: nat, covering: Option<nat>)
    | Touch(call: nat)
    | Upsert(call: nat, newId: nat)
    | DeleteBelow(call: nat)
    | GiveUp(call: nat)          // a database error, at any statement
    | Remove(removal: Action)    // a dequeue, a discard or a cascade

  // The step after the covering row, if any, has been read.
  ghost function AfterFind(t: Table, r: Request, covering: Option<nat>): Call
    requires covering.Some? ==> covering.value in t
  {
    if Absorbed(t, r, covering) then Touching(r, covering.value) else Upserting(r)
  }

  ghost function Next(s: State, step: Step): Option<State> {
    match step
    case Arrive(k, request) =>
      if k in s.calls then None else Some(s.(calls := s.calls[k := Asking(Normalized(request))]))
    case Find(k, covering) =>
      if k !in s.calls || !s.calls[k].Asking?
         || !FirstCovering(s.table, s.calls[k].request.group, s.calls[k].request.path, covering) then None
      else Some(s.(calls := s.calls[k := AfterFind(s.table, s.calls[k].request, covering)]))
    case Touch(k) =>
      if k !in s.calls || !s.calls[k].Touching? then None
      else
        var r, id := s.calls[k].request, s.calls[k].id;
        if id in s.table
        then Some(s.(table := s.table[id := Touched(s.table[id], r)], calls := s.calls[k := Accepted(r)]))
        else Some(s.(calls := s.calls[k := Refused(r)]))
    case Upsert(k, newId) =>
      if k !in s.calls || !s.calls[k].Upserting? || newId in s.used then None
      else
        var r := s.calls[k].request;
        Some(State(Upserted(s.table, r, newId), s.used + {newId},
                   s.calls[k := if r.mode.Recursive? then Deleting(r) else Accepted(r)]))
    case DeleteBelow(k) =>
      if k !in s.calls || !s.calls[k].Deleting? then None
      else
        var r := s.calls[k].request;
        Some(s.(table := WithoutCovered(s.table, r.group, r.path), calls := s.calls[k := Accepted(r)]))
    case GiveUp(k) =>
      if k !in s.calls then None else Some(s.(calls := s.calls[k := Refused(s.calls[k].request)]))
    case Remove(a) =>
      if a.Enqueue? then None
      else Some(s.(table := map id | id in s.table && !Drops(a, id, s.table[id]) :: s.table[id]))
  }

  // ---- The invariant: no antichain, but keys ----

  ghost predicate CallOk(c: Call, t: Table, used: set<nat>) {
    && Rooted(c.request.path)
    && (c.Deleting? ==> c.request.mode.Recursive?)
    && (c.Touching? ==> c.id in used
                        && (c.id in t ==> SelectedAsCovering(t[c.id], c.request.group, c.request.path)))
  }

  ghost predicate Sound(s: State) {
    && UniqueKeys(s.table)
    && RootedRows(s.table)
    && s.table.Keys <= s.used
    && forall k :: k in s.calls ==> CallOk(s.calls[k], s.table, s.used)
  }

  // Rows that stay keep their keys, and rows that come are new.
  ghost predicate KeysStay(before: State, after: State) {
    && before.used <= after.used
    && forall id :: id in after.table && id in before.used ==>
         id in before.table && after.table[id].group == before.table[id].group
         && after.table[id].path == before.table[id].path && after.table[id].mode == before.table[id].mode
  }

  lemma OtherCallsStayOk(s: State, t: State)
    requires Sound(s) && KeysStay(s, t)
    ensures forall k :: k in s.calls ==> CallOk(s.calls[k], t.table, t.used)
  {
  }

  lemma UpsertKeepsRows(t: Table, r: Request, newId: nat, used: set<nat>)
    requires UniqueKeys(t) && t.Keys <= used && newId !in used && Rooted(r.path) && RootedRows(t)
    ensures var after := Upserted(t, r, newId);
            && UniqueKeys(after) && after.Keys <= used + {newId}
            && RootedRows(after)
            && Holds(after, r.group, r.path, r.mode)
            && forall id :: id in after && id in used ==>
                 id in t && after[id].group == t[id].group && after[id].path == t[id].path && after[id].mode == t[id].mode
  {
    var up := UpsertKeepsKeys(t, r, newId);
    var again := UpsertedRow(t, r, newId);
    var after := Upserted(t, r, newId);
    hide Upserted;
    assert Covers(after[up], r.group, r.path, r.mode);
    forall a, b | a in after && b in after && after[a].group == after[b].group && after[a].path == after[b].path
                  && after[a].mode == after[b].mode
      ensures a == b
    {
    }
  }

  lemma FindKeepsCallOk(s: State, k: nat, covering: Option<nat>)
    requires Sound(s) && Next(s, Find(k, covering)).Some?
    ensures CallOk(AfterFind(s.table, s.calls[k].request, covering), s.table, s.used)
  {
  }

  // A table whose rows are rows of the old one, perhaps touched.
  ghost predicate Narrows(before: Table, after: Table) {
    forall id :: id in after ==>
      id in before && after[id].group == before[id].group && after[id].path == before[id].path
      && after[id].mode == before[id].mode
  }

  lemma NarrowingKeepsSound(s: State, table: Table)
    requires Sound(s) && Narrows(s.table, table)
    ensures Sound(s.(table := table))
  {
    hide Covers;
    OtherCallsStayOk(s, s.(table := table));
  }

  lemma CallKeepsSound(s: State, k: nat, c: Call)
    requires Sound(s) && CallOk(c, s.table, s.used)
    ensures Sound(s.(calls := s.calls[k := c]))
  {
    hide CallOk, UniqueKeys;
  }

  lemma UpsertKeepsSound(s: State, k: nat, newId: nat)
    requires Sound(s) && Next(s, Upsert(k, newId)).Some?
    ensures Sound(Next(s, Upsert(k, newId)).value)
  {
    var t := Next(s, Upsert(k, newId)).value;
    UpsertKeepsRows(s.table, s.calls[k].request, newId, s.used);
    hide Upserted, UniqueKeys, Covers;
    OtherCallsStayOk(s, t);
  }

  lemma NormalizedIsRooted(request: Request)
    ensures Rooted(Normalized(request).path)
  {
    hide Normalize;
  }

  lemma StepKeepsSound(s: State, step: Step)
    requires Sound(s) && Next(s, step).Some?
    ensures Sound(Next(s, step).value)
  {
    hide UniqueKeys, FirstCovering, Absorbed, SelectedAsCovered, Drops, Covers, Normalized;
    match step
    case Arrive(k, request) =>
      NormalizedIsRooted(request);
      CallKeepsSound(s, k, Asking(Normalized(request)));
    case Find(k, covering) => FindKeepsSound(s, k, covering);
    case Touch(k) => TouchKeepsSound(s, k);
    case Upsert(k, newId) => UpsertKeepsSound(s, k, newId);
    case DeleteBelow(k) =>
      var r := s.calls[k].request;
      NarrowingKeepsSound(s, WithoutCovered(s.table, r.group, r.path));
      CallKeepsSound(s.(table := WithoutCovered(s.table, r.group, r.path)), k, Accepted(r));
    case GiveUp(k) => CallKeepsSound(s, k, Refused(s.calls[k].request));
    case Remove(a) => NarrowingKeepsSound(s, Next(s, step).value.table);
  }

  lemma FindKeepsSound(s: State, k: nat, covering: Option<nat>)
    requires Sound(s) && Next(s, Find(k, covering)).Some?
    ensures Sound(Next(s, Find(k, covering)).value)
  {
    FindKeepsCallOk(s, k, covering);
    hide Sound, CallOk, SelectedAsCovering, Absorbed;
    CallKeepsSound(s, k, AfterFind(s.table, s.calls[k].request, covering));
  }

  lemma TouchKeepsSound(s: State, k: nat)
    requires Sound(s) && Next(s, Touch(k)).Some?
    ensures Sound(Next(s, Touch(k)).value)
  {
    hide UniqueKeys, Covers;
    var r, id := s.calls[k].request, s.calls[k].id;
    if id in s.table {
      var table := s.table[id := Touched(s.table[id], r)];
      NarrowingKeepsSound(s, table);
      CallKeepsSound(s.(table := table), k, Accepted(r));
    } else {
      CallKeepsSound(s, k, Refused(r));
    }
  }

  // ---- Each step keeps requests covered, but for three kinds of loss ----

  // A removal takes a row that covers the request; or a delete at or above its path runs
  // although no recursive row there is pending any more; or the pattern of a delete picks a
  // row that covers the request from outside the subtree it stands for.
  ghost predicate LosesCover(s: State, step: Step, group: Group, path: string, mode: Mode) {
    match step
    case Remove(a) => TakesCover(s.table, a, group, path, mode)
    case DeleteBelow(k) => Orphaned(s, k, group, path) || Strays(s, k, group, path, mode)
    case _ => false
  }

  ghost predicate Orphaned(s: State, k: nat, group: Group, path: string) {
    && k in s.calls && s.calls[k].request.group == group && Within(path, s.calls[k].request.path)
    && !Holds(s.table, group, s.calls[k].request.path, Recursive)
  }

  ghost predicate Strays(s: State, k: nat, group: Group, path: string, mode: Mode) {
    && k in s.calls
    && exists id :: id in s.table && Covers(s.table[id], group, path, mode)
         && SelectedAsCovered(s.table[id], s.calls[k].request.group, s.calls[k].request.path)
         && !Within(s.table[id].path, s.calls[k].request.path)
  }

  // Without metacharacters a pattern never strays.
  lemma PlainNeverStrays(s: State, k: nat, group: Group, path: string, mode: Mode)
    requires Sound(s) && k in s.calls && PlainPath(s.calls[k].request.path)
    ensures !Strays(s, k, group, path, mode)
  {
    var r := s.calls[k].request;
    forall id | id in s.table && SelectedAsCovered(s.table[id], r.group, r.path) ensures Within(s.table[id].path, r.path) {
      CoveredClauseExact(s.table[id], r.group, r.path);
    }
  }

  // A row covering the request is deleted: the delete strays, or nothing recursive is left
  // at or above its path, or that is left and covers the request.
  lemma DeleteKeepsCover(s: State, k: nat, group: Group, path: string, mode: Mode)
    requires Sound(s) && k in s.calls && Holds(s.table, group, path, mode)
    ensures var r := s.calls[k].request;
            || Holds(WithoutCovered(s.table, r.group, r.path), group, path, mode)
            || Orphaned(s, k, group, path) || Strays(s, k, group, path, mode)
  {
    hide UniqueKeys, SelectedAsCovered, SelectedAsCovering;
    var t, r := s.table, s.calls[k].request;
    var after := WithoutCovered(t, r.group, r.path);
    var id :| id in t && Covers(t[id], group, path, mode);
    if !SelectedAsCovered(t[id], r.group, r.path) {
      assert Covers(after[id], group, path, mode);
    } else if Within(t[id].path, r.path) {
      SelectedIsInGroup(t[id], r.group, r.path);
      WithinTransitive(path, t[id].path, r.path);
      if top :| top in t && Covers(t[top], group, r.path, Recursive) {
        WithinTransitive(t[id].path, r.path, t[top].path);
        CoversTransitive(t[top], t[id], group, path, mode);
        if SelectedAsCovered(t[top], r.group, r.path) {
          SelectedIsNotTop(t[top], r.group, r.path);
        } else {
          assert Covers(after[top], group, path, mode);
        }
      }
    }
  }

  lemma SelectedIsInGroup(row: Row, group: Group, path: string)
    requires SelectedAsCovered(row, group, path)
    ensures row.group == group
  {
  }

  // A recursive row at or above the path that the pattern picks lies outside the subtree.
  lemma SelectedIsNotTop(row: Row, group: Group, path: string)
    requires SelectedAsCovered(row, group, path) && row.mode.Recursive? && Within(path, row.path)
    requires Rooted(path) && Rooted(row.path)
    ensures !Within(row.path, path)
  {
    hide Like.Matches;
  }

  lemma StepKeepsCover(s: State, step: Step, group: Group, path: string, mode: Mode)
    requires Sound(s) && Next(s, step).Some? && Holds(s.table, group, path, mode)
    ensures Holds(Next(s, step).value.table, group, path, mode) || LosesCover(s, step, group, path, mode)
  {
    match step
    case Touch(k) =>
      if s.calls[k].id in s.table {
        TouchKeepsCovers(s.table, s.calls[k].request, s.calls[k].id);
      }
    case Upsert(k, newId) => UpsertKeepsCovers(s.table, s.calls[k].request, newId);
    case DeleteBelow(k) => DeleteKeepsCover(s, k, group, path, mode);
    case Remove(a) =>
      var id :| id in s.table && Covers(s.table[id], group, path, mode);
      var t := Next(s, step).value.table;
      assert !Drops(a, id, s.table[id]) ==> id in t && t[id] == s.table[id];
    case _ =>
  }

  // The statement by which a call writes: its touch of a row still there, or its upsert.
  ghost predicate Writes(s: State, step: Step, k: nat) {
    && Next(s, step).Some?
    && (step == Touch(k) || (step.Upsert? && step.call == k))
    && Next(s, step).value.calls[k] != Refused(s.calls[k].request)
  }

  // A write takes effect unless it touches a row that the pattern picked but that does not
  // cover the request.
  ghost predicate TakesEffect(s: State, step: Step, k: nat) {
    && k in s.calls && Writes(s, step, k)
    && (step.Touch? && s.calls[k].Touching? && s.calls[k].id in s.table ==>
          Covers(s.table[s.calls[k].id], s.calls[k].request.group, s.calls[k].request.path, s.calls[k].request.mode))
  }

  lemma WriteCovers(s: State, step: Step, k: nat)
    requires Sound(s) && TakesEffect(s, step, k)
    ensures var r := s.calls[k].request; Holds(Next(s, step).value.table, r.group, r.path, r.mode)
  {
    var r := s.calls[k].request;
    if step.Touch? {
      var id := s.calls[k].id;
      assert Covers(Next(s, step).value.table[id], r.group, r.path, r.mode);
    } else {
      UpsertKeepsRows(s.table, r, step.newId, s.used);
    }
  }

  // An upsert always takes effect, and so does the touch of a row whose path is plain.
  lemma PlainWriteTakesEffect(s: State, step: Step, k: nat)
    requires Sound(s) && k in s.calls && Writes(s, step, k)
    requires step.Touch? && s.calls[k].Touching? && s.calls[k].id in s.table ==> PlainPath(s.table[s.calls[k].id].path)
    ensures TakesEffect(s, step, k)
  {
    if step.Touch? && s.calls[k].Touching? && s.calls[k].id in s.table {
      CoveringClauseExact(s.table[s.calls[k].id], s.calls[k].request.group, s.calls[k].request.path);
    }
  }

  // ---- Whole runs ----

  ghost predicate Run(states: seq<State>, steps: seq<Step>) {
    && |states| == |steps| + 1
    && Sound(states[0]) && states[0].calls == map[]
    && forall i :: 0 <= i < |steps| ==> Next(states[i], steps[i]) == Some(states[i + 1])
  }

  lemma {:induction false} RunKeepsSound(states: seq<State>, steps: seq<Step>, i: nat)
    requires Run(states, steps) && i < |states|
    ensures Sound(states[i])
  {
    hide Sound, Next;
    if i > 0 {
      var k := i - 1;
      assert Next(states[k], steps[k]) == Some(states[k + 1]);
      RunKeepsSound(states, steps, k);
      StepKeepsSound(states[k], steps[k]);
    }
  }

  // Covered at some moment, a request stays covered until a step loses its cover.
  lemma {:induction false} CoverStays(
    states: seq<State>, steps: seq<Step>, i: nat, j: nat, group: Group, path: string, mode: Mode)
    requires Run(states, steps) && i <= j < |states| && Holds(states[i].table, group, path, mode)
    ensures Holds(states[j].table, group, path, mode)
         || exists m :: i <= m < j && LosesCover(states[m], steps[m], group, path, mode)
    decreases j
  {
    hide Sound, Next, LosesCover, Holds;
    if i < j {
      var k := j - 1;
      assert Next(states[k], steps[k]) == Some(states[k + 1]);
      CoverStays(states, steps, i, k, group, path, mode);
      if Holds(states[k].table, group, path, mode) {
        RunKeepsSound(states, steps, k);
        StepKeepsCover(states[k], steps[k], group, path, mode);
      }
    }
  }

  // ---- What a call decides ----

  // Between plain paths a call goes on to touch a row if and only if a recursive row lies at
  // or above its path, unless the request is recursive and has a row with its own key; the
  // row it touches lies there. Else it goes on to upsert.
  lemma FindDecides(s: State, k: nat, covering: Option<nat>)
    requires Sound(s) && Next(s, Find(k, covering)).Some?
    requires forall id :: id in s.table ==> PlainPath(s.table[id].path)
    ensures var r := s.calls[k].request;
            var c := Next(s, Find(k, covering)).value.calls[k];
            && c.request == r && (c.Touching? || c.Upserting?)
            && (c.Touching? <==> && Holds(s.table, r.group, r.path, Recursive)
                                 && !(r.mode.Recursive? && exists id :: id in s.table && SameKey(s.table[id], r)))
            && (c.Touching? ==> c.id in s.table && Covers(s.table[c.id], r.group, r.path, Recursive))
  {
    var t, r := s.table, s.calls[k].request;
    assert Rooted(r.path);
    hide Sound, SelectedAsCovering, PlainPath;
    forall id | id in t
      ensures SelectedAsCovering(t[id], r.group, r.path) <==> Covers(t[id], r.group, r.path, Recursive)
      ensures Covers(t[id], r.group, r.path, Recursive) ==> |t[id].path| <= |r.path|
      ensures Covers(t[id], r.group, r.path, Recursive) && |t[id].path| == |r.path| ==> t[id].path == r.path
    {
      CoveringClauseExact(t[id], r.group, r.path);
    }
    hide Covers;
    if covering.Some? && r.mode.Recursive? {
      if id :| id in t && SameKey(t[id], r) {
        OwnRowCovers(t[id], r);
      }
      if t[covering.value].path == r.path {
        CoveringIsRecursive(t[covering.value], r);
      }
    }
  }

  lemma OwnRowCovers(row: Row, r: Request)
    requires SameKey(row, r) && r.mode.Recursive?
    ensures Covers(row, r.group, r.path, Recursive)
  {
  }

  lemma CoveringIsRecursive(row: Row, r: Request)
    requires Covers(row, r.group, r.path, Recursive) && r.mode.Recursive? && row.path == r.path
    ensures SameKey(row, r)
  {
  }

  // ---- Due times ----

  lemma StepAges(s: State, step: Step, id: nat)
    requires Sound(s) && Next(s, step).Some?
    ensures id in s.used ==> id in Next(s, step).value.used
    ensures id in s.used && id in Next(s, step).value.table ==>
              id in s.table && Ages(s.table[id], Next(s, step).value.table[id])
  {
    hide FirstCovering, Absorbed, Drops, Covers, CallOk, RootedRows;
    if step.Upsert? {
      var r := s.calls[step.call].request;
      UpsertAges(s.table, r, step.newId);
      var up := UpsertKeepsKeys(s.table, r, step.newId);
      hide Upserted;
    } else {
      hide Upserted, SelectedAsCovered, UniqueKeys;
    }
  }

  // In every interleaving, while a row stays pending it keeps its key and its creation, and
  // its due time never moves earlier; and a row that is gone does not come back.
  lemma {:induction false} DueTimeOnlyMovesLater(states: seq<State>, steps: seq<Step>, i: nat, j: nat, id: nat)
    requires Run(states, steps) && i <= j < |states| && id in states[i].used
    ensures id in states[j].used
    ensures id in states[j].table ==> id in states[i].table && Ages(states[i].table[id], states[j].table[id])
    decreases j
  {
    hide Next, Sound;
    if i < j {
      var k := j - 1;
      assert Next(states[k], steps[k]) == Some(states[k + 1]);
      DueTimeOnlyMovesLater(states, steps, i, k, id);
      RunKeepsSound(states, steps, k);
      StepAges(states[k], steps[k], id);
    }
  }

  // A request that is not absorbed sits in a row with its key that, as long as it is pending,
  // is not due before the request asks.
  lemma RequestIsDebounced(states: seq<State>, steps: seq<Step>, k: nat) returns (id: nat)
    requires Run(states, steps) && k < |steps| && steps[k].Upsert?
    ensures steps[k].call in states[k].calls && id in states[k + 1].table
    ensures var r := states[k].calls[steps[k].call].request;
            && SameKey(states[k + 1].table[id], r)
            && forall j :: k < j < |states| && id in states[j].table ==> r.runAfter <= states[j].table[id].runAfter
  {
    assert Next(states[k], steps[k]) == Some(states[k + 1]);
    RunKeepsSound(states, steps, k);
    RunKeepsSound(states, steps, k + 1);
    var r := states[k].calls[steps[k].call].request;
    id := UpsertedRow(states[k].table, r, steps[k].newId);
    UpsertIsMerge(states[k].table, r, steps[k].newId);
    assert r.runAfter <= states[k + 1].table[id].runAfter;
    hide Next, Sound, Upserted;
    assert id in states[k + 1].used by { assert states[k + 1].table.Keys <= states[k + 1].used; }
    forall j | k < j < |states| && id in states[j].table ensures r.runAfter <= states[j].table[id].runAfter {
      DueTimeOnlyMovesLater(states, steps, k + 1, j, id);
    }
  }

  // ---- Where an orphaned delete comes from ----

  // Between its upsert and its delete a call stands at Deleting.
  lemma {:induction false} DeletingSince(states: seq<State>, steps: seq<Step>, m: nat, k: nat) returns (u: nat)
    requires Run(states, steps) && m < |states| && k in states[m].calls && states[m].calls[k].Deleting?
    ensures u < m && steps[u].Upsert? && steps[u].call == k && k in states[u].calls
    ensures states[u].calls[k].request == states[m].calls[k].request && states[m].calls[k].request.mode.Recursive?
    ensures forall n :: u < n <= m ==> k in states[n].calls && states[n].calls[k] == states[m].calls[k]
    decreases m
  {
    assert m > 0;
    var l := m - 1;
    assert Next(states[l], steps[l]) == Some(states[l + 1]);
    hide FirstCovering, Absorbed, Upserted, WithoutCovered, Drops, Sound, Normalized;
    if steps[l].Upsert? && steps[l].call == k {
      u := l;
    } else {
      assert k in states[l].calls && states[l].calls[k] == states[m].calls[k];
      hide Next;
      u := DeletingSince(states, steps, l, k);
    }
  }

  // Between its upsert and its delete a call has lost the cover of its own recursive row.
  ghost predicate Interrupted(states: seq<State>, steps: seq<Step>, m: nat, k: nat)
    requires |states| == |steps| + 1 && m < |states| && k in states[m].calls
  {
    var c := states[m].calls[k];
    exists n :: 0 <= n < m && k in states[n].calls && states[n].calls[k] == c && c.Deleting?
                && LosesCover(states[n], steps[n], c.request.group, c.request.path, Recursive)
  }

  // A delete without its recursive row was interrupted.
  lemma OrphanWasInterrupted(states: seq<State>, steps: seq<Step>, m: nat, group: Group, path: string)
    requires Run(states, steps) && m < |steps| && steps[m].DeleteBelow?
    requires Orphaned(states[m], steps[m].call, group, path)
    ensures Interrupted(states, steps, m, steps[m].call)
  {
    var k := steps[m].call;
    assert Next(states[m], steps[m]) == Some(states[m + 1]);
    var u := DeletingSince(states, steps, m, k);
    var r := states[m].calls[k].request;
    assert Next(states[u], steps[u]) == Some(states[u + 1]);
    RunKeepsSound(states, steps, u);
    WriteCovers(states[u], steps[u], k);
    hide Next, Sound, Upserted, Holds, LosesCover;
    CoverStays(states, steps, u + 1, m, r.group, r.path, Recursive);
    var n :| u + 1 <= n < m && LosesCover(states[n], steps[n], r.group, r.path, Recursive);
    assert states[n].calls[k] == states[m].calls[k];
  }

  // A removal, or a straying delete, takes the recursive row of a call at or above the path
  // that has yet to run its own delete.
  ghost predicate Disturbs(s: State, step: Step, group: Group, path: string) {
    exists k :: k in s.calls && s.calls[k].Deleting? && s.calls[k].request.group == group
                && Within(path, s.calls[k].request.path) && Takes(s, step, group, s.calls[k].request.path)
  }

  ghost predicate Takes(s: State, step: Step, group: Group, path: string) {
    || (step.Remove? && TakesCover(s.table, step.removal, group, path, Recursive))
    || (step.DeleteBelow? && Strays(s, step.call, group, path, Recursive))
  }

  // Calls alone never orphan one another's delete, if no pattern strays: back from one that
  // is orphaned, a removal or a straying delete took the row of a call at or above it.
  lemma {:induction false} OrphanWasDisturbed(states: seq<State>, steps: seq<Step>, m: nat, group: Group, path: string)
    requires Run(states, steps) && m < |steps| && steps[m].DeleteBelow?
    requires Orphaned(states[m], steps[m].call, group, path)
    ensures exists n :: 0 <= n < m && Disturbs(states[n], steps[n], group, path)
    decreases m
  {
    var k := steps[m].call;
    OrphanWasInterrupted(states, steps, m, group, path);
    var c := states[m].calls[k];
    var n :| 0 <= n < m && k in states[n].calls && states[n].calls[k] == c && c.Deleting?
             && LosesCover(states[n], steps[n], c.request.group, c.request.path, Recursive);
    RunKeepsSound(states, steps, n);
    assert Rooted(c.request.path);
    if steps[n].DeleteBelow? && Orphaned(states[n], steps[n].call, group, c.request.path) {
      hide Next, Sound, Holds;
      OrphanWasDisturbed(states, steps, n, group, c.request.path);
      var o :| 0 <= o < n && Disturbs(states[o], steps[o], group, c.request.path);
      RunKeepsSound(states, steps, o);
      DisturbsBelow(states[o], steps[o], group, c.request.path, path);
    } else {
      hide Next, Sound, Holds, TakesCover, Strays;
      assert Takes(states[n], steps[n], group, c.request.path);
      assert Disturbs(states[n], steps[n], group, path);
    }
  }

  lemma DisturbsBelow(s: State, step: Step, group: Group, above: string, path: string)
    requires Sound(s) && Disturbs(s, step, group, above) && Within(path, above) && Rooted(above)
    ensures Disturbs(s, step, group, path)
  {
    hide Takes;
    var k :| k in s.calls && s.calls[k].Deleting? && s.calls[k].request.group == group
             && Within(above, s.calls[k].request.path) && Takes(s, step, group, s.calls[k].request.path);
    assert CallOk(s.calls[k], s.table, s.used);
    WithinTransitive(path, above, s.calls[k].request.path);
  }

  // The guarantee in every interleaving, for any paths. From the write by which enqueueScan
  // takes effect, a pending row covers its request, until a removal takes such a row. It is
  // lost in two other ways alone: to a delete whose pattern strays, which plain paths never
  // bring about, or to the delete of a call at or above its path that was interrupted
  // between its own upsert and that delete.
  lemma RequestStaysCovered(states: seq<State>, steps: seq<Step>, i: nat, j: nat, k: nat)
    requires Run(states, steps) && i < j < |states| && TakesEffect(states[i], steps[i], k)
    ensures var r := states[i].calls[k].request;
            || Holds(states[j].table, r.group, r.path, r.mode)
            || (exists m :: i < m < j && steps[m].Remove?
                            && TakesCover(states[m].table, steps[m].removal, r.group, r.path, r.mode))
            || (exists m :: i < m < j && steps[m].DeleteBelow?
                            && Strays(states[m], steps[m].call, r.group, r.path, r.mode))
            || (exists m :: i < m < j && steps[m].DeleteBelow? && Orphaned(states[m], steps[m].call, r.group, r.path)
                            && Interrupted(states, steps, m, steps[m].call))
  {
    var r := states[i].calls[k].request;
    assert Next(states[i], steps[i]) == Some(states[i + 1]);
    RunKeepsSound(states, steps, i);
    WriteCovers(states[i], steps[i], k);
    hide Next, Sound, Holds, TakesCover, Interrupted, Strays, Orphaned;
    CoverStays(states, steps, i + 1, j, r.group, r.path, r.mode);
    if !Holds(states[j].table, r.group, r.path, r.mode) {
      var m :| i + 1 <= m < j && LosesCover(states[m], steps[m], r.group, r.path, r.mode);
      if steps[m].DeleteBelow? && Orphaned(states[m], steps[m].call, r.group, r.path) {
        OrphanWasInterrupted(states, steps, m, r.group, r.path);
      }
    }
  }

  // A call that has returned successfully, or is about to delete, has taken effect.
  lemma {:induction false} AcceptedHasWritten(states: seq<State>, steps: seq<Step>, j: nat, k: nat) returns (i: nat)
    requires Run(states, steps) && j < |states| && k in states[j].calls
    requires states[j].calls[k].Accepted? || states[j].calls[k].Deleting?
    ensures i < j && k in states[i].calls && Writes(states[i], steps[i], k)
    ensures states[i].calls[k].request == states[j].calls[k].request
    decreases j
  {
    assert j > 0;
    var l := j - 1;
    assert Next(states[l], steps[l]) == Some(states[l + 1]);
    hide FirstCovering, Absorbed, Upserted, WithoutCovered, Drops, Sound, Normalized;
    if k in states[l].calls && Writes(states[l], steps[l], k) {
      i := l;
    } else {
      assert k in states[l].calls && states[l].calls[k].request == states[j].calls[k].request;
      i := AcceptedHasWritten(states, steps, l, k);
    }
  }

  // ---- A run that loses an accepted request ----

  lemma PathsOfRace()
    ensures Normalize("/a") == "/a" && Normalize("/a/b") == "/a/b"
  {
    RenderSingle("a");
    RenderChild(["a"], "b");
    assert Render(["a"]) == "/a" && ["a"] + ["b"] == ["a", "b"] && Render(["a", "b"]) == "/a/b";
    hide Render, Normalize;
    RenderedIsNormal(["a"]);
    RenderedIsNormal(["a", "b"]);
  }

  const WIDE := "/a"
  const NARROW := "/a/b"

  lemma RequestIsNormal(r: Request)
    requires r.path == WIDE || r.path == NARROW
    ensures Normalized(r) == r
  {
    PathsOfRace();
    hide Normalize;
  }

  // A call that finds nothing in an empty table inserts its row.
  lemma StepsOfInsert(s: State, k: nat, r: Request, newId: nat)
    requires s.table == map[] && k !in s.calls && newId !in s.used && Normalized(r) == r
    ensures Next(s, Arrive(k, r)) == Some(s.(calls := s.calls[k := Asking(r)]))
    ensures Next(s.(calls := s.calls[k := Asking(r)]), Find(k, None)) == Some(s.(calls := s.calls[k := Upserting(r)]))
    ensures Next(s.(calls := s.calls[k := Upserting(r)]), Upsert(k, newId))
         == Some(State(map[newId := Inserted(r)], s.used + {newId},
                       s.calls[k := if r.mode.Recursive? then Deleting(r) else Accepted(r)]))
  {
    hide Normalized, SelectedAsCovering;
    assert s.calls[k := Asking(r)][k := Upserting(r)] == s.calls[k := Upserting(r)];
    var up := s.calls[k := Upserting(r)];
    assert up[k := Deleting(r)] == s.calls[k := Deleting(r)] && up[k := Accepted(r)] == s.calls[k := Accepted(r)];
  }

  lemma TakesRow(s: State, id: nat, row: Row)
    requires s.table == map[id := row]
    ensures Next(s, Remove(Dequeue(id))) == Some(s.(table := map[]))
  {
  }

  lemma DeletesRow(s: State, k: nat, r: Request, id: nat, row: Row)
    requires s.table == map[id := row] && k in s.calls && s.calls[k] == Deleting(r)
    requires WithoutCovered(map[id := row], r.group, r.path) == map[]
    ensures Next(s, DeleteBelow(k)) == Some(s.(table := map[], calls := s.calls[k := Accepted(r)]))
  {
    hide WithoutCovered;
  }

  lemma UpsertWrites(s: State, k: nat, newId: nat, t: State)
    requires Next(s, Upsert(k, newId)) == Some(t) && k in s.calls && k in t.calls && t.calls[k].Accepted?
    ensures Writes(s, Upsert(k, newId), k)
  {
    hide Next;
  }

  // What the drain takes and what the delete takes, around the insertion of a second call.
  lemma SecondHalf(s: State, wide: Request, narrow: Request) returns (states: seq<State>, steps: seq<Step>)
    requires s.table == map[10 := Inserted(wide)] && s.used == {10} && s.calls == map[0 := Deleting(wide)]
    requires wide.group == narrow.group && wide.path == WIDE && narrow.path == NARROW && narrow.mode.CurrentLevel?
    ensures |states| == 6 && |steps| == 5 && states[0] == s && states[5].table == map[]
    ensures forall i :: 0 <= i < 5 ==> Next(states[i], steps[i]) == Some(states[i + 1])
    ensures 1 in states[3].calls && states[3].calls[1] == Upserting(narrow)
    ensures Writes(states[3], steps[3], 1) && steps[4] == DeleteBelow(0)
  {
    hide *;
    RequestIsNormal(narrow);
    OrphanedDelete(narrow);
    var taken := s.(table := map[]);
    var asking := taken.(calls := taken.calls[1 := Asking(narrow)]);
    var upserting := taken.(calls := taken.calls[1 := Upserting(narrow)]);
    var inserted := State(map[11 := Inserted(narrow)], taken.used + {11}, taken.calls[1 := Accepted(narrow)]);
    var deleted := inserted.(table := map[], calls := inserted.calls[0 := Accepted(wide)]);
    TakesRow(s, 10, Inserted(wide));
    StepsOfInsert(taken, 1, narrow, 11);
    UpsertWrites(upserting, 1, 11, inserted);
    DeletesRow(inserted, 0, wide, 11, Inserted(narrow));
    states := [s, taken, asking, upserting, inserted, deleted];
    steps := [Remove(Dequeue(10)), Arrive(1, narrow), Find(1, None), Upsert(1, 11), DeleteBelow(0)];
  }

  // The drain takes the recursive row of a call between its upsert and its delete. A
  // request accepted after that is deleted, though no removal took its row.
  lemma AcceptedRequestLost(wide: Request, narrow: Request) returns (states: seq<State>, steps: seq<Step>)
    requires wide.group == narrow.group && wide.path == WIDE && narrow.path == NARROW
    requires wide.mode.Recursive? && narrow.mode.CurrentLevel?
    ensures Run(states, steps) && |steps| == 8
    ensures 1 in states[6].calls && states[6].calls[1].request == narrow && Writes(states[6], steps[6], 1)
    ensures states[8].table == map[] && steps[7] == DeleteBelow(0)
  {
    RequestIsNormal(wide);
    EmptyIsSound();
    hide Next, Normalized, Sound, WIDE, NARROW, Inserted, Writes;
    var s := State(map[], {}, map[]);
    StepsOfInsert(s, 0, wide, 10);
    var asking, upserting := s.(calls := s.calls[0 := Asking(wide)]), s.(calls := s.calls[0 := Upserting(wide)]);
    var inserted := State(map[10 := Inserted(wide)], s.used + {10}, s.calls[0 := Deleting(wide)]);
    var rest, more := SecondHalf(inserted, wide, narrow);
    states := [s, asking, upserting] + rest;
    steps := [Arrive(0, wide), Find(0, None), Upsert(0, 10)] + more;
    forall i | 0 <= i < 8 ensures Next(states[i], steps[i]) == Some(states[i + 1]) {
      if i >= 3 {
        assert states[i] == rest[i - 3] && steps[i] == more[i - 3] && states[i + 1] == rest[i - 3 + 1];
      }
    }
  }

  lemma OrphanedDelete(narrow: Request)
    requires narrow.path == NARROW
    ensures WithoutCovered(map[11 := Inserted(narrow)], narrow.group, WIDE) == map[]
  {
    Like.PlainSubtree(NARROW, WIDE);
    assert WIDE + "/" <= NARROW;
    hide Like.Matches, Like.Subtree;
  }

  lemma EmptyIsSound()
    ensures Sound(State(map[], {}, map[]))
  {
  }
}
