/** The scan queue: a table of pending scans into which enqueueScan merges requests.
  *
  * The table functions follow the SQL, unescaped LIKE patterns included. Here enqueueScan
  * is one step: on paths without LIKE metacharacters no request is ever lost then, and the
  * pending rows stay an antichain. QueueRaces takes its statements apart. */
module ScanQueue {
  import opened Wrappers
  import opened Strings
  import opened Paths
  import opened Like

  datatype Mode = CurrentLevel | Recursive

  // Rows merge only within one library, mount and provider.
  datatype Group = Group(libraryId: string, mountId: string, providerId: string)

  datatype Row = Row(
    group: Group, path: string, mode: Mode, source: string, runAfter: nat, createdAt: nat,
    eventCount: nat, lastEventAt: nat, overwrite: bool, reason: string)

  // The table by primary key; every row of it is pending.
  type Table = map<nat, Row>

  datatype Request = Request(
    group: Group, path: string, mode: Mode, source: string, runAfter: nat, now: nat,
    overwrite: bool, reason: string)

  // ---- The statements of the repository, as functions on tables ----

  // WHERE clause of FindCoveringRecursive.
  predicate SelectedAsCovering(row: Row, group: Group, path: string) {
    && row.group == group
    && row.mode.Recursive?
    && (row.path == "/" || path == row.path || Matches(path, Subtree(row.path)))
  }

  // ORDER BY length(source_path) DESC LIMIT 1.
  ghost predicate FirstCovering(t: Table, group: Group, path: string, found: Option<nat>) {
    match found
    case None => forall id :: id in t ==> !SelectedAsCovering(t[id], group, path)
    case Some(first) =>
      && first in t
      && SelectedAsCovering(t[first], group, path)
      && forall id :: id in t && SelectedAsCovering(t[id], group, path) ==> |t[id].path| <= |t[first].path|
  }

  function NewReason(stored: string, given: string): string {
    if given == "" then stored else given
  }

  // Touch: the row keeps its key, its due time and its options.
  function Touched(row: Row, r: Request): Row {
    row.(source := r.source, eventCount := row.eventCount + 1, lastEventAt := r.now,
         reason := NewReason(row.reason, r.reason))
  }

  predicate SameKey(row: Row, r: Request) {
    row.group == r.group && row.path == r.path && row.mode == r.mode
  }

  function Inserted(r: Request): Row {
    Row(r.group, r.path, r.mode, r.source, r.runAfter, r.now, 1, r.now, r.overwrite, r.reason)
  }

  // ON CONFLICT DO UPDATE: the due time only moves later, the options are replaced.
  function Merged(row: Row, r: Request): Row {
    row.(source := r.source, runAfter := if row.runAfter < r.runAfter then r.runAfter else row.runAfter,
         eventCount := row.eventCount + 1, lastEventAt := r.now, overwrite := r.overwrite,
         reason := NewReason(row.reason, r.reason))
  }

  ghost function Upserted(t: Table, r: Request, newId: nat): Table {
    if exists id :: id in t && SameKey(t[id], r) then
      var id :| id in t && SameKey(t[id], r);
      t[id := Merged(t[id], r)]
    else t[newId := Inserted(r)]
  }

  // WHERE clause of DeleteCovered.
  predicate SelectedAsCovered(row: Row, group: Group, path: string) {
    && row.group == group
    && (row.path == path || Matches(row.path, if path != "/" then Subtree(path) else "/%"))
    && !(row.path == path && row.mode.Recursive?)
  }

  function WithoutCovered(t: Table, group: Group, path: string): Table {
    map id | id in t && !SelectedAsCovered(t[id], group, path) :: t[id]
  }

  // What is left after the upsert, and after DeleteCovered for a recursive request.
  ghost function Placed(t: Table, r: Request, newId: nat): Table {
    if r.mode.Recursive? then WithoutCovered(Upserted(t, r, newId), r.group, r.path) else Upserted(t, r, newId)
  }

  // enqueueScan on a normalised request, given what FindCoveringRecursive returned.
  ghost function Enqueued(t: Table, r: Request, newId: nat, covering: Option<nat>): Table
    requires covering.Some? ==> covering.value in t
  {
    if Absorbed(t, r, covering) then
      t[covering.value := Touched(t[covering.value], r)]
    else
      Placed(t, r, newId)
  }

  // The guard of the branch that only touches the covering row.
  ghost predicate Absorbed(t: Table, r: Request, covering: Option<nat>)
    requires covering.Some? ==> covering.value in t
  {
    covering.Some? && (r.mode != Recursive || t[covering.value].path != r.path)
  }

  function Normalized(r: Request): Request {
    r.(path := Normalize(r.path))
  }

  // ORDER BY run_after, created_at, id.
  predicate Earlier(t: Table, a: nat, b: nat)
    requires a in t && b in t
  {
    t[a].runAfter < t[b].runAfter
    || (t[a].runAfter == t[b].runAfter
        && (t[a].createdAt < t[b].createdAt || (t[a].createdAt == t[b].createdAt && a <= b)))
  }

  predicate Due(row: Row, now: nat, excluded: set<string>) {
    row.runAfter <= now && row.group.providerId !in excluded
  }

  // What FirstDueExcludingProviders returns.
  ghost predicate FirstDue(t: Table, now: nat, excluded: set<string>, found: Option<nat>) {
    match found
    case None => forall id :: id in t ==> !Due(t[id], now, excluded)
    case Some(first) =>
      && first in t
      && Due(t[first], now, excluded)
      && forall id :: id in t && Due(t[id], now, excluded) ==> Earlier(t, first, id)
  }

  class Repository {
    var rows: Table

    constructor ()
      ensures rows == map[]
    {
      rows := map[];
    }

    method FindCoveringRecursive(group: Group, path: string) returns (found: Option<nat>)
      ensures FirstCovering(rows, group, path, found)
    {
      found := None;
      var ids := rows.Keys;
      while ids != {}
        invariant ids <= rows.Keys
        invariant found.Some? ==> found.value in rows && SelectedAsCovering(rows[found.value], group, path)
        invariant forall id :: id in rows && id !in ids && SelectedAsCovering(rows[id], group, path) ==>
                    found.Some? && |rows[id].path| <= |rows[found.value].path|
      {
        var id :| id in ids;
        ids := ids - {id};
        if SelectedAsCovering(rows[id], group, path)
           && (found.None? || |rows[found.value].path| < |rows[id].path|) {
          found := Some(id);
        }
      }
    }

    method FirstDueExcludingProviders(now: nat, excluded: set<string>) returns (found: Option<nat>)
      ensures FirstDue(rows, now, excluded, found)
      ensures found.None? ==>
                forall id :: id in rows ==> now < rows[id].runAfter || rows[id].group.providerId in excluded
      ensures found.Some? ==>
                && found.value in rows
                && rows[found.value].runAfter <= now && rows[found.value].group.providerId !in excluded
                && forall id :: id in rows && rows[id].runAfter <= now && rows[id].group.providerId !in excluded ==>
                     var first, other := rows[found.value], rows[id];
                     && first.runAfter <= other.runAfter
                     && (first.runAfter == other.runAfter ==> first.createdAt <= other.createdAt)
                     && (first.runAfter == other.runAfter && first.createdAt == other.createdAt ==> found.value <= id)
    {
      found := None;
      var ids := rows.Keys;
      while ids != {}
        invariant ids <= rows.Keys
        invariant found.Some? ==> found.value in rows && Due(rows[found.value], now, excluded)
        invariant forall id :: id in rows && id !in ids && Due(rows[id], now, excluded) ==>
                    found.Some? && Earlier(rows, found.value, id)
      {
        var id :| id in ids;
        ids := ids - {id};
        if Due(rows[id], now, excluded) && (found.None? || !Earlier(rows, found.value, id)) {
          found := Some(id);
        }
      }
    }

    // Touching a row that is gone is an error, and changes nothing. A row that is there
    // keeps its key, its times and its options.
    method Touch(id: nat, r: Request) returns (ok: bool)
      modifies this
      ensures ok <==> id in old(rows)
      ensures rows == if ok then old(rows)[id := Touched(old(rows)[id], r)] else old(rows)
      ensures ok ==> rows[id] == old(rows)[id].(source := r.source, eventCount := old(rows)[id].eventCount + 1,
                                                lastEventAt := r.now, reason := rows[id].reason)
      ensures ok ==> rows[id].reason == old(rows)[id].reason || rows[id].reason == r.reason != ""
      ensures ok && r.reason != "" ==> rows[id].reason == r.reason
    {
      ok := id in rows;
      if ok {
        rows := rows[id := Touched(rows[id], r)];
      }
    }

    // A row with the key of the request is due no earlier than it was and no earlier than
    // the request asks, and counts one event more; without one there is a new row.
    method Upsert(r: Request, newId: nat)
      requires UniqueKeys(rows)
      modifies this
      ensures rows == Upserted(old(rows), r, newId)
      ensures forall id :: id in old(rows) && SameKey(old(rows)[id], r) ==>
                id in rows && MergedInto(old(rows)[id], rows[id], r) && rows == old(rows)[id := rows[id]]
      ensures (forall id :: id in old(rows) ==> !SameKey(old(rows)[id], r)) ==>
                newId in rows && FirstOf(rows[newId], r) && rows == old(rows)[newId := rows[newId]]
    {
      UpsertIsMerge(rows, r, newId);
      hide MergedInto, FirstOf;
      var ids := rows.Keys;
      while ids != {}
        invariant ids <= rows.Keys && rows == old(rows)
        invariant forall id :: id in rows && id !in ids ==> !SameKey(rows[id], r)
      {
        var id :| id in ids;
        if SameKey(rows[id], r) {
          assert forall other :: other in rows && SameKey(rows[other], r) ==> other == id;
          rows := rows[id := Merged(rows[id], r)];
          return;
        }
        ids := ids - {id};
      }
      rows := rows[newId := Inserted(r)];
    }

    method DeleteCovered(group: Group, path: string)
      modifies this
      ensures rows == WithoutCovered(old(rows), group, path)
    {
      rows := map id | id in rows && !SelectedAsCovered(rows[id], group, path) :: rows[id];
    }

    method Delete(id: nat) returns (ok: bool)
      modifies this
      ensures ok <==> id in old(rows)
      ensures rows == old(rows) - {id}
    {
      ok := id in rows;
      rows := rows - {id};
    }

    // enqueueScan, taken as one step.
    method EnqueueScan(request: Request, newId: nat) returns (ok: bool)
      requires UniqueKeys(rows) && newId !in rows
      modifies this
      ensures ok
      ensures exists id :: id in rows && Recorded(old(rows), rows, id, Normalized(request))
      ensures exists covering :: FirstCovering(old(rows), request.group, Normalize(request.path), covering)
                              && rows == Enqueued(old(rows), Normalized(request), newId, covering)
    {
      hide Normalize, SelectedAsCovering;
      var r := Normalized(request);
      var covering := FindCoveringRecursive(r.group, r.path);
      EnqueueRecords(rows, r, newId, covering);
      hide Recorded;
      if covering.Some? && (r.mode != Recursive || rows[covering.value].path != r.path) {
        ok := Touch(covering.value, r);
        return;
      }
      Upsert(r, newId);
      if r.mode == Recursive {
        DeleteCovered(r.group, r.path);
      }
      ok := true;
    }
  }

  // ---- What a merge records ----

  // The row after a request has been merged into it.
  predicate MergedInto(was: Row, row: Row, r: Request) {
    && SameKey(row, r) && SameKey(was, r)
    && was.runAfter <= row.runAfter && r.runAfter <= row.runAfter
    && (row.runAfter == was.runAfter || row.runAfter == r.runAfter)
    && row.createdAt == was.createdAt && row.eventCount == was.eventCount + 1
    && row.lastEventAt == r.now && row.source == r.source && row.overwrite == r.overwrite
    && (if r.reason != "" then row.reason == r.reason else row.reason == was.reason)
  }

  // The row of a request that has none yet.
  predicate FirstOf(row: Row, r: Request) {
    && SameKey(row, r) && row.runAfter == r.runAfter && row.createdAt == r.now == row.lastEventAt
    && row.eventCount == 1 && row.source == r.source && row.overwrite == r.overwrite && row.reason == r.reason
  }

  lemma UpsertIsMerge(t: Table, r: Request, newId: nat)
    requires UniqueKeys(t)
    ensures var after := Upserted(t, r, newId);
            && (forall id :: id in t && SameKey(t[id], r) ==>
                  id in after && MergedInto(t[id], after[id], r) && after == t[id := after[id]])
            && ((forall id :: id in t ==> !SameKey(t[id], r)) ==>
                  newId in after && FirstOf(after[newId], r) && after == t[newId := after[newId]])
  {
    if up :| up in t && SameKey(t[up], r) {
      assert forall id :: id in t && SameKey(t[id], r) ==> id == up;
    }
  }

  // The table records the request in this row: it has the event, and either it was there and
  // only the event is new, or it has the key of the request and is due no earlier than asked.
  ghost predicate Recorded(before: Table, after: Table, id: nat, r: Request)
    requires id in after
  {
    && after[id].group == r.group && after[id].lastEventAt == r.now && after[id].source == r.source
    && (if id in before then after[id].eventCount == before[id].eventCount + 1 && after[id].createdAt == before[id].createdAt
        else after[id].eventCount == 1 && after[id].createdAt == r.now)
    && (|| (id in before && SelectedAsCovering(before[id], r.group, r.path) && after[id].runAfter == before[id].runAfter
            && after[id].path == before[id].path && after[id].mode == before[id].mode)
        || (SameKey(after[id], r) && r.runAfter <= after[id].runAfter))
  }

  lemma EnqueueRecords(t: Table, r: Request, newId: nat, covering: Option<nat>)
    requires UniqueKeys(t) && newId !in t && FirstCovering(t, r.group, r.path, covering)
    ensures var after := Enqueued(t, r, newId, covering); exists id :: id in after && Recorded(t, after, id, r)
  {
    hide Subtree, Matches;
    var after := Enqueued(t, r, newId, covering);
    if Absorbed(t, r, covering) {
      assert Recorded(t, after, covering.value, r);
    } else {
      var id := PlacedRow(t, r, newId);
      assert Recorded(t, after, id, r);
    }
  }

  // A request is absorbed if and only if a recursive row other than one with its own key
  // lies at or above it: such a row is never given its due time or options.
  lemma AbsorbedIff(t: Table, r: Request, covering: Option<nat>)
    requires Inv(t) && FirstCovering(t, r.group, r.path, covering)
    ensures Absorbed(t, r, covering) <==>
              exists id :: id in t && t[id].group == r.group && t[id].mode.Recursive? && Within(r.path, t[id].path)
                        && !SameKey(t[id], r)
  {
    hide Within, SelectedAsCovering, PlainPath;
    forall id | id in t
      ensures SelectedAsCovering(t[id], r.group, r.path)
         <==> t[id].group == r.group && t[id].mode.Recursive? && Within(r.path, t[id].path)
    {
      CoveringClauseExact(t[id], r.group, r.path);
    }
    forall id | id in t && covering.Some? && SelectedAsCovering(t[id], r.group, r.path) ensures id == covering.value {
      CoveringRowIsUnique(t, r.group, r.path, id, covering.value);
    }
  }

  // The row in which a request that is not absorbed ends up, in any table.
  lemma PlacedRow(t: Table, r: Request, newId: nat) returns (id: nat)
    requires UniqueKeys(t) && newId !in t
    ensures id in Placed(t, r, newId)
    ensures if id in t then MergedInto(t[id], Placed(t, r, newId)[id], r) else id == newId && FirstOf(Placed(t, r, newId)[id], r)
  {
    id := UpsertedRow(t, r, newId);
    UpsertIsMerge(t, r, newId);
    if id !in t {
      assert Upserted(t, r, newId) == t[newId := Upserted(t, r, newId)[newId]];
    }
    hide Upserted, Matches;
  }

  // ---- What covering means ----

  // path is ancestor itself or lies below it.
  predicate Within(path: string, ancestor: string) {
    ancestor == "/" || path == ancestor || ancestor + "/" <= path
  }

  // A scan of the row does all the work the request asks for.
  predicate Covers(row: Row, group: Group, path: string, mode: Mode) {
    row.group == group && ((row.path == path && row.mode == mode) || (row.mode.Recursive? && Within(path, row.path)))
  }

  ghost predicate Holds(t: Table, group: Group, path: string, mode: Mode) {
    exists id :: id in t && Covers(t[id], group, path, mode)
  }

  ghost predicate UniqueKeys(t: Table) {
    forall a, b :: a in t && b in t && t[a].group == t[b].group && t[a].path == t[b].path && t[a].mode == t[b].mode
                   ==> a == b
  }

  // No recursive row lies at or above another row of its group.
  ghost predicate Antichain(t: Table) {
    forall a, b :: a in t && b in t && a != b && t[a].group == t[b].group && t[a].mode.Recursive?
                   ==> !Within(t[b].path, t[a].path)
  }

  predicate PlainPath(path: string) {
    path != "" && path[0] == '/' && Plain(path)
  }

  ghost predicate Inv(t: Table) {
    UniqueKeys(t) && Antichain(t) && forall id :: id in t ==> PlainPath(t[id].path)
  }

  lemma WithinTransitive(a: string, b: string, c: string)
    requires b != "" && Within(a, b) && Within(b, c) && c != ""
    ensures Within(a, c)
  {
  }

  // On plain paths the two WHERE clauses mean what they are meant to.
  lemma CoveringClauseExact(row: Row, group: Group, path: string)
    requires PlainPath(row.path)
    ensures SelectedAsCovering(row, group, path) <==> row.group == group && row.mode.Recursive? && Within(path, row.path)
  {
    PlainSubtree(path, row.path);
  }

  lemma CoveredClauseExact(row: Row, group: Group, path: string)
    requires PlainPath(path) && row.path != "" && row.path[0] == '/'
    ensures SelectedAsCovered(row, group, path)
       <==> row.group == group && Within(row.path, path) && !(row.path == path && row.mode.Recursive?)
  {
    PlainSubtree(row.path, path);
    SlashPercent(row.path);
  }

  // A request has at most one covering row, so "longest first" never decides anything.
  lemma CoveringRowIsUnique(t: Table, group: Group, path: string, a: nat, b: nat)
    requires Inv(t) && a in t && b in t
    requires SelectedAsCovering(t[a], group, path) && SelectedAsCovering(t[b], group, path)
    ensures a == b
  {
    CoveringClauseExact(t[a], group, path);
    CoveringClauseExact(t[b], group, path);
    var pa, pb := t[a].path, t[b].path;
    assert Within(pa, pb) || Within(pb, pa) by { CoversFormChain(path, pa, pb); }
  }

  lemma CoversFormChain(path: string, a: string, b: string)
    requires Within(path, a) && Within(path, b)
    ensures Within(a, b) || Within(b, a)
  {
    if a != "/" && b != "/" && path != a && path != b {
      if |a| == |b| {
        assert a == path[..|a|] == b;
      } else if |a| < |b| {
        assert a + "/" == path[..|a| + 1] == b[..|a| + 1];
      } else {
        assert b + "/" == path[..|b| + 1] == a[..|b| + 1];
      }
    }
  }

  // ---- Each step keeps the invariant and every covered request ----

  // The row the request ends up in.
  lemma UpsertedRow(t: Table, r: Request, newId: nat) returns (id: nat)
    requires UniqueKeys(t) && newId !in t
    ensures id in Upserted(t, r, newId) && SameKey(Upserted(t, r, newId)[id], r)
    ensures Upserted(t, r, newId)[id].overwrite == r.overwrite
    ensures id in t ==> SameKey(t[id], r)
    ensures id !in t ==> forall other :: other in t ==> !SameKey(t[other], r)
    ensures forall other :: other in t ==> other in Upserted(t, r, newId)
    ensures forall other :: other in Upserted(t, r, newId) && other != id ==>
              other in t && Upserted(t, r, newId)[other] == t[other]
  {
    if exists k :: k in t && SameKey(t[k], r) {
      id :| id in t && SameKey(t[id], r);
      assert forall k :: k in t && SameKey(t[k], r) ==> k == id;
    } else {
      id := newId;
    }
  }

  // A request that is not absorbed meets no recursive row above it.
  lemma NotAbsorbed(t: Table, r: Request, covering: Option<nat>, other: nat)
    requires Inv(t) && FirstCovering(t, r.group, r.path, covering) && !Absorbed(t, r, covering)
    requires other in t && t[other].group == r.group && t[other].mode.Recursive? && Within(r.path, t[other].path)
    ensures SameKey(t[other], r)
  {
    CoveringClauseExact(t[other], r.group, r.path);
    CoveringRowIsUnique(t, r.group, r.path, other, covering.value);
  }

  lemma TouchKeepsInv(t: Table, r: Request, covering: nat)
    requires Inv(t) && covering in t
    ensures Inv(t[covering := Touched(t[covering], r)])
  {
    var after := t[covering := Touched(t[covering], r)];
    assert forall id :: id in after ==> id in t && (after[id].group, after[id].path, after[id].mode)
                                                   == (t[id].group, t[id].path, t[id].mode);
  }

  lemma PlacedRows(t: Table, r: Request, newId: nat) returns (id: nat)
    requires Inv(t) && newId !in t && PlainPath(r.path)
    ensures id in Placed(t, r, newId) && SameKey(Placed(t, r, newId)[id], r)
    ensures id in t ==> SameKey(t[id], r)
    ensures id !in t ==> forall other :: other in t ==> !SameKey(t[other], r)
    ensures forall other :: other in Placed(t, r, newId) && other != id ==>
              other in t && Placed(t, r, newId)[other] == t[other]
    ensures r.mode.Recursive? ==>
              forall other :: other in Placed(t, r, newId) && other != id && t[other].group == r.group ==>
                !Within(t[other].path, r.path)
  {
    id := UpsertedRow(t, r, newId);
    hide Upserted;
    forall other | other in Placed(t, r, newId) && other != id && r.mode.Recursive? && t[other].group == r.group
      ensures !Within(t[other].path, r.path)
    {
      CoveredClauseExact(t[other], r.group, r.path);
    }
  }

  // A table with one row placed keeps the invariant when the row fits.
  lemma PlacingKeepsInv(t: Table, after: Table, id: nat, r: Request)
    requires Inv(t) && PlainPath(r.path)
    requires id in after && SameKey(after[id], r)
    requires if id in t then SameKey(t[id], r) else forall other :: other in t ==> !SameKey(t[other], r)
    requires forall other :: other in after && other != id ==> other in t && after[other] == t[other]
    requires forall a :: a in t && t[a].group == r.group && t[a].mode.Recursive? && Within(r.path, t[a].path) ==>
               SameKey(t[a], r)
    requires r.mode.Recursive? ==>
               forall other :: other in after && other != id && t[other].group == r.group ==>
                 !Within(t[other].path, r.path)
    ensures Inv(after)
  {
    hide Within, PlainPath;
    assert UniqueKeys(after);
    assert Antichain(after);
  }

  lemma PlacedKeepsInv(t: Table, r: Request, newId: nat, covering: Option<nat>)
    requires Inv(t) && newId !in t && PlainPath(r.path)
    requires FirstCovering(t, r.group, r.path, covering) && !Absorbed(t, r, covering)
    ensures Inv(Placed(t, r, newId))
  {
    var id := PlacedRows(t, r, newId);
    hide Placed;
    forall a | a in t && t[a].group == r.group && t[a].mode.Recursive? && Within(r.path, t[a].path)
      ensures SameKey(t[a], r)
    {
      NotAbsorbed(t, r, covering, a);
    }
    PlacingKeepsInv(t, Placed(t, r, newId), id, r);
  }

  // enqueueScan keeps the merge key unique and the recursive rows an antichain.
  lemma EnqueueKeepsInv(t: Table, r: Request, newId: nat, covering: Option<nat>)
    requires Inv(t) && newId !in t && PlainPath(r.path)
    requires FirstCovering(t, r.group, r.path, covering)
    ensures Inv(Enqueued(t, r, newId, covering))
  {
    if Absorbed(t, r, covering) {
      TouchKeepsInv(t, r, covering.value);
    } else {
      PlacedKeepsInv(t, r, newId, covering);
    }
  }

  // The request is covered by a pending row when enqueueScan returns.
  lemma EnqueueCovers(t: Table, r: Request, newId: nat, covering: Option<nat>)
    requires Inv(t) && newId !in t && PlainPath(r.path)
    requires FirstCovering(t, r.group, r.path, covering)
    ensures Holds(Enqueued(t, r, newId, covering), r.group, r.path, r.mode)
  {
    var after := Enqueued(t, r, newId, covering);
    if Absorbed(t, r, covering) {
      CoveringClauseExact(t[covering.value], r.group, r.path);
      assert Covers(after[covering.value], r.group, r.path, r.mode);
    } else {
      var id := UpsertedRow(t, r, newId);
      assert Covers(after[id], r.group, r.path, r.mode);
    }
  }

  // The row goes when the request is placed: it is another one of the group at or below the
  // path of a recursive request.
  predicate Replaces(r: Request, row: Row) {
    r.mode.Recursive? && row.group == r.group && Within(row.path, r.path) && !SameKey(row, r)
  }

  // All that enqueueScan does to the table: one row records the request, and of the others
  // exactly those go that it replaces, none if it is absorbed; the rest stay as they are.
  lemma EnqueueChanges(t: Table, r: Request, newId: nat, covering: Option<nat>) returns (id: nat)
    requires Inv(t) && newId !in t && PlainPath(r.path)
    requires FirstCovering(t, r.group, r.path, covering)
    ensures var after := Enqueued(t, r, newId, covering);
            && id in after && Recorded(t, after, id, r)
            && (forall other :: other in t && other != id ==>
                  (other in after <==> Absorbed(t, r, covering) || !Replaces(r, t[other])))
            && (forall other :: other in after && other != id ==> other in t && after[other] == t[other])
  {
    hide Subtree, Matches;
    var after := Enqueued(t, r, newId, covering);
    if Absorbed(t, r, covering) {
      id := covering.value;
      assert Recorded(t, after, id, r);
    } else {
      id := PlacedRow(t, r, newId);
      assert Recorded(t, after, id, r);
      var up := UpsertedRow(t, r, newId);
      hide Upserted, Within, Inv;
      forall other | other in t
        ensures SelectedAsCovered(t[other], r.group, r.path)
           <==> t[other].group == r.group && Within(t[other].path, r.path)
                && !(t[other].path == r.path && t[other].mode.Recursive?)
      {
        PathsArePlain(t, other);
        CoveredClauseExact(t[other], r.group, r.path);
      }
      hide SelectedAsCovered, Recorded;
    }
  }

  lemma PathsArePlain(t: Table, id: nat)
    requires Inv(t) && id in t
    ensures t[id].path != "" && t[id].path[0] == '/'
  {
    assert PlainPath(t[id].path);
  }

  // Whatever some row covered before, some row covers after: merging loses no scan.
  lemma EnqueueKeepsCover(t: Table, r: Request, newId: nat, covering: Option<nat>, group: Group, path: string, mode: Mode)
    requires Inv(t) && newId !in t && PlainPath(r.path)
    requires FirstCovering(t, r.group, r.path, covering)
    requires Holds(t, group, path, mode)
    ensures Holds(Enqueued(t, r, newId, covering), group, path, mode)
  {
    var after := Enqueued(t, r, newId, covering);
    var kept :| kept in t && Covers(t[kept], group, path, mode);
    if Absorbed(t, r, covering) {
      assert Covers(after[kept], group, path, mode);
    } else {
      var id := UpsertedRow(t, r, newId);
      hide Upserted;
      if r.mode.Recursive? && SelectedAsCovered(t[kept], r.group, r.path) && kept != id {
        CoveredClauseExact(t[kept], r.group, r.path);
        WithinTransitive(path, t[kept].path, r.path);
        assert Covers(after[id], group, path, mode);
      } else {
        assert Covers(after[kept], group, path, mode);
      }
    }
  }

  // A request for overwriting reaches a row that overwrites unless it was absorbed by
  // one that does not.
  lemma OverwriteKeptIff(t: Table, r: Request, newId: nat, covering: Option<nat>)
    requires Inv(t) && newId !in t && PlainPath(r.path) && r.overwrite
    requires FirstCovering(t, r.group, r.path, covering)
    ensures var after := Enqueued(t, r, newId, covering);
            (exists id :: id in after && Covers(after[id], r.group, r.path, r.mode) && after[id].overwrite)
              <==> (Absorbed(t, r, covering) ==> t[covering.value].overwrite)
  {
    var after := Enqueued(t, r, newId, covering);
    if Absorbed(t, r, covering) {
      var c := covering.value;
      CoveringClauseExact(t[c], r.group, r.path);
      assert Covers(after[c], r.group, r.path, r.mode);
      forall id | id in after && Covers(after[id], r.group, r.path, r.mode) ensures id == c {
        if t[id].mode.Recursive? && Within(r.path, t[id].path) {
          CoveringClauseExact(t[id], r.group, r.path);
          CoveringRowIsUnique(t, r.group, r.path, id, c);
        }
      }
    } else {
      var id := UpsertedRow(t, r, newId);
      assert Covers(after[id], r.group, r.path, r.mode);
    }
  }

  // ---- Whole runs ----

  datatype Action =
    | Enqueue(request: Request, newId: nat, covering: Option<nat>)
    | Dequeue(id: nat)            // DeleteAndCreateTask
    | Discard(id: nat)            // Delete of an invalid row
    | DropLibrary(libraryId: string)   // ON DELETE CASCADE
    | DropProvider(providerId: string) // ON DELETE CASCADE

  predicate Drops(a: Action, id: nat, row: Row) {
    match a
    case Enqueue(_, _, _) => false
    case Dequeue(gone) => id == gone
    case Discard(gone) => id == gone
    case DropLibrary(libraryId) => row.group.libraryId == libraryId
    case DropProvider(providerId) => row.group.providerId == providerId
  }

  ghost predicate Step(t: Table, a: Action, t': Table) {
    match a
    case Enqueue(request, newId, covering) =>
      var r := Normalized(request);
      && newId !in t
      && PlainPath(r.path)
      && FirstCovering(t, r.group, r.path, covering)
      && t' == Enqueued(t, r, newId, covering)
    case _ => t' == map id | id in t && !Drops(a, id, t[id]) :: t[id]
  }

  // A removal takes its own row, or all rows of its library or provider, and nothing else.
  lemma RemovalIsExact(t: Table, a: Action, t': Table, id: nat)
    requires Step(t, a, t') && !a.Enqueue? && id in t
    ensures id in t' ==> t'[id] == t[id]
    ensures a.Dequeue? || a.Discard? ==> (id in t' <==> id != a.id)
    ensures a.DropLibrary? ==> (id in t' <==> t[id].group.libraryId != a.libraryId)
    ensures a.DropProvider? ==> (id in t' <==> t[id].group.providerId != a.providerId)
  {
  }

  ghost predicate Run(states: seq<Table>, actions: seq<Action>) {
    && |states| == |actions| + 1
    && Inv(states[0])
    && forall i :: 0 <= i < |actions| ==> Step(states[i], actions[i], states[i + 1])
  }

  // The action takes a row that covers the request out of the queue.
  ghost predicate TakesCover(t: Table, a: Action, group: Group, path: string, mode: Mode) {
    exists id :: id in t && Drops(a, id, t[id]) && Covers(t[id], group, path, mode)
  }

  lemma StepKeepsInv(t: Table, a: Action, t': Table)
    requires Inv(t) && Step(t, a, t')
    ensures Inv(t')
  {
    if a.Enqueue? {
      EnqueueKeepsInv(t, Normalized(a.request), a.newId, a.covering);
    }
  }

  lemma {:induction false} RunKeepsInv(states: seq<Table>, actions: seq<Action>, i: nat)
    requires Run(states, actions) && i < |states|
    ensures Inv(states[i])
  {
    if i > 0 {
      RunKeepsInv(states, actions, i - 1);
      StepKeepsInv(states[i - 1], actions[i - 1], states[i]);
    }
  }

  lemma StepKeepsCover(t: Table, a: Action, t': Table, group: Group, path: string, mode: Mode)
    requires Inv(t) && Step(t, a, t') && Holds(t, group, path, mode)
    ensures Holds(t', group, path, mode) || TakesCover(t, a, group, path, mode)
  {
    if a.Enqueue? {
      EnqueueKeepsCover(t, Normalized(a.request), a.newId, a.covering, group, path, mode);
    } else {
      var id :| id in t && Covers(t[id], group, path, mode);
      if !Drops(a, id, t[id]) {
        assert id in t' && t'[id] == t[id];
      }
    }
  }

  lemma EnqueueStepCovers(t: Table, a: Action, t': Table)
    requires Inv(t) && Step(t, a, t') && a.Enqueue?
    ensures var r := Normalized(a.request); Holds(t', r.group, r.path, r.mode)
  {
    EnqueueCovers(t, Normalized(a.request), a.newId, a.covering);
  }

  // In every run, from the moment enqueueScan accepts a request, a pending row covers it
  // until an action takes a covering row out of the queue.
  lemma {:induction false} RequestStaysCovered(states: seq<Table>, actions: seq<Action>, k: nat, j: nat)
    requires Run(states, actions) && k < j < |states| && actions[k].Enqueue?
    ensures var r := Normalized(actions[k].request);
            || Holds(states[j], r.group, r.path, r.mode)
            || exists m :: k < m < j && TakesCover(states[m], actions[m], r.group, r.path, r.mode)
    decreases j
  {
    var r := Normalized(actions[k].request);
    hide Normalized, Step, Inv;
    RunKeepsInv(states, actions, j - 1);
    if j == k + 1 {
      EnqueueStepCovers(states[k], actions[k], states[j]);
    } else {
      RequestStaysCovered(states, actions, k, j - 1);
      if Holds(states[j - 1], r.group, r.path, r.mode) {
        StepKeepsCover(states[j - 1], actions[j - 1], states[j], r.group, r.path, r.mode);
      }
    }
  }

  // ---- Due times over whole runs ----

  // What happens to a row that stays: it keeps its key and its creation, counts events, and
  // is not due earlier.
  predicate Ages(was: Row, row: Row) {
    && row.group == was.group && row.path == was.path && row.mode == was.mode
    && was.runAfter <= row.runAfter && row.createdAt == was.createdAt && was.eventCount <= row.eventCount
  }

  lemma UpsertAges(t: Table, r: Request, newId: nat)
    requires UniqueKeys(t) && newId !in t
    ensures forall id :: id in t ==> id in Upserted(t, r, newId) && Ages(t[id], Upserted(t, r, newId)[id])
  {
    UpsertIsMerge(t, r, newId);
    if up :| up in t && SameKey(t[up], r) {
      assert MergedInto(t[up], Upserted(t, r, newId)[up], r);
    }
    hide Upserted;
  }

  lemma StepAges(t: Table, a: Action, t': Table, id: nat)
    requires UniqueKeys(t) && Step(t, a, t') && id in t && id in t'
    ensures Ages(t[id], t'[id])
  {
    if a.Enqueue? {
      var r := Normalized(a.request);
      hide Normalized, FirstCovering;
      if !Absorbed(t, r, a.covering) {
        UpsertAges(t, r, a.newId);
        hide Upserted, Matches;
      }
    }
  }

  ghost predicate StaysPending(states: seq<Table>, i: nat, j: nat, id: nat)
    requires j < |states|
  {
    forall n :: i <= n <= j ==> id in states[n]
  }

  // While a row stays pending its due time never moves earlier.
  lemma {:induction false} DueTimeOnlyMovesLater(states: seq<Table>, actions: seq<Action>, i: nat, j: nat, id: nat)
    requires Run(states, actions) && i <= j < |states| && StaysPending(states, i, j, id)
    ensures Ages(states[i][id], states[j][id])
    decreases j
  {
    if i < j {
      var n := j - 1;
      assert Step(states[n], actions[n], states[n + 1]);
      RunKeepsInv(states, actions, n);
      assert UniqueKeys(states[n]);
      hide Step, Inv, UniqueKeys;
      DueTimeOnlyMovesLater(states, actions, i, n, id);
      StepAges(states[n], actions[n], states[j], id);
    }
  }

  // A request that is not absorbed sits in a row with its key that, as long as it stays, is
  // not due before the request asks.
  lemma RequestIsDebounced(states: seq<Table>, actions: seq<Action>, k: nat) returns (id: nat)
    requires Run(states, actions) && k < |actions| && actions[k].Enqueue?
    requires var a := actions[k];
             (a.covering.Some? ==> a.covering.value in states[k]) && !Absorbed(states[k], Normalized(a.request), a.covering)
    ensures id in states[k + 1] && SameKey(states[k + 1][id], Normalized(actions[k].request))
    ensures forall j :: k < j < |states| && StaysPending(states, k + 1, j, id) ==>
              actions[k].request.runAfter <= states[j][id].runAfter
  {
    var a := actions[k];
    var r := Normalized(a.request);
    assert Step(states[k], a, states[k + 1]);
    RunKeepsInv(states, actions, k);
    assert r.runAfter == a.request.runAfter && UniqueKeys(states[k]);
    id := PlacedRow(states[k], r, a.newId);
    hide Step, Inv, Normalized, Placed;
    forall j | k < j < |states| && StaysPending(states, k + 1, j, id) ensures r.runAfter <= states[j][id].runAfter {
      DueTimeOnlyMovesLater(states, actions, k + 1, j, id);
    }
  }

  // ---- Overwriting over whole runs ----

  // Some row that overwrites covers the request.
  ghost predicate Overwrites(t: Table, group: Group, path: string, mode: Mode) {
    exists id :: id in t && Covers(t[id], group, path, mode) && t[id].overwrite
  }

  // The row loses its option to the request, or the row itself.
  predicate Overrules(r: Request, row: Row) {
    row.group == r.group && (SameKey(row, r) || (r.mode.Recursive? && Within(row.path, r.path)))
  }

  // After a request that is not absorbed, a request is overwritten if and only if the new
  // row does it or a row does that the new one does not overrule.
  lemma PlacedOverwritesIff(t: Table, r: Request, newId: nat, covering: Option<nat>, group: Group, path: string, mode: Mode)
    requires Inv(t) && newId !in t && PlainPath(r.path)
    requires FirstCovering(t, r.group, r.path, covering) && !Absorbed(t, r, covering)
    ensures Overwrites(Enqueued(t, r, newId, covering), group, path, mode) <==>
              || (r.overwrite && Covers(Inserted(r), group, path, mode))
              || (exists id :: id in t && Covers(t[id], group, path, mode) && t[id].overwrite && !Overrules(r, t[id]))
  {
    var after := Enqueued(t, r, newId, covering);
    var up := UpsertedRow(t, r, newId);
    var mid := Upserted(t, r, newId);
    forall id | id in t && id != up
      ensures id in after && after[id] == t[id] <==> !Overrules(r, t[id])
      ensures id in after ==> after[id] == t[id]
    {
      CoveredClauseExact(t[id], r.group, r.path);
    }
    hide Matches, Upserted, SelectedAsCovered, Within;
    assert up in after && after[up] == mid[up] && mid[up].overwrite == r.overwrite;
    assert Covers(mid[up], group, path, mode) <==> Covers(Inserted(r), group, path, mode);
  }

  // The step leaves no overwriting row over the request: it removes each of them, or a
  // request that is not absorbed overrules each and does not overwrite in its place.
  ghost predicate DropsOverwrite(t: Table, a: Action, group: Group, path: string, mode: Mode) {
    if a.Enqueue? then
      var r := Normalized(a.request);
      && (a.covering.Some? ==> a.covering.value in t)
      && !Absorbed(t, r, a.covering)
      && !(r.overwrite && Covers(Inserted(r), group, path, mode))
      && forall id :: id in t && Covers(t[id], group, path, mode) && t[id].overwrite ==> Overrules(r, t[id])
    else
      forall id :: id in t && Covers(t[id], group, path, mode) && t[id].overwrite ==> Drops(a, id, t[id])
  }

  lemma StepKeepsOverwriteIff(t: Table, a: Action, t': Table, group: Group, path: string, mode: Mode)
    requires Inv(t) && Step(t, a, t') && Overwrites(t, group, path, mode)
    ensures Overwrites(t', group, path, mode) <==> !DropsOverwrite(t, a, group, path, mode)
  {
    if a.Enqueue? {
      var r := Normalized(a.request);
      hide Normalized, Inv, FirstCovering, Overrules;
      if Absorbed(t, r, a.covering) {
        var id :| id in t && Covers(t[id], group, path, mode) && t[id].overwrite;
        assert id in t' && Covers(t'[id], group, path, mode) && t'[id].overwrite;
      } else {
        PlacedOverwritesIff(t, r, a.newId, a.covering, group, path, mode);
        hide Placed, Upserted;
      }
    } else {
      hide Covers, Drops, Inv;
      assert forall id :: id in t' <==> id in t && !Drops(a, id, t[id]);
      assert forall id :: id in t' ==> t'[id] == t[id];
    }
  }

  ghost predicate NoDrop(states: seq<Table>, actions: seq<Action>, k: nat, j: nat, group: Group, path: string, mode: Mode)
    requires |states| == |actions| + 1 && j <= |actions|
  {
    forall m :: k <= m < j ==> !DropsOverwrite(states[m], actions[m], group, path, mode)
  }

  ghost predicate OverwritesThroughout(states: seq<Table>, k: nat, j: nat, group: Group, path: string, mode: Mode)
    requires j < |states|
  {
    forall n :: k <= n <= j ==> Overwrites(states[n], group, path, mode)
  }

  // Over a run, a request that is to be overwritten stays so if and only if no step in
  // between drops its last overwriting row.
  lemma {:induction false} OverwriteStaysIff(
    states: seq<Table>, actions: seq<Action>, k: nat, j: nat, group: Group, path: string, mode: Mode)
    requires Run(states, actions) && k <= j < |states| && Overwrites(states[k], group, path, mode)
    ensures OverwritesThroughout(states, k, j, group, path, mode) <==> NoDrop(states, actions, k, j, group, path, mode)
    decreases j
  {
    hide Step, Inv, DropsOverwrite, Overwrites;
    if k < j {
      var n := j - 1;
      OverwriteStaysIff(states, actions, k, n, group, path, mode);
      assert Step(states[n], actions[n], states[n + 1]);
      if Overwrites(states[n], group, path, mode) {
        RunKeepsInv(states, actions, n);
        StepKeepsOverwriteIff(states[n], actions[n], states[j], group, path, mode);
      }
      assert OverwritesThroughout(states, k, n, group, path, mode) <== OverwritesThroughout(states, k, j, group, path, mode);
    }
  }

  // ---- Where the guarantee ends ----

  // With any paths, metacharacters included, and any rows: the request is covered when
  // enqueueScan returns unless it was absorbed by a row that the pattern selected though
  // no row covers the request.
  lemma EnqueueCoversIff(t: Table, r: Request, newId: nat, covering: Option<nat>)
    requires UniqueKeys(t) && newId !in t && (covering.Some? ==> covering.value in t)
    ensures Holds(Enqueued(t, r, newId, covering), r.group, r.path, r.mode)
       <==> (Absorbed(t, r, covering) ==> Holds(t, r.group, r.path, r.mode))
  {
    var after := Enqueued(t, r, newId, covering);
    if Absorbed(t, r, covering) {
      assert forall id :: id in t ==>
        (Covers(after[id], r.group, r.path, r.mode) <==> Covers(t[id], r.group, r.path, r.mode));
    } else {
      var id := UpsertedRow(t, r, newId);
      assert Covers(after[id], r.group, r.path, r.mode);
    }
  }

  lemma UnderscoreMatchesAnything()
    ensures Matches("/abc/d", Subtree("/a_c"))
  {
    SlashPercent("/d");
    PlainHead("/d", "c", "/%");
    assert "bc/d"[1..] == "c" + "/d" && "_c/%"[1..] == "c" + "/%";
    assert Matches("bc/d", "_c/%");
    PlainHead("bc/d", "/a", "_c/%");
    assert "/abc/d" == "/a" + "bc/d" && Subtree("/a_c") == "/a" + "_c/%";
  }

  // An underscore in a queued path makes enqueueScan absorb a request nothing covers.
  lemma RequestLostToUnderscore(group: Group)
    ensures var t: Table := map[0 := Row(group, "/a_c", Recursive, "watch", 0, 0, 1, 0, false, "")];
            var r := Request(group, "/abc/d", CurrentLevel, "webhook", 0, 0, false, "");
            && FirstCovering(t, group, r.path, Some(0))
            && !Holds(Enqueued(t, r, 1, Some(0)), group, r.path, r.mode)
  {
    UnderscoreMatchesAnything();
    hide Matches, Subtree;
    assert !("/a_c" + "/" <= "/abc/d") by { assert ("/a_c" + "/")[2] == '_'; }
  }

  // The same pattern destroys an accepted request: scanning "/a_c" recursively deletes the
  // pending row for "/abc/d".
  lemma RequestDestroyedByUnderscore(group: Group)
    ensures var t: Table := map[0 := Row(group, "/abc/d", CurrentLevel, "webhook", 0, 0, 1, 0, false, "")];
            var r := Request(group, "/a_c", Recursive, "watch", 0, 0, false, "");
            && FirstCovering(t, group, r.path, None)
            && Holds(t, group, "/abc/d", CurrentLevel)
            && !Holds(Enqueued(t, r, 1, None), group, "/abc/d", CurrentLevel)
  {
    UnderscoreMatchesAnything();
    hide Matches, Subtree;
    var t: Table := map[0 := Row(group, "/abc/d", CurrentLevel, "webhook", 0, 0, 1, 0, false, "")];
    var r := Request(group, "/a_c", Recursive, "watch", 0, 0, false, "");
    assert Covers(t[0], group, "/abc/d", CurrentLevel);
    assert !("/a_c" + "/" <= "/abc/d") by { assert ("/a_c" + "/")[2] == '_'; }
    assert "/abc/d"[2] == 'b' && "/a_c"[2] == '_';
    assert !SameKey(t[0], r);
    assert Upserted(t, r, 1) == t[1 := Inserted(r)];
  }

  // An absorbed request to overwrite is lost, though the request itself is covered.
  lemma OverwriteLost(group: Group)
    ensures var t: Table := map[0 := Row(group, "/a", Recursive, "schedule", 0, 0, 1, 0, false, "")];
            var r := Request(group, "/a/b", CurrentLevel, "manual", 0, 0, true, "");
            && FirstCovering(t, group, r.path, Some(0))
            && Holds(Enqueued(t, r, 1, Some(0)), group, r.path, r.mode)
            && forall id :: id in Enqueued(t, r, 1, Some(0)) ==> !Enqueued(t, r, 1, Some(0))[id].overwrite
  {
    PlainSubtree("/a/b", "/a");
    hide Matches, Subtree;
    var t: Table := map[0 := Row(group, "/a", Recursive, "schedule", 0, 0, 1, 0, false, "")];
    var r := Request(group, "/a/b", CurrentLevel, "manual", 0, 0, true, "");
    assert "/a" + "/" <= "/a/b";
    assert Covers(Enqueued(t, r, 1, Some(0))[0], group, r.path, r.mode);
  }

  // ---- Deleting covered rows ----

  predicate Rooted(path: string) {
    path != "" && path[0] == '/'
  }

  ghost predicate RootedRows(t: Table) {
    forall id :: id in t ==> Rooted(t[id].path)
  }

  lemma CoversTransitive(a: Row, b: Row, group: Group, path: string, mode: Mode)
    requires Rooted(a.path) && Rooted(b.path)
    requires Covers(a, b.group, b.path, b.mode) && Covers(b, group, path, mode)
    ensures Covers(a, group, path, mode)
  {
  }

  // Deleting rows loses no request if and only if each of them is covered by one that stays.
  ghost predicate DeletesOnlyCovered(t: Table, doomed: set<nat>) {
    forall id :: id in t && id in doomed ==>
      exists other :: other in t && other !in doomed && Covers(t[other], t[id].group, t[id].path, t[id].mode)
  }

  ghost predicate KeepsCovers(before: Table, after: Table) {
    forall g, p, m :: Holds(before, g, p, m) ==> Holds(after, g, p, m)
  }

  lemma DeletionIsLosslessIff(t: Table, doomed: set<nat>)
    requires RootedRows(t)
    ensures KeepsCovers(t, t - doomed) <==> DeletesOnlyCovered(t, doomed)
  {
    var after := t - doomed;
    if KeepsCovers(t, after) {
      forall id | id in t && id in doomed
        ensures exists other :: other in t && other !in doomed && Covers(t[other], t[id].group, t[id].path, t[id].mode)
      {
        assert Covers(t[id], t[id].group, t[id].path, t[id].mode);
        assert Holds(after, t[id].group, t[id].path, t[id].mode);
      }
    }
    if DeletesOnlyCovered(t, doomed) {
      forall g, p, m | Holds(t, g, p, m) ensures Holds(after, g, p, m) {
        var id :| id in t && Covers(t[id], g, p, m);
        if id in doomed {
          var other :| other in t && other !in doomed && Covers(t[other], t[id].group, t[id].path, t[id].mode);
          CoversTransitive(t[other], t[id], g, p, m);
          assert other in after;
        } else {
          assert id in after;
        }
      }
    }
  }

  ghost function Doomed(t: Table, group: Group, path: string): set<nat> {
    set id | id in t && SelectedAsCovered(t[id], group, path)
  }

  // DeleteCovered, in any table and whatever ran since the upsert before it, loses no
  // request if and only if a recursive row at or above the path is pending, or no row of
  // the group lies at or below the path.
  lemma DeleteCoveredLosslessIff(t: Table, group: Group, path: string)
    requires (forall id :: id in t ==> PlainPath(t[id].path)) && PlainPath(path)
    ensures KeepsCovers(t, WithoutCovered(t, group, path))
       <==> || Holds(t, group, path, Recursive)
            || (forall id :: id in t && t[id].group == group ==> !Within(t[id].path, path))
  {
    var doomed := Doomed(t, group, path);
    assert WithoutCovered(t, group, path) == t - doomed;
    DeletionIsLosslessIff(t, doomed);
    forall id | id in t
      ensures id in doomed
         <==> t[id].group == group && Within(t[id].path, path) && !(t[id].path == path && t[id].mode.Recursive?)
    {
      CoveredClauseExact(t[id], group, path);
    }
    hide SelectedAsCovered, KeepsCovers, Doomed;
    if Holds(t, group, path, Recursive) {
      RecursiveRowStays(t, group, path, doomed);
    } else {
      OrphansAreUncovered(t, group, path, doomed);
    }
  }

  ghost predicate DoomedBelow(t: Table, group: Group, path: string, doomed: set<nat>) {
    forall id :: id in t ==>
      (id in doomed <==> t[id].group == group && Within(t[id].path, path) && !(t[id].path == path && t[id].mode.Recursive?))
  }

  lemma RecursiveRowStays(t: Table, group: Group, path: string, doomed: set<nat>)
    requires RootedRows(t) && Rooted(path) && DoomedBelow(t, group, path, doomed)
    requires Holds(t, group, path, Recursive)
    ensures DeletesOnlyCovered(t, doomed)
  {
    var top :| top in t && Covers(t[top], group, path, Recursive);
    assert top !in doomed;
    forall id | id in t && id in doomed ensures Covers(t[top], t[id].group, t[id].path, t[id].mode) {
      WithinTransitive(t[id].path, path, t[top].path);
    }
  }

  lemma OrphansAreUncovered(t: Table, group: Group, path: string, doomed: set<nat>)
    requires RootedRows(t) && Rooted(path) && DoomedBelow(t, group, path, doomed)
    requires !Holds(t, group, path, Recursive)
    ensures DeletesOnlyCovered(t, doomed) <==> forall id :: id in t && t[id].group == group ==> !Within(t[id].path, path)
  {
    if lost :| lost in t && t[lost].group == group && Within(t[lost].path, path) {
      assert lost in doomed by {
        if t[lost].path == path && t[lost].mode.Recursive? {
          assert Covers(t[lost], group, path, Recursive);
        }
      }
      forall other | other in t && other !in doomed ensures !Covers(t[other], t[lost].group, t[lost].path, t[lost].mode) {
        if Covers(t[other], t[lost].group, t[lost].path, t[lost].mode) {
          CoversFormChain(t[lost].path, t[other].path, path);
          assert Covers(t[other], group, path, Recursive);
        }
      }
    }
  }

  // A DeleteCovered whose recursive row is gone again deletes a row nothing else covers.
  lemma OrphanedDeleteLoses(group: Group)
    ensures var t: Table := map[0 := Row(group, "/a/b", CurrentLevel, "webhook", 0, 0, 1, 0, false, "")];
            && Holds(t, group, "/a/b", CurrentLevel)
            && !Holds(WithoutCovered(t, group, "/a"), group, "/a/b", CurrentLevel)
  {
    PlainSubtree("/a/b", "/a");
    assert "/a" + "/" <= "/a/b";
    var t: Table := map[0 := Row(group, "/a/b", CurrentLevel, "webhook", 0, 0, 1, 0, false, "")];
    assert Covers(t[0], group, "/a/b", CurrentLevel);
    hide Matches, Subtree;
    assert WithoutCovered(t, group, "/a") == map[];
  }

  // ---- Any paths ----

  lemma TouchKeepsCovers(t: Table, r: Request, c: nat)
    requires c in t
    ensures KeepsCovers(t, t[c := Touched(t[c], r)])
  {
    var after := t[c := Touched(t[c], r)];
    forall g, p, m | Holds(t, g, p, m) ensures Holds(after, g, p, m) {
      var id :| id in t && Covers(t[id], g, p, m);
      assert Covers(after[id], g, p, m);
    }
  }

  // An upsert keeps the key of every row.
  lemma UpsertKeepsKeys(t: Table, r: Request, newId: nat) returns (id: nat)
    requires UniqueKeys(t) && newId !in t
    ensures id in Upserted(t, r, newId) && SameKey(Upserted(t, r, newId)[id], r)
    ensures Extends(t, Upserted(t, r, newId), id)
    ensures id in t || id == newId
  {
    id := UpsertedRow(t, r, newId);
    if id !in t {
      assert forall k :: k in t ==> !SameKey(t[k], r);
    }
  }

  lemma UpsertKeepsCovers(t: Table, r: Request, newId: nat)
    requires UniqueKeys(t) && newId !in t
    ensures KeepsCovers(t, Upserted(t, r, newId))
  {
    var up := UpsertKeepsKeys(t, r, newId);
    var after := Upserted(t, r, newId);
    hide Upserted;
    forall g, p, m | Holds(t, g, p, m) ensures Holds(after, g, p, m) {
      var id :| id in t && Covers(t[id], g, p, m);
      assert Covers(after[id], g, p, m);
    }
  }

  // The rows after an upsert, apart from the one it wrote.
  ghost predicate Extends(t: Table, mid: Table, up: nat) {
    && mid.Keys == t.Keys + {up}
    && forall id :: id in t && id in mid ==>
         mid[id].group == t[id].group && mid[id].path == t[id].path && mid[id].mode == t[id].mode
  }

  lemma KeepingEither(t: Table, mid: Table, up: nat, doomed: set<nat>)
    requires Extends(t, mid, up) && up !in doomed && KeepsCovers(t, mid)
    ensures KeepsCovers(t, mid - doomed) <==> KeepsCovers(mid, mid - doomed)
  {
    var after := mid - doomed;
    if KeepsCovers(t, after) {
      forall g, p, m | Holds(mid, g, p, m) ensures Holds(after, g, p, m) {
        var id :| id in mid && Covers(mid[id], g, p, m);
        if id == up {
          assert after[up] == mid[up];
        } else {
          assert Covers(t[id], g, p, m);
          assert Holds(t, g, p, m);
        }
      }
    }
  }

  ghost predicate CoveredElsewhere(t: Table, group: Group, path: string, id: nat)
    requires id in t
  {
    exists other :: other in t && !SelectedAsCovered(t[other], group, path)
                 && Covers(t[other], t[id].group, t[id].path, t[id].mode)
  }

  lemma OnlyOutsideMatters(t: Table, mid: Table, up: nat, r: Request)
    requires Extends(t, mid, up) && SameKey(mid[up], r) && r.mode.Recursive?
    ensures DeletesOnlyCovered(mid, Doomed(mid, r.group, r.path)) <==>
              forall id :: id in t && SelectedAsCovered(t[id], r.group, r.path) && !Within(t[id].path, r.path) ==>
                CoveredElsewhere(t, r.group, r.path, id)
  {
    hide Matches;
    var doomed := Doomed(mid, r.group, r.path);
    assert up !in doomed;
    forall id | id in t && id in doomed
      ensures (exists other :: other in mid && other !in doomed
                            && Covers(mid[other], mid[id].group, mid[id].path, mid[id].mode))
         <==> Within(t[id].path, r.path) || CoveredElsewhere(t, r.group, r.path, id)
    {
      if Within(t[id].path, r.path) {
        assert Covers(mid[up], mid[id].group, mid[id].path, mid[id].mode);
      }
      if CoveredElsewhere(t, r.group, r.path, id) {
        var other :| other in t && !SelectedAsCovered(t[other], r.group, r.path)
                  && Covers(t[other], t[id].group, t[id].path, t[id].mode);
        assert other !in doomed && Covers(mid[other], mid[id].group, mid[id].path, mid[id].mode);
      }
      if other :| other in mid && other !in doomed && Covers(mid[other], mid[id].group, mid[id].path, mid[id].mode) {
        if other in t && !Within(t[id].path, r.path) {
          assert Covers(t[other], t[id].group, t[id].path, t[id].mode);
        }
      }
    }
  }

  // With any rooted paths, metacharacters included: enqueueScan keeps every request covered
  // if and only if each row outside the subtree of a recursive request that the pattern
  // makes it delete is covered by a row it does not delete.
  lemma EnqueueKeepsCoverIff(t: Table, r: Request, newId: nat, covering: Option<nat>)
    requires UniqueKeys(t) && newId !in t && (covering.Some? ==> covering.value in t)
    requires RootedRows(t) && Rooted(r.path)
    ensures KeepsCovers(t, Enqueued(t, r, newId, covering))
       <==> (!Absorbed(t, r, covering) && r.mode.Recursive? ==>
               forall id :: id in t && SelectedAsCovered(t[id], r.group, r.path) && !Within(t[id].path, r.path) ==>
                 CoveredElsewhere(t, r.group, r.path, id))
  {
    hide Matches, CoveredElsewhere;
    if Absorbed(t, r, covering) {
      TouchKeepsCovers(t, r, covering.value);
    } else {
      UpsertKeepsCovers(t, r, newId);
      if r.mode.Recursive? {
        var up := UpsertKeepsKeys(t, r, newId);
        var mid := Upserted(t, r, newId);
        hide Upserted;
        var doomed := Doomed(mid, r.group, r.path);
        assert Enqueued(t, r, newId, covering) == mid - doomed;
        KeepingEither(t, mid, up, doomed);
        DeletionIsLosslessIff(mid, doomed);
        OnlyOutsideMatters(t, mid, up, r);
      }
    }
  }
}
