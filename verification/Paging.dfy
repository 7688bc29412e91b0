/** Keyset paging over the entry table, and the client that follows next_cursor. */
module Paging {
  import opened Wrappers
  import opened Like

  datatype Row = Row(updatedAt: string, providerId: string, path: string)

  datatype Options = Options(
    providerId: string, prefix: string, limit: int,
    cursorUpdatedAt: string, cursorProviderId: string, cursorPath: string)

  datatype Page = Page(items: seq<Row>, hasMore: bool)

  datatype PageError = PartialCursor

  const DEFAULT_LIMIT := 200

  // ---- The order of the listing ----

  // Binary comparison of text.
  predicate Less(a: string, b: string) {
    b != "" && (a == "" || a[0] < b[0] || (a[0] == b[0] && Less(a[1..], b[1..])))
  }

  lemma {:induction false} LessIsTotal(a: string, b: string)
    ensures !(Less(a, b) && Less(b, a))
    ensures !Less(a, b) && !Less(b, a) <==> a == b
    decreases |a|
  {
    if a != "" && b != "" {
      LessIsTotal(a[1..], b[1..]);
      assert a == [a[0]] + a[1..] && b == [b[0]] + b[1..];
    }
  }

  lemma {:induction false} LessIsTransitive(a: string, b: string, c: string)
    requires Less(a, b) && Less(b, c)
    ensures Less(a, c)
    decreases |a|
  {
    if a != "" && a[0] == b[0] == c[0] {
      LessIsTransitive(a[1..], b[1..], c[1..]);
    }
  }

  // The first difference decides, and a text comes before its continuations.
  ghost predicate DiffersAt(a: string, b: string, k: nat) {
    && k <= |a| && k <= |b| && a[..k] == b[..k]
    && ((k == |a| && k < |b|) || (k < |a| && k < |b| && a[k] < b[k]))
  }

  lemma {:induction false} LessIff(a: string, b: string)
    ensures Less(a, b) <==> exists k: nat :: DiffersAt(a, b, k)
    decreases |a|
  {
    if a == "" || b == "" {
      assert b != "" && a == "" ==> DiffersAt(a, b, 0);
    } else {
      LessIff(a[1..], b[1..]);
      if a[0] < b[0] {
        assert DiffersAt(a, b, 0);
      }
      if a[0] == b[0] {
        if k: nat :| DiffersAt(a[1..], b[1..], k) {
          assert a[..k + 1] == [a[0]] + a[1..][..k] && b[..k + 1] == [b[0]] + b[1..][..k];
          assert DiffersAt(a, b, k + 1);
        }
        if k: nat :| DiffersAt(a, b, k) {
          assert k > 0;
          assert a[1..][..k - 1] == a[..k][1..] && b[1..][..k - 1] == b[..k][1..];
          assert DiffersAt(a[1..], b[1..], k - 1);
        }
      } else if k: nat :| DiffersAt(a, b, k) {
        assert k > 0 ==> a[..k][0] == b[..k][0];
      }
    }
  }

  // ORDER BY updated_at DESC, provider_id, path.
  predicate Before(a: Row, b: Row) {
    || Less(b.updatedAt, a.updatedAt)
    || (a.updatedAt == b.updatedAt
        && (Less(a.providerId, b.providerId) || (a.providerId == b.providerId && Less(a.path, b.path))))
  }

  lemma BeforeIsTotal(a: Row, b: Row)
    ensures !(Before(a, b) && Before(b, a))
    ensures !Before(a, b) && !Before(b, a) <==> a == b
  {
    LessIsTotal(a.updatedAt, b.updatedAt);
    LessIsTotal(a.providerId, b.providerId);
    LessIsTotal(a.path, b.path);
    hide Less;
  }

  lemma BeforeIsTransitive(a: Row, b: Row, c: Row)
    requires Before(a, b) && Before(b, c)
    ensures Before(a, c)
  {
    if Less(b.updatedAt, a.updatedAt) && Less(c.updatedAt, b.updatedAt) {
      LessIsTransitive(c.updatedAt, b.updatedAt, a.updatedAt);
    }
    if Less(a.providerId, b.providerId) && Less(b.providerId, c.providerId) {
      LessIsTransitive(a.providerId, b.providerId, c.providerId);
    }
    if Less(a.path, b.path) && Less(b.path, c.path) {
      LessIsTransitive(a.path, b.path, c.path);
    }
    hide Less;
  }

  ghost predicate Ascending(rows: seq<Row>) {
    forall i, j :: 0 <= i < j < |rows| ==> Before(rows[i], rows[j])
  }

  ghost predicate AllBefore(rows: seq<Row>, rest: set<Row>) {
    forall a, b :: a in rows && b in rest ==> Before(a, b)
  }

  function Elements(rows: seq<Row>): set<Row> {
    set r | r in rows
  }

  lemma ElementsAppend(a: seq<Row>, b: seq<Row>)
    ensures Elements(a + b) == Elements(a) + Elements(b)
  {
  }

  // The items are the first of the rows, in order.
  ghost predicate FirstOf(items: seq<Row>, rows: set<Row>) {
    Ascending(items) && Elements(items) <= rows && AllBefore(items, rows - Elements(items))
  }

  lemma FirstOfJoin(items: seq<Row>, more: seq<Row>, rows: set<Row>)
    requires FirstOf(items, rows) && FirstOf(more, rows - Elements(items))
    ensures FirstOf(items + more, rows)
    ensures Elements(items + more) == Elements(items) + Elements(more)
    ensures rows - Elements(items + more) == rows - Elements(items) - Elements(more)
  {
    hide Before;
    ElementsAppend(items, more);
    assert forall r :: r in more ==> r in Elements(more);
  }

  lemma FirstOfNone(rows: set<Row>)
    ensures FirstOf([], rows) && Elements([]) == {} && rows - Elements([]) == rows
  {
  }

  lemma FirstOfOne(r: Row, rows: set<Row>)
    requires r in rows && forall q :: q in rows ==> q == r || Before(r, q)
    ensures FirstOf([r], rows) && Elements([r]) == {r}
  {
  }

  // Taking rows off a selection makes it smaller.
  lemma Fewer(items: seq<Row>, rows: set<Row>)
    requires FirstOf(items, rows) && items != []
    ensures |rows - Elements(items)| < |rows|
  {
    assert items[0] in Elements(items);
    assert |rows| == |rows - Elements(items)| + |Elements(items)| by {
      assert rows == (rows - Elements(items)) + Elements(items);
    }
  }

  // ---- One query ----

  predicate Filter(o: Options, r: Row) {
    (o.providerId == "" || r.providerId == o.providerId) && (o.prefix == "" || Matches(r.path, Escape(o.prefix) + "%"))
  }

  predicate HasCursor(o: Options) {
    o.cursorUpdatedAt != "" && o.cursorProviderId != "" && o.cursorPath != ""
  }

  predicate NoCursor(o: Options) {
    o.cursorUpdatedAt == "" && o.cursorProviderId == "" && o.cursorPath == ""
  }

  // The row comparison of the query, in its own terms.
  predicate PastCursor(o: Options, r: Row) {
    || Less(r.updatedAt, o.cursorUpdatedAt)
    || (r.updatedAt == o.cursorUpdatedAt
        && (Less(o.cursorProviderId, r.providerId)
            || (r.providerId == o.cursorProviderId && Less(o.cursorPath, r.path))))
  }

  function Selected(table: set<Row>, o: Options): set<Row> {
    set r | r in table && Filter(o, r) && (HasCursor(o) ==> PastCursor(o, r))
  }

  function Limit(o: Options): nat {
    if o.limit <= 0 then DEFAULT_LIMIT else o.limit
  }

  // The first row of a non-empty selection.
  lemma {:induction false} First(rows: set<Row>) returns (least: Row)
    requires rows != {}
    ensures least in rows && forall r :: r in rows ==> r == least || Before(least, r)
    decreases |rows|
  {
    hide Before;
    var some :| some in rows;
    if rows == {some} {
      least := some;
    } else {
      var rest := rows - {some};
      var l := First(rest);
      BeforeIsTotal(l, some);
      least := if Before(some, l) then some else l;
      forall r | r in rows ensures r == least || Before(least, r) {
        if r != least && least == some && r != l {
          BeforeIsTransitive(some, l, r);
        }
      }
    }
  }

  // ORDER BY … LIMIT: the first rows of a selection, in order.
  method OrderedLimit(rows: set<Row>, limit: nat) returns (items: seq<Row>)
    ensures FirstOf(items, rows)
    ensures |items| == limit || (|items| < limit && Elements(items) == rows)
  {
    hide Before, FirstOf, Elements;
    items := [];
    var rest := rows;
    FirstOfNone(rows);
    while rest != {} && |items| < limit
      invariant rest == rows - Elements(items) && |items| <= limit
      invariant FirstOf(items, rows)
      decreases |rest|
    {
      ghost var least := First(rest);
      var r :| r in rest && forall q :: q in rest ==> q == r || Before(r, q);
      FirstOfOne(r, rest);
      FirstOfJoin(items, [r], rows);
      items, rest := items + [r], rest - {r};
    }
    WholeIfNoneLeft(items, rows);
  }

  lemma WholeIfNoneLeft(items: seq<Row>, rows: set<Row>)
    requires FirstOf(items, rows)
    ensures rows - Elements(items) == {} ==> Elements(items) == rows
  {
    assert forall r :: r in rows ==> r in Elements(items) || r in rows - Elements(items);
  }

  // ListCursor.
  method ListCursor(table: set<Row>, o: Options) returns (r: Result<Page, PageError>)
    ensures r.Err? <==> !HasCursor(o) && !NoCursor(o)
    ensures r.Ok? ==>
              var rows := Selected(table, o);
              var items := r.value.items;
              && FirstOf(items, rows) && |items| <= (if o.limit <= 0 then 200 else o.limit)
              && (if r.value.hasMore then |items| == Limit(o) && Elements(items) != rows else Elements(items) == rows)
  {
    hide Before, Filter, PastCursor, FirstOf, Elements, Selected;
    var limit: nat := if o.limit <= 0 then DEFAULT_LIMIT else o.limit;
    var cursorParts := (if o.cursorUpdatedAt != "" then 1 else 0) + (if o.cursorProviderId != "" then 1 else 0)
                       + (if o.cursorPath != "" then 1 else 0);
    if cursorParts != 0 && cursorParts != 3 {
      return Err(PartialCursor);
    }
    var rows := Selected(table, o);
    var items := OrderedLimit(rows, limit + 1);
    var hasMore := |items| > limit;
    if hasMore {
      CutLast(items, rows);
      items := items[..limit];
    }
    return Ok(Page(items, hasMore));
  }

  lemma CutLast(items: seq<Row>, rows: set<Row>)
    requires items != [] && FirstOf(items, rows)
    ensures var cut := items[..|items| - 1]; FirstOf(cut, rows) && Elements(cut) != rows
  {
    hide Before;
    var cut, last := items[..|items| - 1], items[|items| - 1];
    assert items == cut + [last];
    assert Elements(items) == Elements(cut) + {last};
    if last in cut {
      var i :| 0 <= i < |cut| && cut[i] == last;
      assert Before(items[i], items[|items| - 1]);
      BeforeIsTotal(last, last);
    }
  }

  // ---- The client ----

  // The options of the next request: the same filter, at the last row of the page.
  function NextOptions(o: Options, last: Row): Options {
    o.(cursorUpdatedAt := last.updatedAt, cursorProviderId := last.providerId, cursorPath := last.path)
  }

  ghost predicate Keyed(table: set<Row>) {
    forall r :: r in table ==> r.updatedAt != "" && r.providerId != "" && r.path != ""
  }

  function CursorRow(o: Options): Row {
    Row(o.cursorUpdatedAt, o.cursorProviderId, o.cursorPath)
  }

  lemma CursorIsBefore(o: Options, r: Row)
    ensures PastCursor(o, r) <==> Before(CursorRow(o), r)
  {
  }

  // Past the last row of a page lies exactly what the page left out.
  lemma NextSelection(table: set<Row>, o: Options, items: seq<Row>)
    requires Keyed(table) && items != [] && FirstOf(items, Selected(table, o))
    ensures var last := items[|items| - 1];
            HasCursor(NextOptions(o, last)) && Selected(table, NextOptions(o, last)) == Selected(table, o) - Elements(items)
  {
    hide Before, PastCursor;
    var last := items[|items| - 1];
    var next := NextOptions(o, last);
    assert last in Elements(items);
    assert HasCursor(next) && CursorRow(next) == last;
    forall r | r in table && Filter(o, r)
      ensures r in Selected(table, next) <==> r in Selected(table, o) && r !in Elements(items)
    {
      hide Filter;
      CursorIsBefore(next, r);
      CursorIsBefore(o, r);
      CursorIsBefore(o, last);
      BeforeIsTotal(last, r);
      if Before(last, r) && HasCursor(o) {
        BeforeIsTransitive(CursorRow(o), last, r);
      }
      if r in items {
        var i :| 0 <= i < |items| && items[i] == r;
        assert i == |items| - 1 || Before(items[i], last);
      }
    }
  }

  // Following next_cursor until has_more is false yields every row of the selection
  // exactly once, in order, whatever the limit.
  method ListAll(table: set<Row>, o: Options) returns (items: seq<Row>)
    requires Keyed(table) && NoCursor(o)
    ensures Ascending(items) && Elements(items) == Selected(table, o)
    ensures forall i, j :: 0 <= i < j < |items| ==> items[i] != items[j]
    ensures forall r :: r in items <==>
              && r in table && (o.providerId == "" || r.providerId == o.providerId)
              && (o.prefix == "" || o.prefix <= r.path)
    ensures forall i, j :: 0 <= i < j < |items| ==>
              var a, b := items[i], items[j];
              || Less(b.updatedAt, a.updatedAt)
              || (a.updatedAt == b.updatedAt && Less(a.providerId, b.providerId))
              || (a.updatedAt == b.updatedAt && a.providerId == b.providerId && Less(a.path, b.path))
  {
    ghost var all := Selected(table, o);
    items := [];
    FirstOfNone(all);
    hide Before, Filter, PastCursor, FirstOf, Elements, Selected, Keyed;
    var request, hasMore := o, true;
    while hasMore
      invariant HasCursor(request) || NoCursor(request)
      invariant FirstOf(items, all)
      invariant if hasMore then Selected(table, request) == all - Elements(items) else Elements(items) == all
      decreases if hasMore then 1 else 0, |Selected(table, request)|
    {
      var page := ListCursor(table, request);
      var rows := page.value.items;
      FirstOfJoin(items, rows, all);
      hasMore := page.value.hasMore;
      if hasMore {
        NextSelection(table, request, rows);
        Fewer(rows, Selected(table, request));
        request := NextOptions(request, rows[|rows| - 1]);
      } else {
        LastPage(items, rows, all);
      }
      items := items + rows;
    }
    InOrder(items, all);
    OrderIs(items);
    SelectionIs(table, o, items);
    forall i, j | 0 <= i < j < |items| ensures items[i] != items[j] {
      AscendingIsDistinct(items, i, j);
    }
  }

  lemma OrderIs(items: seq<Row>)
    requires Ascending(items)
    ensures forall i, j :: 0 <= i < j < |items| ==>
              var a, b := items[i], items[j];
              || Less(b.updatedAt, a.updatedAt)
              || (a.updatedAt == b.updatedAt && Less(a.providerId, b.providerId))
              || (a.updatedAt == b.updatedAt && a.providerId == b.providerId && Less(a.path, b.path))
  {
    hide Less;
    forall i, j | 0 <= i < j < |items|
      ensures var a, b := items[i], items[j];
              || Less(b.updatedAt, a.updatedAt)
              || (a.updatedAt == b.updatedAt && Less(a.providerId, b.providerId))
              || (a.updatedAt == b.updatedAt && a.providerId == b.providerId && Less(a.path, b.path))
    {
      assert Before(items[i], items[j]);
    }
  }

  lemma SelectionIs(table: set<Row>, o: Options, items: seq<Row>)
    requires NoCursor(o) && Elements(items) == Selected(table, o)
    ensures forall r :: r in items <==>
              && r in table && (o.providerId == "" || r.providerId == o.providerId)
              && (o.prefix == "" || o.prefix <= r.path)
  {
    forall r ensures Filter(o, r) <==>
                       (o.providerId == "" || r.providerId == o.providerId) && (o.prefix == "" || o.prefix <= r.path)
    {
      PrefixFilterIsExact(r.path, o.prefix);
    }
    hide Filter;
    assert forall r :: r in items <==> r in Elements(items);
  }

  lemma LastPage(items: seq<Row>, rows: seq<Row>, all: set<Row>)
    requires FirstOf(items, all) && Elements(rows) == all - Elements(items)
    ensures Elements(items + rows) == all
  {
    ElementsAppend(items, rows);
  }

  // Rows in this order do not repeat.
  lemma AscendingIsDistinct(rows: seq<Row>, i: nat, j: nat)
    requires Ascending(rows) && i < j < |rows|
    ensures rows[i] != rows[j]
  {
    BeforeIsTotal(rows[i], rows[j]);
    hide Before;
  }

  lemma InOrder(items: seq<Row>, all: set<Row>)
    requires FirstOf(items, all)
    ensures Ascending(items)
  {
  }
}
