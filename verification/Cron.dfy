/** Cron schedules: the field parser with its 64-bit loop counter, the match test, and
  * the compare-and-set that runs a schedule at most once a minute. */
module Cron {
  import opened Wrappers
  import opened Strings

  const MAX_INT: int := 0x7FFF_FFFF_FFFF_FFFF
  const TWO_TO_THE_64: int := 0x1_0000_0000_0000_0000

  datatype CronError =
    | EmptyField | EmptyItem | InvalidStep | InvalidRange | InvalidNumber | OutOfBounds | FieldCount

  // A list item: every step-th value from start to end.
  datatype Item = Item(start: int, end: int, step: int)

  // ---- Numbers ----

  predicate IsDigit(c: char) {
    '0' <= c <= '9'
  }

  predicate AllDigits(s: string) {
    s != "" && forall i :: 0 <= i < |s| ==> IsDigit(s[i])
  }

  function Digits(s: string): (n: nat)
    requires forall i :: 0 <= i < |s| ==> IsDigit(s[i])
  {
    if s == "" then 0
    else
      var last := s[|s| - 1];
      assert IsDigit(last);
      10 * Digits(s[..|s| - 1]) + (last as int - '0' as int)
  }

  // strconv.Atoi on a 64-bit system.
  function Atoi(s: string): (n: Option<int>)
    ensures n.Some? ==> -MAX_INT - 1 <= n.value <= MAX_INT
  {
    var signed := s != "" && (s[0] == '+' || s[0] == '-');
    var digits := if signed then s[1..] else s;
    if !AllDigits(digits) then None
    else
      var magnitude: int := Digits(digits);
      var value := if signed && s[0] == '-' then 0 - magnitude else magnitude;
      if -MAX_INT - 1 <= value <= MAX_INT then Some(value) else None
  }

  // ---- One list item ----

  function ParseCronNumber(value: string, minValue: int, maxValue: int): Result<int, CronError> {
    var number := Atoi(value);
    if number.None? then Err(InvalidNumber)
    else if number.value < minValue || number.value > maxValue then Err(OutOfBounds)
    else Ok(number.value)
  }

  function CronRange(value: string, minValue: int, maxValue: int): Result<(int, int), CronError> {
    if value == "*" then Ok((minValue, maxValue))
    else if '-' in value then
      var pieces := Split(value, '-');
      if |pieces| != 2 then Err(InvalidRange)
      else
        var start := ParseCronNumber(pieces[0], minValue, maxValue);
        var end := ParseCronNumber(pieces[1], minValue, maxValue);
        if start.Err? then Err(start.error)
        else if end.Err? then Err(end.error)
        else if start.value > end.value then Err(InvalidRange)
        else Ok((start.value, end.value))
    else
      var number := ParseCronNumber(value, minValue, maxValue);
      if number.Err? then Err(number.error) else Ok((number.value, number.value))
  }

  // The step and the base of an item.
  function CronStep(part: string): Result<(int, string), CronError> {
    if part == "" then Err(EmptyItem)
    else if '/' !in part then Ok((1, part))
    else
      var pieces := Split(part, '/');
      if |pieces| != 2 || pieces[0] == "" || pieces[1] == "" then Err(InvalidStep)
      else
        var step := Atoi(pieces[1]);
        if step.None? || step.value <= 0 then Err(InvalidStep) else Ok((step.value, pieces[0]))
  }

  function CronItem(part: string, minValue: int, maxValue: int): (r: Result<Item, CronError>)
    ensures r.Ok? && minValue <= maxValue ==>
              minValue <= r.value.start <= r.value.end <= maxValue && 1 <= r.value.step <= MAX_INT
  {
    var step := CronStep(part);
    if step.Err? then Err(step.error)
    else
      var range := CronRange(step.value.1, minValue, maxValue);
      if range.Err? then Err(range.error) else Ok(Item(range.value.0, range.value.1, step.value.0))
  }

  // The items of a field, or the first error.
  function CronItems(parts: seq<string>, minValue: int, maxValue: int): Result<seq<Item>, CronError> {
    if parts == [] then Ok([])
    else
      var item := CronItem(parts[0], minValue, maxValue);
      if item.Err? then Err(item.error)
      else
        var rest := CronItems(parts[1..], minValue, maxValue);
        if rest.Err? then rest else Ok([item.value] + rest.value)
  }

  function FieldItems(value: string, minValue: int, maxValue: int): Result<seq<Item>, CronError> {
    if value == "" then Err(EmptyField) else CronItems(Split(value, ','), minValue, maxValue)
  }

  // ---- What a field means ----

  predicate OnStep(i: Item, x: int) {
    i.step > 0 && i.start <= x <= i.end && (x - i.start) % i.step == 0
  }

  // Sunday is 0 and 7.
  function Fold(value: int, normalizeSunday: bool): int {
    if normalizeSunday && value == 7 then 0 else value
  }

  ghost predicate Denotes(items: seq<Item>, normalizeSunday: bool, v: int) {
    exists i, x :: 0 <= i < |items| && OnStep(items[i], x) && v == Fold(x, normalizeSunday)
  }

  // Adding the step to the last value of the item stays within 64 bits. Only a step
  // larger than any range can break this, and then the item has one value.
  predicate Safe(i: Item) {
    i.start + i.step <= MAX_INT
  }

  // ---- The loop ----

  function Wrapped(x: int): int {
    if x > MAX_INT then x - TWO_TO_THE_64 else x
  }

  // How far below a value the counter of an unsafe item is two steps later, once the
  // first of them has wrapped around.
  function Drop(i: Item): int {
    TWO_TO_THE_64 - 2 * i.step
  }

  // The k-th value at which the counter of an unsafe item comes back near its range.
  function Returned(i: Item, k: nat): int {
    if k == 0 then i.start else Returned(i, k - 1) - Drop(i)
  }

  // A step from x wraps around.
  predicate Wraps(i: Item, x: int) {
    x + i.step > MAX_INT
  }

  predicate Reaches(i: Item, k: nat) {
    k == 0 || Wraps(i, Returned(i, k - 1))
  }

  // What the loop adds for the k-th return: the value, and the one it wraps around to.
  predicate Added(i: Item, k: nat, x: int) {
    x == Returned(i, k) || (Wraps(i, Returned(i, k)) && x == Returned(i, k) + i.step - TWO_TO_THE_64)
  }

  // What the loop over an item adds: the values on its step, or, when the counter can
  // wrap around, all it passes through until a step ends past the range.
  ghost predicate Counted(i: Item, x: int) {
    if Safe(i) then OnStep(i, x) else exists k: nat :: Reaches(i, k) && Added(i, k, x)
  }

  ghost predicate ItemBuilds(i: Item, normalizeSunday: bool, v: int) {
    exists x :: Counted(i, x) && v == Fold(x, normalizeSunday)
  }

  // What the loop counts down.
  function Rank(i: Item, item: int): int {
    if item > i.end then -1
    else if Safe(i) then i.end - item
    else if -200 <= item then 2 * item + 1000
    else 2 * (item + TWO_TO_THE_64 - i.step) + 999
  }

  // The values of an item come a whole step apart.
  lemma NextOnStep(i: Item, item: int)
    requires OnStep(i, item)
    ensures forall x :: OnStep(i, x) && x > item ==> x >= item + i.step
    ensures item + i.step <= i.end ==> OnStep(i, item + i.step)
  {
    forall x | OnStep(i, x) && x > item ensures x >= item + i.step {
      MultiplesApart(x - i.start, item - i.start, i.step);
    }
    MultipleNext(item - i.start, i.step);
    assert item - i.start + i.step == item + i.step - i.start;
  }

  lemma MulGrows(n: int, d: int)
    requires n > 0
    ensures d >= 1 ==> n * d >= n
    ensures d <= -1 ==> n * d <= -n
  {
  }

  // A number within n of a multiple of n is that multiple when n divides it.
  lemma DivUnique(x: int, n: int, m: int)
    requires n > 0 && x == n * m
    ensures x % n == 0
  {
    var q, r := x / n, x % n;
    assert x == n * q + r;
    assert n * (m - q) == r;
    MulGrows(n, m - q);
  }

  lemma MultiplesApart(a: int, b: int, n: int)
    requires n > 0 && a % n == 0 && b % n == 0 && a > b
    ensures a >= b + n
  {
    var p, q := a / n, b / n;
    assert a == n * p && b == n * q;
    assert a - b == n * (p - q);
    MulGrows(n, p - q);
    assert p - q == 0 ==> n * (p - q) == 0;
  }

  lemma MultipleNext(a: int, n: int)
    requires n > 0 && a % n == 0
    ensures (a + n) % n == 0
  {
    var q := a / n;
    assert a == n * q;
    assert n * (q + 1) == n * q + n;
    DivUnique(a + n, n, q + 1);
  }

  // Where the loop over an unsafe item stands: at the k-th return, at the value that wraps
  // around from it, or past the end.
  datatype Place = At(k: nat) | Under(k: nat) | Past(k: nat)

  ghost predicate Stands(i: Item, place: Place, item: int) {
    match place
    case At(k) => Reaches(i, k) && item == Returned(i, k) && -200 <= item <= i.end
    case Under(k) => Wraps(i, Returned(i, k)) && item == Returned(i, k) + i.step - TWO_TO_THE_64 && 0 <= Returned(i, k) <= i.end
    case Past(k) => !Wraps(i, Returned(i, k)) && Reaches(i, k) && item > i.end
  }

  // The value is one the loop has added by then.
  ghost predicate AddedBy(i: Item, normalizeSunday: bool, place: Place, v: int) {
    || (exists k: nat, x :: k < place.k && Added(i, k, x) && v == Fold(x, normalizeSunday))
    || (!place.At? && v == Fold(Returned(i, place.k), normalizeSunday))
  }

  ghost predicate SafeState(i: Item, normalizeSunday: bool, result: set<int>, r: set<int>, item: int) {
    && (item == i.start || item - i.start >= i.step)
    && (item <= i.end ==> OnStep(i, item))
    && (forall x :: OnStep(i, x) && x < item ==> Fold(x, normalizeSunday) in r)
    && result <= r && (forall v :: v in r ==> v in result || ItemBuilds(i, normalizeSunday, v))
  }

  ghost predicate UnsafeState(i: Item, normalizeSunday: bool, result: set<int>, r: set<int>, item: int, place: Place) {
    Stands(i, place, item) && forall v :: v in r <==> v in result || AddedBy(i, normalizeSunday, place, v)
  }

  predicate SmallItem(i: Item) {
    0 <= i.start <= i.end <= 59 && 1 <= i.step <= MAX_INT
  }

  lemma SafeStep(i: Item, normalizeSunday: bool, result: set<int>, r: set<int>, item: int)
    requires SmallItem(i) && Safe(i) && item <= i.end && SafeState(i, normalizeSunday, result, r, item)
    ensures var next := Wrapped(item + i.step);
            SafeState(i, normalizeSunday, result, r + {Fold(item, normalizeSunday)}, next)
            && 0 <= Rank(i, item) && Rank(i, next) < Rank(i, item)
  {
    NextOnStep(i, item);
    var bounded := OnStep(i, item) && i.start <= item;
    assert bounded;
    assert Counted(i, item);
    hide OnStep, Counted;
    assert ItemBuilds(i, normalizeSunday, Fold(item, normalizeSunday));
  }

  // Where the next step leads.
  function NextPlace(i: Item, place: Place): Place {
    match place
    case At(k) => if Wraps(i, Returned(i, k)) then Under(k) else Past(k)
    case Under(k) => At(k + 1)
    case Past(k) => place
  }

  lemma UnsafeMoves(i: Item, item: int, place: Place)
    requires SmallItem(i) && !Safe(i) && item <= i.end && Stands(i, place, item)
    ensures var next := Wrapped(item + i.step);
            Stands(i, NextPlace(i, place), next) && 0 <= Rank(i, item) && Rank(i, next) < Rank(i, item)
  {
  }

  lemma UnsafeAdds(i: Item, normalizeSunday: bool, item: int, place: Place, v: int)
    requires Stands(i, place, item) && !place.Past?
    ensures AddedBy(i, normalizeSunday, NextPlace(i, place), v) <==>
              AddedBy(i, normalizeSunday, place, v) || v == Fold(item, normalizeSunday)
  {
    hide Fold, Returned, Wraps;
    var next := NextPlace(i, place);
    if place.Under? {
      assert Added(i, place.k, item) && Added(i, place.k, Returned(i, place.k));
      assert forall x :: Added(i, place.k, x) <==> x == item || x == Returned(i, place.k);
    }
  }

  lemma UnsafeStep(i: Item, normalizeSunday: bool, result: set<int>, r: set<int>, item: int, place: Place)
    requires SmallItem(i) && !Safe(i) && item <= i.end && UnsafeState(i, normalizeSunday, result, r, item, place)
    ensures var next := Wrapped(item + i.step);
            UnsafeState(i, normalizeSunday, result, r + {Fold(item, normalizeSunday)}, next, NextPlace(i, place))
            && 0 <= Rank(i, item) && Rank(i, next) < Rank(i, item)
  {
    UnsafeMoves(i, item, place);
    forall v ensures AddedBy(i, normalizeSunday, NextPlace(i, place), v) <==>
                       AddedBy(i, normalizeSunday, place, v) || v == Fold(item, normalizeSunday)
    {
      UnsafeAdds(i, normalizeSunday, item, place, v);
    }
    hide Stands, AddedBy, Rank, NextPlace;
  }

  lemma {:induction false} ReturnsFall(i: Item, k: nat, m: nat)
    requires SmallItem(i) && k <= m
    ensures Returned(i, m) <= Returned(i, k)
    decreases m
  {
    if k < m {
      ReturnsFall(i, k, m - 1);
    }
  }

  // At the end the loop has added exactly what is counted.
  lemma UnsafeDone(i: Item, normalizeSunday: bool, item: int, place: Place, v: int)
    requires SmallItem(i) && !Safe(i) && item > i.end && Stands(i, place, item)
    ensures AddedBy(i, normalizeSunday, place, v) <==> ItemBuilds(i, normalizeSunday, v)
  {
    var last := place.k;
    assert place.Past?;
    forall k: nat | Reaches(i, k) ensures k <= last {
      if k > last {
        ReturnsFall(i, last, k - 1);
      }
    }
    forall k: nat | k < last ensures Reaches(i, k) {
      if k > 0 {
        ReturnsFall(i, k - 1, last - 1);
      }
    }
    hide Fold, Returned, Wraps, Reaches;
    assert forall x :: Added(i, last, x) <==> x == Returned(i, last);
    if AddedBy(i, normalizeSunday, place, v) {
      if k: nat, x :| k < last && Added(i, k, x) && v == Fold(x, normalizeSunday) {
        assert Counted(i, x);
      } else {
        assert Added(i, last, Returned(i, last)) && Counted(i, Returned(i, last));
      }
    }
    if ItemBuilds(i, normalizeSunday, v) {
      var x :| Counted(i, x) && v == Fold(x, normalizeSunday);
      var k: nat :| Reaches(i, k) && Added(i, k, x);
      assert k < last || k == last;
    }
  }

  lemma SafeDone(i: Item, normalizeSunday: bool, result: set<int>, r: set<int>, item: int, v: int)
    requires SmallItem(i) && Safe(i) && item > i.end && SafeState(i, normalizeSunday, result, r, item)
    ensures v in r <==> v in result || ItemBuilds(i, normalizeSunday, v)
  {
    if ItemBuilds(i, normalizeSunday, v) {
      var x :| Counted(i, x) && v == Fold(x, normalizeSunday);
      assert OnStep(i, x) && x < item;
    }
  }

  // The inner loop of parseCronField, counter and all.
  method CollectItem(i: Item, normalizeSunday: bool, result: set<int>) returns (r: set<int>)
    requires SmallItem(i)
    ensures forall v :: v in r <==> v in result || ItemBuilds(i, normalizeSunday, v)
  {
    r := result;
    var item := i.start;
    ghost var place := At(0);
    while item <= i.end
      invariant Safe(i) ==> SafeState(i, normalizeSunday, result, r, item)
      invariant !Safe(i) ==> UnsafeState(i, normalizeSunday, result, r, item, place)
      decreases Rank(i, item)
    {
      if Safe(i) {
        SafeStep(i, normalizeSunday, result, r, item);
      } else {
        UnsafeStep(i, normalizeSunday, result, r, item, place);
        place := NextPlace(i, place);
      }
      hide SafeState, UnsafeState, Rank;
      r := r + {Fold(item, normalizeSunday)};
      item := Wrapped(item + i.step);
    }
    forall v ensures v in r <==> v in result || ItemBuilds(i, normalizeSunday, v) {
      if Safe(i) {
        SafeDone(i, normalizeSunday, result, r, item, v);
      } else {
        UnsafeDone(i, normalizeSunday, item, place, v);
      }
    }
  }

  // ---- The field ----

  ghost predicate AllSafe(items: seq<Item>) {
    forall k :: 0 <= k < |items| ==> Safe(items[k])
  }

  ghost predicate AllSmall(items: seq<Item>) {
    forall k :: 0 <= k < |items| ==> SmallItem(items[k])
  }

  // What the loops over the items of a field add.
  ghost predicate Builds(items: seq<Item>, normalizeSunday: bool, v: int) {
    exists k :: 0 <= k < |items| && ItemBuilds(items[k], normalizeSunday, v)
  }

  lemma BuildsNext(items: seq<Item>, item: Item, normalizeSunday: bool, v: int)
    ensures Builds(items + [item], normalizeSunday, v) <==>
              Builds(items, normalizeSunday, v) || ItemBuilds(item, normalizeSunday, v)
  {
    hide ItemBuilds;
    var all := items + [item];
    assert all[|items|] == item;
    if Builds(items, normalizeSunday, v) {
      var k :| 0 <= k < |items| && ItemBuilds(items[k], normalizeSunday, v);
      assert ItemBuilds(all[k], normalizeSunday, v);
    }
  }

  lemma BuildsMore(items: seq<Item>, item: Item, normalizeSunday: bool, before: set<int>, after: set<int>)
    requires forall v :: v in before <==> Builds(items, normalizeSunday, v)
    requires forall v :: v in after <==> v in before || ItemBuilds(item, normalizeSunday, v)
    ensures forall v :: v in after <==> Builds(items + [item], normalizeSunday, v)
  {
    hide Builds, ItemBuilds;
    forall v ensures v in after <==> Builds(items + [item], normalizeSunday, v) {
      BuildsNext(items, item, normalizeSunday, v);
    }
  }

  // A safe item adds what it denotes; an unsafe one also a negative value.
  lemma SafeItemBuilds(i: Item, normalizeSunday: bool, v: int)
    requires Safe(i)
    ensures ItemBuilds(i, normalizeSunday, v) <==> exists x :: OnStep(i, x) && v == Fold(x, normalizeSunday)
  {
    hide OnStep, Fold;
    if x :| OnStep(i, x) && v == Fold(x, normalizeSunday) {
      assert Counted(i, x);
    }
  }

  lemma UnsafeItemBuildsNegative(i: Item, normalizeSunday: bool) returns (v: int)
    requires SmallItem(i) && !Safe(i)
    ensures v < 0 && ItemBuilds(i, normalizeSunday, v)
  {
    v := i.start + i.step - TWO_TO_THE_64;
    assert Reaches(i, 0) && Added(i, 0, v);
    assert Counted(i, v);
  }

  // The set built is the set denoted if and only if every item is safe.
  lemma BuildsWhatItDenotesIff(items: seq<Item>, normalizeSunday: bool)
    requires AllSmall(items)
    ensures (forall v :: Builds(items, normalizeSunday, v) <==> Denotes(items, normalizeSunday, v)) <==> AllSafe(items)
  {
    if AllSafe(items) {
      hide Counted, OnStep, Fold, ItemBuilds;
      forall v ensures Builds(items, normalizeSunday, v) <==> Denotes(items, normalizeSunday, v) {
        forall k | 0 <= k < |items|
          ensures ItemBuilds(items[k], normalizeSunday, v)
             <==> exists x :: OnStep(items[k], x) && v == Fold(x, normalizeSunday)
        {
          SafeItemBuilds(items[k], normalizeSunday, v);
        }
      }
    } else {
      var k :| 0 <= k < |items| && !Safe(items[k]);
      var v := UnsafeItemBuildsNegative(items[k], normalizeSunday);
      assert Builds(items, normalizeSunday, v);
      assert !Denotes(items, normalizeSunday, v);
    }
  }

  // What items inside the bounds denote is inside the bounds, 7 read as 0.
  lemma DenotesInBounds(items: seq<Item>, normalizeSunday: bool, minValue: int, maxValue: int, v: int)
    requires forall k :: 0 <= k < |items| ==> minValue <= items[k].start <= items[k].end <= maxValue
    requires Denotes(items, normalizeSunday, v)
    ensures if normalizeSunday then v != 7 && (v == 0 || minValue <= v <= maxValue) else minValue <= v <= maxValue
  {
  }

  lemma {:induction false} CronItemsAre(parts: seq<string>, minValue: int, maxValue: int)
    requires minValue <= maxValue && CronItems(parts, minValue, maxValue).Ok?
    ensures var items := CronItems(parts, minValue, maxValue).value;
            && |items| == |parts|
            && forall k :: 0 <= k < |items| ==>
                 minValue <= items[k].start <= items[k].end <= maxValue && 1 <= items[k].step <= MAX_INT
  {
    if parts != [] {
      hide CronItem;
      CronItemsAre(parts[1..], minValue, maxValue);
    }
  }

  lemma CronItemsFrom(parts: seq<string>, minValue: int, maxValue: int, i: nat)
    requires i < |parts|
    ensures var item := CronItem(parts[i], minValue, maxValue);
            var rest := CronItems(parts[i + 1..], minValue, maxValue);
            CronItems(parts[i..], minValue, maxValue)
            == if item.Err? then Err(item.error) else Onto([item.value], rest)
  {
    hide CronItem;
    assert parts[i..][0] == parts[i] && parts[i..][1..] == parts[i + 1..];
  }

  // The items read so far in front of what is left to read.
  function Onto(done: seq<Item>, rest: Result<seq<Item>, CronError>): Result<seq<Item>, CronError> {
    if rest.Err? then rest else Ok(done + rest.value)
  }

  lemma OntoNext(done: seq<Item>, item: Item, rest: Result<seq<Item>, CronError>)
    ensures Onto(done, Onto([item], rest)) == Onto(done + [item], rest)
    ensures Onto([], rest) == rest && Onto(done, Ok([])) == Ok(done)
  {
    if rest.Ok? {
      assert done + ([item] + rest.value) == done + [item] + rest.value;
      assert [] + rest.value == rest.value;
    }
    assert done + [] == done;
  }

  // Every item of the field is safe to count through.
  predicate SafeField(value: string, minValue: int, maxValue: int) {
    var items := FieldItems(value, minValue, maxValue);
    items.Ok? && forall k :: 0 <= k < |items.value| ==> Safe(items.value[k])
  }

  // parseCronField: the set it builds, and whether the field is a lone star. The set is
  // exactly what the field denotes if and only if every item is safe.
  method ParseCronField(value: string, minValue: int, maxValue: int, normalizeSunday: bool)
    returns (r: Result<(set<int>, bool), CronError>)
    requires 0 <= minValue <= maxValue <= 59
    ensures r.Err? <==> FieldItems(value, minValue, maxValue).Err?
    ensures r.Err? ==> r.error == FieldItems(value, minValue, maxValue).error
    ensures r.Ok? ==> r.value.1 == (value == "*")
    ensures r.Ok? ==>
              forall v :: v in r.value.0 <==> Builds(FieldItems(value, minValue, maxValue).value, normalizeSunday, v)
    ensures r.Ok? ==>
              ((forall v :: v in r.value.0 <==> Denotes(FieldItems(value, minValue, maxValue).value, normalizeSunday, v))
               <==> SafeField(value, minValue, maxValue))
  {
    hide CronItem, CronItems, Safe, Builds, Denotes, ItemBuilds, Split;
    if value == "" {
      return Err(EmptyField);
    }
    var parts := Split(value, ',');
    var result: set<int> := {};
    ghost var done: seq<Item> := [];
    BuildsNothing(normalizeSunday);
    assert parts[0..] == parts;
    OntoNext([], Item(0, 0, 1), CronItems(parts, minValue, maxValue));
    for i := 0 to |parts|
      invariant AllSmall(done) && forall v :: v in result <==> Builds(done, normalizeSunday, v)
      invariant CronItems(parts, minValue, maxValue)
             == Onto(done, CronItems(parts[i..], minValue, maxValue))
    {
      CronItemsFrom(parts, minValue, maxValue, i);
      var item := CronItem(parts[i], minValue, maxValue);
      if item.Err? {
        return Err(item.error);
      }
      OntoNext(done, item.value, CronItems(parts[i + 1..], minValue, maxValue));
      var more := CollectItem(item.value, normalizeSunday, result);
      BuildsMore(done, item.value, normalizeSunday, result, more);
      result, done := more, done + [item.value];
    }
    NoItems(parts, minValue, maxValue);
    OntoNext(done, Item(0, 0, 1), Ok([]));
    BuildsWhatItDenotesIff(done, normalizeSunday);
    return Ok((result, value == "*"));
  }

  lemma NoItems(parts: seq<string>, minValue: int, maxValue: int)
    ensures CronItems(parts[|parts|..], minValue, maxValue) == Ok([])
  {
  }

  lemma BuildsNothing(normalizeSunday: bool)
    ensures forall v :: !Builds([], normalizeSunday, v)
  {
  }

  // A field that parses denotes something, inside its bounds with 7 read as 0.
  lemma FieldIsNonEmptyAndBounded(value: string, minValue: int, maxValue: int, normalizeSunday: bool)
    requires 0 <= minValue <= maxValue && FieldItems(value, minValue, maxValue).Ok?
    ensures var items := FieldItems(value, minValue, maxValue).value;
            && (exists v :: Denotes(items, normalizeSunday, v))
            && forall v :: Denotes(items, normalizeSunday, v) ==>
                 if normalizeSunday then v != 7 && (v == 0 || minValue <= v <= maxValue) else minValue <= v <= maxValue
  {
    hide CronItems, Split, Denotes;
    var items := FieldItems(value, minValue, maxValue).value;
    CronItemsAre(Split(value, ','), minValue, maxValue);
    FirstDenoted(items, normalizeSunday);
    forall v | Denotes(items, normalizeSunday, v)
      ensures if normalizeSunday then v != 7 && (v == 0 || minValue <= v <= maxValue) else minValue <= v <= maxValue
    {
      DenotesInBounds(items, normalizeSunday, minValue, maxValue, v);
    }
  }

  lemma FirstDenoted(items: seq<Item>, normalizeSunday: bool)
    requires items != [] && items[0].step > 0 && items[0].start <= items[0].end
    ensures Denotes(items, normalizeSunday, Fold(items[0].start, normalizeSunday))
  {
    assert OnStep(items[0], items[0].start);
  }

  // ---- Numbers written out ----

  function DigitOf(d: nat): (c: char)
    requires d < 10
    ensures IsDigit(c) && c as int - '0' as int == d
  {
    ('0' as int + d) as char
  }

  function ToText(n: nat): string {
    if n < 10 then [DigitOf(n)] else ToText(n / 10) + [DigitOf(n % 10)]
  }

  lemma {:induction false} ToTextDigits(n: nat)
    ensures AllDigits(ToText(n)) && Digits(ToText(n)) == n
  {
    hide DigitOf;
    var t := ToText(n);
    if n < 10 {
      assert t[..0] == "";
    } else {
      ToTextDigits(n / 10);
      assert t[..|t| - 1] == ToText(n / 10);
      assert forall i :: 0 <= i < |t| - 1 ==> t[i] == ToText(n / 10)[i];
    }
  }

  // Reading a number that was written out gives it back.
  lemma AtoiToText(n: nat)
    requires n <= MAX_INT
    ensures Atoi(ToText(n)) == Some(n)
    ensures forall c :: c in ToText(n) ==> IsDigit(c)
  {
    ToTextDigits(n);
    assert IsDigit(ToText(n)[0]);
    hide ToText, Digits;
  }

  // Signs are read, and a number beyond 64 bits is not.
  lemma AtoiSigned(n: nat)
    ensures Atoi(ToText(n)) == if n <= MAX_INT then Some(n as int) else None
    ensures Atoi("+" + ToText(n)) == if n <= MAX_INT then Some(n as int) else None
    ensures Atoi("-" + ToText(n)) == if n <= MAX_INT + 1 then Some(0 - n) else None
  {
    ToTextDigits(n);
    assert IsDigit(ToText(n)[0]);
    assert ("+" + ToText(n))[1..] == ToText(n) && ("-" + ToText(n))[1..] == ToText(n);
    hide ToText, Digits;
  }

  // What a list item comes to: a number in its bounds, a range that does not go back, or the
  // whole field by a step.
  lemma ItemsOfNumbers(a: nat, b: nat, k: nat, minValue: int, maxValue: int)
    requires a <= MAX_INT && b <= MAX_INT && k <= MAX_INT
    ensures CronItem(ToText(a), minValue, maxValue)
         == if minValue <= a <= maxValue then Ok(Item(a, a, 1)) else Err(OutOfBounds)
    ensures CronItem(ToText(a) + "-" + ToText(b), minValue, maxValue)
         == if !(minValue <= a <= maxValue && minValue <= b <= maxValue) then Err(OutOfBounds)
            else if a > b then Err(InvalidRange) else Ok(Item(a, b, 1))
    ensures CronItem("*/" + ToText(k), minValue, maxValue)
         == if k == 0 then Err(InvalidStep) else Ok(Item(minValue, maxValue, k))
    ensures CronItem("*", minValue, maxValue) == Ok(Item(minValue, maxValue, 1))
    ensures CronItem("", minValue, maxValue) == Err(EmptyItem)
  {
    AtoiToText(a);
    AtoiToText(b);
    AtoiToText(k);
    ToTextDigits(a);
    ToTextDigits(b);
    ToTextDigits(k);
    var s, t, u := ToText(a), ToText(b), ToText(k);
    hide *;
    NumberItem(s, a, minValue, maxValue);
    NumbersItem(s, t, a, b, minValue, maxValue);
    StarItem(u, k, minValue, maxValue);
  }

  lemma NumberItem(s: string, a: nat, minValue: int, maxValue: int)
    requires AllDigits(s) && Atoi(s) == Some(a)
    ensures CronItem(s, minValue, maxValue) == if minValue <= a <= maxValue then Ok(Item(a, a, 1)) else Err(OutOfBounds)
  {
    hide Atoi, AllDigits, Split;
    NumberPieces(s, s);
    assert CronStep(s) == Ok((1, s));
    hide CronStep;
  }

  lemma NumbersItem(s: string, t: string, a: nat, b: nat, minValue: int, maxValue: int)
    requires AllDigits(s) && AllDigits(t) && Atoi(s) == Some(a) && Atoi(t) == Some(b)
    ensures CronItem(s + "-" + t, minValue, maxValue)
         == if !(minValue <= a <= maxValue && minValue <= b <= maxValue) then Err(OutOfBounds)
            else if a > b then Err(InvalidRange) else Ok(Item(a, b, 1))
  {
    hide Atoi, AllDigits, Split;
    NumberPieces(s, t);
    assert CronStep(s + "-" + t) == Ok((1, s + "-" + t));
    hide CronStep;
  }

  lemma StarItem(u: string, k: nat, minValue: int, maxValue: int)
    requires AllDigits(u) && Atoi(u) == Some(k)
    ensures CronItem("*/" + u, minValue, maxValue) == if k == 0 then Err(InvalidStep) else Ok(Item(minValue, maxValue, k))
    ensures CronItem("*", minValue, maxValue) == Ok(Item(minValue, maxValue, 1))
    ensures CronItem("", minValue, maxValue) == Err(EmptyItem)
  {
    hide Atoi, AllDigits, Split;
    StarPieces(u);
    assert CronRange("*", minValue, maxValue) == Ok((minValue, maxValue));
    hide CronRange;
  }

  lemma NumberPieces(s: string, t: string)
    requires AllDigits(s) && AllDigits(t)
    ensures var range := s + "-" + t;
            && s != "" && s != "*" && '-' !in s && '/' !in s
            && range != "" && range != "*" && '/' !in range && '-' in range && Split(range, '-') == [s, t]
  {
    var range := s + "-" + t;
    DigitsHold(s, '-');
    DigitsHold(s, '*');
    DigitsHold(s, '/');
    DigitsHold(t, '/');
    DigitsHold(t, '-');
    assert range[|s|] == '-' && "*"[0] == '*';
    hide AllDigits, Split;
    SplitFree(s, '-');
    SplitFree(t, '-');
    SplitConcat(s, t, '-');
  }

  lemma StarPieces(k: string)
    requires AllDigits(k)
    ensures var part := "*/" + k;
            part != "" && '/' in part && Split(part, '/') == ["*", k] && k != "" && '/' !in "*"
  {
    DigitsHold(k, '/');
    assert "*/" + k == "*" + ['/'] + k;
    SplitFree("*", '/');
    SplitFree(k, '/');
    SplitConcat("*", k, '/');
    assert ("*" + ['/'] + k)[1] == '/';
  }

  // A field of one number and a step: it means that number, and it is safe exactly when
  // the number and the step together stay within 64 bits.
  lemma StepFieldSafeIff(number: nat, step: nat)
    requires number <= 59 && 1 <= step <= MAX_INT
    ensures var value := ToText(number) + "/" + ToText(step);
            && FieldItems(value, 0, 59) == Ok([Item(number, number, step)])
            && (SafeField(value, 0, 59) <==> number + step <= MAX_INT)
  {
    hide ToText, Atoi, Digits, AllDigits, Split, CronItem, CronItems;
    AtoiToText(number);
    AtoiToText(step);
    ToTextDigits(number);
    ToTextDigits(step);
    var n, k := ToText(number), ToText(step);
    StepPieces(n, k);
    StepItem(n, k, number, step);
    OneItem(n + "/" + k, 0, 59);
    OneSafeItem(n + "/" + k, Item(number, number, step));
  }

  lemma StepItem(n: string, k: string, number: nat, step: nat)
    requires AllDigits(n) && AllDigits(k) && Atoi(n) == Some(number) && Atoi(k) == Some(step)
    requires number <= 59 && 1 <= step
    ensures CronItem(n + "/" + k, 0, 59) == Ok(Item(number, number, step))
  {
    hide Atoi, AllDigits, Split;
    StepPieces(n, k);
    assert CronRange(n, 0, 59) == Ok((number as int, number as int));
    hide CronRange;
    assert CronStep(n + "/" + k) == Ok((step as int, n));
  }

  lemma OneSafeItem(value: string, item: Item)
    requires FieldItems(value, 0, 59) == Ok([item])
    ensures SafeField(value, 0, 59) <==> Safe(item)
  {
    hide FieldItems;
    assert [item][0] == item;
  }

  lemma DigitsHold(s: string, c: char)
    requires AllDigits(s) && !IsDigit(c)
    ensures c !in s
  {
  }

  lemma StepPieces(n: string, k: string)
    requires AllDigits(n) && AllDigits(k)
    ensures n != "" && k != "" && n != "*" && '-' !in n
    ensures var value := n + "/" + k;
            value != "" && '/' in value && Split(value, ',') == [value] && Split(value, '/') == [n, k]
  {
    var value := n + "/" + k;
    DigitsHold(n, '-');
    DigitsHold(n, '*');
    DigitsHold(n, '/');
    DigitsHold(k, '/');
    DigitsHold(n, ',');
    DigitsHold(k, ',');
    hide AllDigits, Split;
    assert value[|n|] == '/' && "*"[0] == '*';
    SplitFree(value, ',');
    SplitFree(n, '/');
    SplitFree(k, '/');
    SplitConcat(n, k, '/');
  }

  lemma OneItem(part: string, minValue: int, maxValue: int)
    requires CronItem(part, minValue, maxValue).Ok?
    ensures CronItems([part], minValue, maxValue) == Ok([CronItem(part, minValue, maxValue).value])
  {
    hide CronItem;
    var parts := [part];
    assert parts[1..] == [];
    assert CronItems(parts[1..], minValue, maxValue) == Ok([]);
    var one := [CronItem(part, minValue, maxValue).value];
    assert one + [] == one;
  }

  // The field 59/9223372036854775807 denotes minute 59 alone, but the set built from it
  // holds minute 57 as well.
  lemma LargestStepRunsAtMinute57()
    ensures var value := ToText(59) + "/" + ToText(MAX_INT);
            var items := FieldItems(value, 0, 59);
            && items.Ok? && Builds(items.value, false, 57) && !Denotes(items.value, false, 57)
            && Builds(items.value, false, 59) && Denotes(items.value, false, 59)
  {
    hide ToText, FieldItems;
    StepFieldSafeIff(59, MAX_INT);
    var item := Item(59, 59, MAX_INT);
    assert Returned(item, 1) == 57;
    assert Reaches(item, 1) && Added(item, 1, 57) && Reaches(item, 0) && Added(item, 0, 59);
    assert Counted(item, 57) && Counted(item, 59);
    assert ItemBuilds([item][0], false, 57) && ItemBuilds([item][0], false, 59);
    assert OnStep([item][0], 59);
  }

  // ---- Fields written out ----

  function ItemText(i: Item): string
    requires 0 <= i.start && 0 <= i.end && 0 <= i.step
  {
    ToText(i.start) + "-" + ToText(i.end) + "/" + ToText(i.step)
  }

  ghost predicate Writable(i: Item, minValue: int, maxValue: int) {
    0 <= minValue <= i.start <= i.end <= maxValue <= 59 && 1 <= i.step <= MAX_INT
  }

  // An item written out as a range and a step is read back.
  lemma ItemRoundTrip(i: Item, minValue: int, maxValue: int)
    requires Writable(i, minValue, maxValue)
    ensures CronItem(ItemText(i), minValue, maxValue) == Ok(i)
    ensures ',' !in ItemText(i)
  {
    hide ToText, Digits, IsDigit, AllDigits, Atoi;
    var a, b, k := ToText(i.start), ToText(i.end), ToText(i.step);
    AtoiToText(i.start);
    AtoiToText(i.end);
    AtoiToText(i.step);
    ToTextDigits(i.start);
    ToTextDigits(i.end);
    ToTextDigits(i.step);
    RangePieces(a, b, k);
    RangeItem(a, b, k, i, minValue, maxValue);
  }

  lemma RangePieces(a: string, b: string, k: string)
    requires AllDigits(a) && AllDigits(b) && AllDigits(k)
    ensures var range := a + "-" + b;
            var part := range + "/" + k;
            && part != "" && '/' in part && Split(part, '/') == [range, k] && k != "" && range != ""
            && range != "*" && '-' in range && Split(range, '-') == [a, b] && ',' !in part
  {
    var range := a + "-" + b;
    DigitsHold(a, '/');
    DigitsHold(b, '/');
    DigitsHold(k, '/');
    DigitsHold(a, '-');
    DigitsHold(b, '-');
    DigitsHold(a, ',');
    DigitsHold(b, ',');
    DigitsHold(k, ',');
    assert range[|a|] == '-' && (range + "/" + k)[|range|] == '/' && k != "";
    hide AllDigits, Split;
    SplitFree(range, '/');
    SplitFree(k, '/');
    SplitConcat(range, k, '/');
    SplitFree(a, '-');
    SplitFree(b, '-');
    SplitConcat(a, b, '-');
  }

  lemma RangeItem(a: string, b: string, k: string, i: Item, minValue: int, maxValue: int)
    requires AllDigits(a) && AllDigits(b) && AllDigits(k) && Writable(i, minValue, maxValue)
    requires Atoi(a) == Some(i.start) && Atoi(b) == Some(i.end) && Atoi(k) == Some(i.step)
    ensures CronItem(a + "-" + b + "/" + k, minValue, maxValue) == Ok(i)
  {
    hide Atoi, AllDigits, Split;
    RangePieces(a, b, k);
    assert CronRange(a + "-" + b, minValue, maxValue) == Ok((i.start, i.end));
    hide CronRange;
    assert CronStep(a + "-" + b + "/" + k) == Ok((i.step, a + "-" + b));
  }

  ghost predicate AllWritable(items: seq<Item>, minValue: int, maxValue: int) {
    forall k :: 0 <= k < |items| ==> Writable(items[k], minValue, maxValue)
  }

  ghost function Texts(items: seq<Item>, minValue: int, maxValue: int): (texts: seq<string>)
    requires AllWritable(items, minValue, maxValue)
    ensures |texts| == |items|
  {
    if items == [] then [] else [ItemText(items[0])] + Texts(items[1..], minValue, maxValue)
  }

  lemma {:induction false} TextsRoundTrip(items: seq<Item>, minValue: int, maxValue: int)
    requires AllWritable(items, minValue, maxValue)
    ensures CronItems(Texts(items, minValue, maxValue), minValue, maxValue) == Ok(items)
    ensures AllFree(Texts(items, minValue, maxValue), ',')
  {
    if items != [] {
      hide CronItem, ItemText;
      ItemRoundTrip(items[0], minValue, maxValue);
      TextsRoundTrip(items[1..], minValue, maxValue);
      var texts := Texts(items, minValue, maxValue);
      assert texts[1..] == Texts(items[1..], minValue, maxValue);
      assert [items[0]] + items[1..] == items;
    }
  }

  // A list of ranges with steps, written out with commas, is read back item by item.
  lemma FieldRoundTrip(items: seq<Item>, minValue: int, maxValue: int)
    requires items != [] && AllWritable(items, minValue, maxValue)
    ensures FieldItems(Join(Texts(items, minValue, maxValue), ','), minValue, maxValue) == Ok(items)
  {
    hide CronItems, ItemText, Split, Join, Texts;
    var texts := Texts(items, minValue, maxValue);
    TextsRoundTrip(items, minValue, maxValue);
    SplitJoin(texts, ',');
    if Join(texts, ',') == "" {
      SplitFree("", ',');
      assert texts[0] == "";
      FirstTextIsNot(items, minValue, maxValue);
    }
  }

  lemma FirstTextIsNot(items: seq<Item>, minValue: int, maxValue: int)
    requires items != [] && AllWritable(items, minValue, maxValue)
    ensures Texts(items, minValue, maxValue)[0] != ""
  {
    ToTextDigits(items[0].start);
  }

  // ---- The schedule ----

  // strings.Fields.
  function Fields(s: string): (fields: seq<string>) {
    if s == "" then []
    else if IsSpace(s[0]) then Fields(s[1..])
    else
      var rest := Fields(s[1..]);
      if |s| == 1 || IsSpace(s[1]) || rest == [] then [[s[0]]] + rest else [[s[0]] + rest[0]] + rest[1..]
  }

  predicate Word(s: string) {
    s != "" && forall i :: 0 <= i < |s| ==> !IsSpace(s[i])
  }

  lemma {:induction false} FieldsOfWord(word: string, rest: string)
    requires Word(word) && (rest == "" || IsSpace(rest[0]))
    ensures Fields(word + rest) == [word] + Fields(rest)
    decreases |word|
  {
    var s := word + rest;
    assert s[1..] == word[1..] + rest;
    if |word| == 1 {
      assert word[1..] + rest == rest && [word[0]] == word;
      assert rest != "" ==> s[1] == rest[0];
    } else {
      assert word[1..][0] == word[1] && s[1] == word[1] && !IsSpace(word[1]);
      FieldsOfWord(word[1..], rest);
      assert [word[0]] + word[1..] == word;
      assert ([word[1..]] + Fields(rest))[1..] == Fields(rest);
    }
  }

  // Words joined by blanks are the fields of the line.
  lemma {:induction false} FieldsOfJoin(words: seq<string>)
    requires forall i :: 0 <= i < |words| ==> Word(words[i])
    ensures Fields(Join(words, ' ')) == words
  {
    if |words| == 1 {
      FieldsOfWord(words[0], "");
      assert words[0] + "" == words[0];
    } else if |words| > 1 {
      var rest := Join(words[1..], ' ');
      FieldsOfJoin(words[1..]);
      FieldsOfWord(words[0], [' '] + rest);
      assert words[0] + [' '] + rest == words[0] + ([' '] + rest);
      assert ([' '] + rest)[1..] == rest;
    }
  }

  datatype Schedule = Schedule(
    minutes: set<int>, hours: set<int>, days: set<int>, months: set<int>, weekdays: set<int>,
    dayAny: bool, weekdayAny: bool)

  datatype Clock = Clock(minute: int, hour: int, day: int, month: int, weekday: int)

  predicate ValidClock(now: Clock) {
    0 <= now.minute <= 59 && 0 <= now.hour <= 23 && 1 <= now.day <= 31 && 1 <= now.month <= 12 && 0 <= now.weekday <= 6
  }

  // The bounds of the five fields, and which of them reads 7 as 0.
  function MinOf(field: nat): int {
    if field == 2 || field == 3 then 1 else 0
  }

  function MaxOf(field: nat): int {
    if field == 0 then 59 else if field == 1 then 23 else if field == 2 then 31 else if field == 3 then 12 else 7
  }

  function ItemsAt(fields: seq<string>, field: nat): Result<seq<Item>, CronError>
    requires field < |fields|
  {
    FieldItems(fields[field], MinOf(field), MaxOf(field))
  }

  predicate FieldsParse(value: string) {
    var fields := Fields(value);
    |fields| == 5 && forall k :: 0 <= k < 5 ==> ItemsAt(fields, k).Ok?
  }

  predicate FieldsSafe(value: string) {
    var fields := Fields(value);
    |fields| == 5 && forall k :: 0 <= k < 5 ==> SafeField(fields[k], MinOf(k), MaxOf(k))
  }

  // The value lies in the set built from the field.
  ghost predicate FieldHas(fields: seq<string>, field: nat, v: int)
    requires field < |fields|
  {
    ItemsAt(fields, field).Ok? && Builds(ItemsAt(fields, field).value, field == 4, v)
  }

  // The value lies in the set the field denotes.
  ghost predicate FieldMeans(fields: seq<string>, field: nat, v: int)
    requires field < |fields|
  {
    ItemsAt(fields, field).Ok? && Denotes(ItemsAt(fields, field).value, field == 4, v)
  }

  ghost predicate Holds(values: set<int>, fields: seq<string>, field: nat)
    requires field < |fields|
  {
    forall v :: v in values <==> FieldHas(fields, field, v)
  }

  method ParseFieldAt(fields: seq<string>, field: nat) returns (r: Result<(set<int>, bool), CronError>)
    requires field < |fields| && field < 5
    ensures r.Ok? <==> ItemsAt(fields, field).Ok?
    ensures r.Ok? ==> r.value.1 == (fields[field] == "*")
    ensures r.Ok? ==> Holds(r.value.0, fields, field)
  {
    hide FieldItems, SafeField, Denotes, Builds;
    r := ParseCronField(fields[field], MinOf(field), MaxOf(field), field == 4);
  }

  lemma HoldsIs(values: set<int>, fields: seq<string>, field: nat)
    requires field < |fields| && Holds(values, fields, field)
    ensures forall v :: v in values <==> FieldHas(fields, field, v)
  {
    hide FieldHas;
  }

  // A lone star builds the whole range of its field of the clock, and a safe field nothing
  // outside of it.
  lemma SetsFitTheClock(value: string)
    ensures FieldsParse(value) ==>
              var f := Fields(value);
              && (f[0] == "*" ==> forall v :: 0 <= v <= 59 ==> FieldHas(f, 0, v))
              && (f[1] == "*" ==> forall v :: 0 <= v <= 23 ==> FieldHas(f, 1, v))
              && (f[2] == "*" ==> forall v :: 1 <= v <= 31 ==> FieldHas(f, 2, v))
              && (f[3] == "*" ==> forall v :: 1 <= v <= 12 ==> FieldHas(f, 3, v))
              && (f[4] == "*" ==> forall v :: 0 <= v <= 6 ==> FieldHas(f, 4, v))
    ensures FieldsParse(value) && FieldsSafe(value) ==>
              var f := Fields(value);
              && (forall v :: FieldHas(f, 0, v) ==> 0 <= v <= 59) && (forall v :: FieldHas(f, 1, v) ==> 0 <= v <= 23)
              && (forall v :: FieldHas(f, 2, v) ==> 1 <= v <= 31) && (forall v :: FieldHas(f, 3, v) ==> 1 <= v <= 12)
              && (forall v :: FieldHas(f, 4, v) ==> 0 <= v <= 6)
  {
    if FieldsParse(value) {
      var f := Fields(value);
      forall k: nat, v | k < 5 && f[k] == "*" && MinOf(k) <= v <= MaxOf(k) && (k == 4 ==> v < 7) ensures FieldHas(f, k, v) {
        StarHasAll(f, k, v);
      }
      if FieldsSafe(value) {
        forall k: nat, v | k < 5 && FieldHas(f, k, v) ensures MinOf(k) <= v <= MaxOf(k) && (k == 4 ==> v < 7) {
          SafeFieldBuildsItsMeaning(f, k, v);
          FieldIsNonEmptyAndBounded(f[k], MinOf(k), MaxOf(k), k == 4);
        }
      }
    }
    hide FieldHas, FieldsSafe, Fields;
  }

  // parseCronSchedule.
  method ParseCronSchedule(value: string) returns (r: Result<Schedule, CronError>)
    ensures r.Ok? <==> FieldsParse(value)
    ensures r.Ok? ==>
              r.value.dayAny == (Fields(value)[2] == "*") && r.value.weekdayAny == (Fields(value)[4] == "*")
    ensures r.Ok? ==>
              var f := Fields(value);
              Holds(r.value.minutes, f, 0) && Holds(r.value.hours, f, 1) && Holds(r.value.days, f, 2)
              && Holds(r.value.months, f, 3) && Holds(r.value.weekdays, f, 4)
    ensures r.Ok? ==>
              var f := Fields(value);
              && (f[0] == "*" ==> forall v :: 0 <= v <= 59 ==> v in r.value.minutes)
              && (f[1] == "*" ==> forall v :: 0 <= v <= 23 ==> v in r.value.hours)
              && (f[2] == "*" ==> forall v :: 1 <= v <= 31 ==> v in r.value.days)
              && (f[3] == "*" ==> forall v :: 1 <= v <= 12 ==> v in r.value.months)
              && (f[4] == "*" ==> forall v :: 0 <= v <= 6 ==> v in r.value.weekdays)
    ensures r.Ok? && FieldsSafe(value) ==>
              && (forall v :: v in r.value.minutes ==> 0 <= v <= 59)
              && (forall v :: v in r.value.hours ==> 0 <= v <= 23)
              && (forall v :: v in r.value.days ==> 1 <= v <= 31)
              && (forall v :: v in r.value.months ==> 1 <= v <= 12)
              && (forall v :: v in r.value.weekdays ==> 0 <= v <= 6)
  {
    SetsFitTheClock(value);
    hide FieldItems, SafeField, Builds, Holds, FieldHas, FieldsSafe;
    var fields := Fields(value);
    if |fields| != 5 {
      return Err(FieldCount);
    }
    var minutes := ParseFieldAt(fields, 0);
    if minutes.Err? { return Err(minutes.error); }
    var hours := ParseFieldAt(fields, 1);
    if hours.Err? { return Err(hours.error); }
    var days := ParseFieldAt(fields, 2);
    if days.Err? { return Err(days.error); }
    var months := ParseFieldAt(fields, 3);
    if months.Err? { return Err(months.error); }
    var weekdays := ParseFieldAt(fields, 4);
    if weekdays.Err? { return Err(weekdays.error); }
    HoldsIs(minutes.value.0, fields, 0);
    HoldsIs(hours.value.0, fields, 1);
    HoldsIs(days.value.0, fields, 2);
    HoldsIs(months.value.0, fields, 3);
    HoldsIs(weekdays.value.0, fields, 4);
    return Ok(Schedule(minutes.value.0, hours.value.0, days.value.0, months.value.0, weekdays.value.0,
                       days.value.1, weekdays.value.1));
  }

  // cronSchedule.matches.
  predicate Matches(s: Schedule, now: Clock) {
    && now.minute in s.minutes && now.hour in s.hours && now.month in s.months
    && if s.dayAny || s.weekdayAny then now.day in s.days && now.weekday in s.weekdays
       else now.day in s.days || now.weekday in s.weekdays
  }

  // The usual reading of a cron line, given which fields the time satisfies: a lone star
  // in one of the day fields leaves the choice to the other; when both are restricted,
  // either may hold.
  predicate Reading(minute: bool, hour: bool, day: bool, month: bool, weekday: bool, dayStar: bool, weekdayStar: bool) {
    && minute && hour && month
    && if dayStar then weekdayStar || weekday else if weekdayStar then day else day || weekday
  }

  // The reading with the sets as they are built.
  ghost predicate Runs(fields: seq<string>, now: Clock)
    requires |fields| == 5
  {
    Reading(FieldHas(fields, 0, now.minute), FieldHas(fields, 1, now.hour), FieldHas(fields, 2, now.day),
            FieldHas(fields, 3, now.month), FieldHas(fields, 4, now.weekday), fields[2] == "*", fields[4] == "*")
  }

  // The reading with what the fields denote.
  ghost predicate Means(fields: seq<string>, now: Clock)
    requires |fields| == 5
  {
    Reading(FieldMeans(fields, 0, now.minute), FieldMeans(fields, 1, now.hour), FieldMeans(fields, 2, now.day),
            FieldMeans(fields, 3, now.month), FieldMeans(fields, 4, now.weekday), fields[2] == "*", fields[4] == "*")
  }

  lemma StarItems(minValue: int, maxValue: int)
    ensures FieldItems("*", minValue, maxValue) == Ok([Item(minValue, maxValue, 1)])
  {
    SplitFree("*", ',');
    assert CronStep("*") == Ok((1, "*"));
    OneItem("*", minValue, maxValue);
  }

  // A lone star holds every value of its field.
  lemma StarHasAll(fields: seq<string>, field: nat, v: int)
    requires field < |fields| && field < 5 && fields[field] == "*"
    requires MinOf(field) <= v <= MaxOf(field) && (field == 4 ==> v < 7)
    ensures FieldHas(fields, field, v)
  {
    StarItems(MinOf(field), MaxOf(field));
    hide FieldItems;
    var item := Item(MinOf(field), MaxOf(field), 1);
    assert OnStep(item, v) && v == Fold(v, field == 4) && Counted(item, v);
    assert ItemBuilds([item][0], field == 4, v);
  }

  // A parsed schedule matches exactly when the cron line, with its sets as they are
  // built, says so.
  lemma MatchesIsCron(value: string, s: Schedule, now: Clock)
    requires FieldsParse(value) && ValidClock(now)
    requires var f := Fields(value);
             && Holds(s.minutes, f, 0) && Holds(s.hours, f, 1) && Holds(s.days, f, 2) && Holds(s.months, f, 3)
             && Holds(s.weekdays, f, 4) && s.dayAny == (f[2] == "*") && s.weekdayAny == (f[4] == "*")
    ensures Matches(s, now) <==> Runs(Fields(value), now)
  {
    hide FieldHas;
    var f := Fields(value);
    if f[2] == "*" {
      StarHasAll(f, 2, now.day);
    }
    if f[4] == "*" {
      StarHasAll(f, 4, now.weekday);
    }
  }

  // With safe fields that is what the line means.
  lemma SafeLineRunsAsMeant(value: string, now: Clock)
    requires FieldsParse(value) && FieldsSafe(value)
    ensures Runs(Fields(value), now) <==> Means(Fields(value), now)
  {
    var f := Fields(value);
    forall k: nat, v | k < 5 ensures FieldHas(f, k, v) <==> FieldMeans(f, k, v) {
      SafeFieldBuildsItsMeaning(f, k, v);
    }
    hide FieldHas, FieldMeans;
  }

  lemma SafeFieldBuildsItsMeaning(fields: seq<string>, field: nat, v: int)
    requires field < |fields| && field < 5 && ItemsAt(fields, field).Ok?
    requires SafeField(fields[field], MinOf(field), MaxOf(field))
    ensures FieldHas(fields, field, v) <==> FieldMeans(fields, field, v)
  {
    hide Builds, Denotes, CronItems, Split;
    CronItemsAre(Split(fields[field], ','), MinOf(field), MaxOf(field));
    BuildsWhatItDenotesIff(ItemsAt(fields, field).value, field == 4);
  }

  // ---- At most once a minute ----

  datatype Stored = Stored(enabled: bool, lastRunAt: Option<int>)

  type Table = map<string, Stored>

  datatype Action =
    | MarkRun(id: string, minuteKey: int)
    | SetEnabled(id: string, enabled: bool)
    | Delete(id: string)

  // The WHERE clause of MarkRun.
  predicate Markable(table: Table, id: string, minuteKey: int) {
    id in table && table[id].enabled && table[id].lastRunAt != Some(minuteKey)
  }

  function Next(table: Table, a: Action): Table {
    match a
    case MarkRun(id, key) => if Markable(table, id, key) then table[id := table[id].(lastRunAt := Some(key))] else table
    case SetEnabled(id, enabled) => if id in table then table[id := table[id].(enabled := enabled)] else table
    case Delete(id) => table - {id}
  }

  ghost predicate Run(tables: seq<Table>, actions: seq<Action>) {
    && |tables| == |actions| + 1
    && forall i :: 0 <= i < |actions| ==> tables[i + 1] == Next(tables[i], actions[i])
  }

  // The clock of the scheduler does not go back.
  ghost predicate KeysAscend(actions: seq<Action>) {
    forall i, j :: 0 <= i < j < |actions| && actions[i].MarkRun? && actions[j].MarkRun? ==>
      actions[i].minuteKey <= actions[j].minuteKey
  }

  // The step marks the schedule for a key.
  ghost predicate Marks(tables: seq<Table>, actions: seq<Action>, m: nat, id: string, key: int)
    requires |tables| == |actions| + 1
  {
    m < |actions| && actions[m] == MarkRun(id, key) && Markable(tables[m], id, key)
  }

  // Between two steps some other key was marked, and this one has not been since.
  ghost predicate Displaced(tables: seq<Table>, actions: seq<Action>, i: nat, j: nat, id: string, key: int)
    requires |tables| == |actions| + 1
  {
    exists m: nat, other :: i < m < j && other != key && Marks(tables, actions, m, id, other)
      && forall n: nat :: m < n < j ==> !Marks(tables, actions, n, id, key)
  }

  lemma DisplacedNext(tables: seq<Table>, actions: seq<Action>, i: nat, k: nat, id: string, key: int)
    requires |tables| == |actions| + 1 && i < k < |actions|
    ensures Displaced(tables, actions, i, k + 1, id, key) <==>
              || (exists other :: other != key && Marks(tables, actions, k, id, other))
              || (Displaced(tables, actions, i, k, id, key) && !Marks(tables, actions, k, id, key))
  {
    hide Marks;
  }

  // After a step marked the key, the row remembers it unless it was displaced.
  lemma {:induction false} LastKey(tables: seq<Table>, actions: seq<Action>, i: nat, j: nat, id: string, key: int)
    requires Run(tables, actions) && i < j <= |actions| && Marks(tables, actions, i, id, key)
    ensures id in tables[j] ==>
              (tables[j][id].lastRunAt == Some(key) <==> !Displaced(tables, actions, i, j, id, key))
    decreases j
  {
    var k := j - 1;
    assert tables[k + 1] == Next(tables[k], actions[k]);
    if i < k {
      LastKey(tables, actions, i, k, id, key);
      DisplacedNext(tables, actions, i, k, id, key);
      hide Displaced;
      if actions[k].MarkRun? && actions[k].id == id && Markable(tables[k], id, actions[k].minuteKey) {
        assert Marks(tables, actions, k, id, actions[k].minuteKey);
      }
    }
  }

  // A minute that was marked is marked again if and only if the schedule is still there
  // and enabled, and another minute was marked in between and this one not again since.
  lemma MarkedAgainIff(tables: seq<Table>, actions: seq<Action>, i: nat, j: nat, id: string, key: int)
    requires Run(tables, actions) && i < j < |actions| && Marks(tables, actions, i, id, key)
    requires actions[j] == MarkRun(id, key)
    ensures Marks(tables, actions, j, id, key) <==>
              id in tables[j] && tables[j][id].enabled && Displaced(tables, actions, i, j, id, key)
  {
    LastKey(tables, actions, i, j, id, key);
  }

  // With a clock that does not go back, a schedule is marked, and so enqueued, at most
  // once for a minute.
  lemma AtMostOncePerMinute(tables: seq<Table>, actions: seq<Action>, i: nat, j: nat, id: string, key: int)
    requires Run(tables, actions) && KeysAscend(actions) && i < j < |actions|
    requires Marks(tables, actions, i, id, key)
    ensures !Marks(tables, actions, j, id, key)
  {
    if Marks(tables, actions, j, id, key) {
      forall m: nat, other | i < m < j && other != key ensures !Marks(tables, actions, m, id, other) {
      }
      hide Marks;
      assert !Displaced(tables, actions, i, j, id, key);
      MarkedAgainIff(tables, actions, i, j, id, key);
    }
  }

  // When the clock goes back a minute can be marked twice.
  lemma ClockGoingBackMarksTwice()
    ensures exists tables: seq<Table>, actions: seq<Action> ::
              && Run(tables, actions) && |actions| == 3
              && actions[0] == actions[2] == MarkRun("s", 5)
              && Markable(tables[0], "s", 5) && Markable(tables[2], "s", 5)
  {
    var t0: Table := map["s" := Stored(true, None)];
    var actions := [MarkRun("s", 5), MarkRun("s", 6), MarkRun("s", 5)];
    var t1 := Next(t0, actions[0]);
    var t2 := Next(t1, actions[1]);
    var tables := [t0, t1, t2, Next(t2, actions[2])];
    assert Run(tables, actions);
  }

  // The schedules checkScanSchedules starts: they parse, match and take the minute.
  ghost predicate Starts(table: Table, id: string, cron: string, now: Clock, minuteKey: int) {
    && FieldsParse(TrimSpace(cron)) && Markable(table, id, minuteKey)
    && Runs(Fields(TrimSpace(cron)), now)
  }

  class ScheduleRepository {
    var table: Table

    constructor ()
      ensures table == map[]
    {
      table := map[];
    }

    // One conditional update; true when it changed the row.
    method MarkRunOf(id: string, minuteKey: int) returns (marked: bool)
      modifies this
      ensures table == Next(old(table), MarkRun(id, minuteKey))
      ensures marked <==> Markable(old(table), id, minuteKey)
      ensures marked ==> !Markable(table, id, minuteKey)
    {
      marked := id in table && table[id].enabled && table[id].lastRunAt != Some(minuteKey);
      if marked {
        table := table[id := table[id].(lastRunAt := Some(minuteKey))];
      }
    }

    // checkScanSchedules over the enabled schedules, given as id and cron text.
    method CheckScanSchedules(items: seq<(string, string)>, now: Clock, minuteKey: int) returns (started: seq<string>)
      requires ValidClock(now)
      requires forall i, j :: 0 <= i < j < |items| ==> items[i].0 != items[j].0
      modifies this
      ensures forall i :: 0 <= i < |items| ==>
                (items[i].0 in started <==> Starts(old(table), items[i].0, items[i].1, now, minuteKey))
      ensures forall id :: id in started ==> !Markable(table, id, minuteKey)
    {
      hide FieldsParse, Runs, Matches, Holds, Fields, TrimSpace;
      started := [];
      for i := 0 to |items|
        invariant forall k :: 0 <= k < i ==>
                    (items[k].0 in started <==> Starts(old(table), items[k].0, items[k].1, now, minuteKey))
        invariant forall id :: id in started ==> exists k :: 0 <= k < i && items[k].0 == id
        invariant forall id :: id in started ==> !Markable(table, id, minuteKey)
        invariant forall k :: i <= k < |items| ==>
                    (Markable(table, items[k].0, minuteKey) <==> Markable(old(table), items[k].0, minuteKey))
      {
        var (id, cron) := items[i];
        var schedule := ParseCronSchedule(TrimSpace(cron));
        if schedule.Ok? {
          MatchesIsCron(TrimSpace(cron), schedule.value, now);
          if Matches(schedule.value, now) {
            var marked := MarkRunOf(id, minuteKey);
            if marked {
              started := started + [id];
            }
          }
        }
      }
    }
  }
}
