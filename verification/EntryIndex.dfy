/** The entry index and the scan that refreshes it: a walk over the remote tree that
  * skips directories holding an ignore file, an upsert per entry with the stamp of the
  * scan, and one sweep over the rows the walk did not stamp. */
module EntryIndex {
  import opened Wrappers
  import opened Strings
  import opened Paths
  import opened Like

  // A directory that is not listed is one whose listing the cloud fails to answer.
  datatype Tree =
    | File(name: string, facts: string)
    | Dir(name: string, facts: string, listed: bool, children: seq<Tree>)

  datatype Entry = Entry(path: seq<string>, tree: Tree)

  datatype Walk = Walk(entries: seq<Entry>, ok: bool)

  const IGNORE_FILE := ".ignore"

  // ---- The rule and the walk ----

  ghost predicate HasIgnoreFile(children: seq<Tree>) {
    exists i :: 0 <= i < |children| && children[i].File? && children[i].name == IGNORE_FILE
  }

  // EvaluateDirectory.
  method EvaluateDirectory(children: seq<Tree>) returns (skip: bool)
    ensures skip <==> HasIgnoreFile(children)
    ensures skip <==> exists i :: 0 <= i < |children| && children[i].File? && children[i].name == ".ignore"
  {
    for i := 0 to |children|
      invariant !HasIgnoreFile(children[..i])
    {
      if children[i].File? && children[i].name == IGNORE_FILE {
        return true;
      }
    }
    assert children[..|children|] == children;
    return false;
  }

  // walkNode: what it emits, in order, up to the first failed listing.
  ghost function WalkNode(path: seq<string>, dir: Tree): Walk
    decreases dir, 0
  {
    if dir.File? || !dir.listed then Walk([], false)
    else if HasIgnoreFile(dir.children) then Walk([], true)
    else
      var rest := WalkChildren(path, dir.children);
      Walk([Entry(path, dir)] + rest.entries, rest.ok)
  }

  ghost function WalkChild(path: seq<string>, child: Tree): Walk
    decreases child, 1
  {
    if child.Dir? then WalkNode(path + [child.name], child) else Walk([Entry(path + [child.name], child)], true)
  }

  ghost function WalkChildren(path: seq<string>, children: seq<Tree>): Walk
    decreases children, 2
  {
    if children == [] then Walk([], true)
    else
      var first := WalkChild(path, children[0]);
      if !first.ok then first
      else
        var rest := WalkChildren(path, children[1..]);
        Walk(first.entries + rest.entries, rest.ok)
  }

  // ---- The tree a scan is meant to index ----

  // Names are path segments without trailing blanks, and siblings differ by name.
  ghost predicate Valid(t: Tree) {
    t.Dir? && t.listed ==>
      && (forall i :: 0 <= i < |t.children| ==> ValidName(t.children[i].name) && Valid(t.children[i]))
      && Distinct(t.children)
  }

  ghost predicate Distinct(children: seq<Tree>) {
    forall i, j :: 0 <= i < j < |children| ==> children[i].name != children[j].name
  }

  function Named(children: seq<Tree>, name: string): Option<Tree> {
    if children == [] then None
    else if children[0].name == name then Some(children[0])
    else Named(children[1..], name)
  }

  function Child(t: Tree, name: string): Option<Tree> {
    if t.Dir? && t.listed then Named(t.children, name) else None
  }

  // The node below t at a relative path.
  function Lookup(t: Tree, rel: seq<string>): Option<Tree>
    decreases |rel|
  {
    if rel == [] then Some(t)
    else
      var child := Child(t, rel[0]);
      if child.None? then None else Lookup(child.value, rel[1..])
  }

  ghost predicate Ignored(t: Tree) {
    t.Dir? && t.listed && HasIgnoreFile(t.children)
  }

  // Some directory between t and the node at rel, both included, holds an ignore file.
  ghost predicate Hidden(t: Tree, rel: seq<string>) {
    exists k :: 0 <= k <= |rel| && Lookup(t, rel[..k]).Some? && Ignored(Lookup(t, rel[..k]).value)
  }

  ghost predicate Visible(t: Tree, rel: seq<string>) {
    Lookup(t, rel).Some? && !Hidden(t, rel)
  }

  lemma HiddenHere(t: Tree)
    ensures Hidden(t, []) <==> Ignored(t)
  {
    var none: seq<string> := [];
    assert none[..0] == [];
    assert Lookup(t, none[..0]) == Some(t);
  }

  lemma NotHiddenFile(t: Tree, rel: seq<string>)
    requires t.File?
    ensures !Hidden(t, rel)
  {
  }

  lemma HiddenNext(t: Tree, rel: seq<string>)
    requires rel != []
    ensures Hidden(t, rel) <==> Ignored(t) || (Child(t, rel[0]).Some? && Hidden(Child(t, rel[0]).value, rel[1..]))
  {
    assert rel[..0] == [];
    assert forall k :: 1 <= k <= |rel| ==> rel[..k][0] == rel[0] && rel[..k][1..] == rel[1..][..k - 1];
    if Child(t, rel[0]).Some? && Hidden(Child(t, rel[0]).value, rel[1..]) {
      var c := Child(t, rel[0]).value;
      var k :| 0 <= k <= |rel[1..]| && Lookup(c, rel[1..][..k]).Some? && Ignored(Lookup(c, rel[1..][..k]).value);
      assert Lookup(t, rel[..k + 1]) == Lookup(c, rel[1..][..k]);
    }
    if Hidden(t, rel) && !Ignored(t) {
      var k :| 0 <= k <= |rel| && Lookup(t, rel[..k]).Some? && Ignored(Lookup(t, rel[..k]).value);
      assert k > 0;
      assert Lookup(Child(t, rel[0]).value, rel[1..][..k - 1]) == Lookup(t, rel[..k]);
    }
  }

  lemma {:induction false} NamedAt(children: seq<Tree>, i: nat)
    requires Distinct(children) && i < |children|
    ensures Named(children, children[i].name) == Some(children[i])
  {
    if i > 0 {
      NamedAt(children[1..], i - 1);
    }
  }

  lemma {:induction false} NamedIsThere(children: seq<Tree>, name: string) returns (i: nat)
    requires Named(children, name).Some?
    ensures i < |children| && Named(children, name) == Some(children[i]) && children[i].name == name
  {
    if children[0].name == name {
      i := 0;
    } else {
      var k := NamedIsThere(children[1..], name);
      i := k + 1;
    }
  }

  lemma {:induction false} WalkChildrenAre(path: seq<string>, children: seq<Tree>, e: Entry)
    ensures e in WalkChildren(path, children).entries ==>
              exists i :: 0 <= i < |children| && e in WalkChild(path, children[i]).entries
    ensures WalkChildren(path, children).ok <==> forall i :: 0 <= i < |children| ==> WalkChild(path, children[i]).ok
    ensures WalkChildren(path, children).ok ==>
              forall i :: 0 <= i < |children| && e in WalkChild(path, children[i]).entries ==>
                e in WalkChildren(path, children).entries
  {
    if children != [] {
      WalkChildrenAre(path, children[1..], e);
      assert forall i :: 1 <= i < |children| ==> children[i] == children[1..][i - 1];
      if e in WalkChildren(path, children[1..]).entries {
        var i :| 0 <= i < |children[1..]| && e in WalkChild(path, children[1..][i]).entries;
        assert children[i + 1] == children[1..][i];
      }
    }
  }

  lemma {:induction false} WalkIsBelow(path: seq<string>, dir: Tree, e: Entry)
    requires e in WalkNode(path, dir).entries
    ensures path <= e.path
    decreases dir, 0
  {
    if e != Entry(path, dir) {
      WalkChildrenAreBelow(path, dir.children, e);
    }
  }

  lemma {:induction false} WalkChildrenAreBelow(path: seq<string>, children: seq<Tree>, e: Entry)
    requires e in WalkChildren(path, children).entries
    ensures path < e.path
    decreases children, 2
  {
    if e in WalkChild(path, children[0]).entries {
      WalkChildIsBelow(path, children[0], e);
    } else {
      WalkChildrenAreBelow(path, children[1..], e);
    }
  }

  lemma {:induction false} WalkChildIsBelow(path: seq<string>, child: Tree, e: Entry)
    requires e in WalkChild(path, child).entries
    ensures path + [child.name] <= e.path
    decreases child, 1
  {
    if child.Dir? {
      WalkIsBelow(path + [child.name], child, e);
    }
  }

  // What a walk emits the tree shows, and a walk that succeeds emits all that it shows.
  lemma {:induction false} WalkIsVisible(path: seq<string>, dir: Tree, e: Entry)
    requires dir.Dir? && Valid(dir) && path <= e.path
    ensures var shown := Lookup(dir, e.path[|path|..]) == Some(e.tree) && !Hidden(dir, e.path[|path|..]);
            && (e in WalkNode(path, dir).entries ==> shown)
            && (WalkNode(path, dir).ok && shown ==> e in WalkNode(path, dir).entries)
    decreases dir, 0
  {
    var rel := e.path[|path|..];
    if dir.listed {
      if rel == [] {
        assert e.path == path;
        HiddenHere(dir);
        if !Ignored(dir) && e in WalkChildren(path, dir.children).entries {
          WalkChildrenAreBelow(path, dir.children, e);
        }
      } else {
        HiddenNext(dir, rel);
        if !Ignored(dir) {
          VisibleInChildren(path, dir, e);
        }
      }
    }
  }

  lemma {:induction false} VisibleInChildren(path: seq<string>, dir: Tree, e: Entry)
    requires dir.Dir? && dir.listed && Valid(dir) && path < e.path
    ensures var rel := e.path[|path|..];
            var shown := Lookup(dir, rel) == Some(e.tree) && !Hidden(Child(dir, rel[0]).value, rel[1..]);
            && (e in WalkChildren(path, dir.children).entries ==> shown)
            && (WalkChildren(path, dir.children).ok && shown ==> e in WalkChildren(path, dir.children).entries)
    decreases dir, -1
  {
    var rel := e.path[|path|..];
    WalkChildrenAre(path, dir.children, e);
    assert path + [rel[0]] <= e.path && e.path[|path| + 1..] == rel[1..];
    forall i | 0 <= i < |dir.children| && e in WalkChild(path, dir.children[i]).entries
      ensures Lookup(dir, rel) == Some(e.tree) && !Hidden(Child(dir, rel[0]).value, rel[1..])
    {
      var c := dir.children[i];
      WalkChildIsBelow(path, c, e);
      assert (path + [c.name])[|path|] == c.name;
      NamedAt(dir.children, i);
      WalkChildIsVisible(path, c, e);
    }
    if Child(dir, rel[0]).Some? {
      var i := NamedIsThere(dir.children, rel[0]);
      WalkChildIsVisible(path, dir.children[i], e);
    }
  }

  lemma {:induction false} WalkChildIsVisible(path: seq<string>, child: Tree, e: Entry)
    requires Valid(child) && path + [child.name] <= e.path
    ensures var shown := Lookup(child, e.path[|path| + 1..]) == Some(e.tree) && !Hidden(child, e.path[|path| + 1..]);
            && (e in WalkChild(path, child).entries ==> shown)
            && (WalkChild(path, child).ok && shown ==> e in WalkChild(path, child).entries)
    decreases child, 1
  {
    if child.Dir? {
      WalkIsVisible(path + [child.name], child, e);
    } else {
      NotHiddenFile(child, e.path[|path| + 1..]);
      assert e.path[|path| + 1..] == [] ==> e.path == path + [child.name];
    }
  }

  // ---- When a walk succeeds ----

  // Every directory the tree shows answers its listing.
  ghost predicate AllListed(t: Tree) {
    forall rel :: Visible(t, rel) && Lookup(t, rel).value.Dir? ==> Lookup(t, rel).value.listed
  }

  // A walk succeeds if and only if no listing of a directory that the tree shows fails.
  lemma {:induction false} WalkSucceedsIff(path: seq<string>, dir: Tree)
    requires dir.Dir? && Valid(dir)
    ensures WalkNode(path, dir).ok <==> AllListed(dir)
    decreases dir, 0
  {
    if !dir.listed {
      HiddenHere(dir);
      assert Visible(dir, []) && Lookup(dir, []) == Some(dir);
    } else if Ignored(dir) {
      forall rel ensures !Visible(dir, rel) {
        assert rel[..0] == [] && Lookup(dir, rel[..0]) == Some(dir);
      }
    } else {
      WalkChildrenAre(path, dir.children, Entry(path, dir));
      forall i | 0 <= i < |dir.children| ensures WalkChild(path, dir.children[i]).ok <==> AllListed(dir.children[i]) {
        WalkChildSucceedsIff(path, dir.children[i]);
      }
      ListedBelow(dir);
    }
  }

  lemma {:induction false} WalkChildSucceedsIff(path: seq<string>, child: Tree)
    requires Valid(child)
    ensures WalkChild(path, child).ok <==> AllListed(child)
    decreases child, 1
  {
    if child.Dir? {
      WalkSucceedsIff(path + [child.name], child);
    }
  }

  lemma ListedBelow(dir: Tree)
    requires dir.Dir? && dir.listed && Valid(dir) && !Ignored(dir)
    ensures AllListed(dir) <==> forall i :: 0 <= i < |dir.children| ==> AllListed(dir.children[i])
  {
    hide Ignored, Hidden, HasIgnoreFile;
    if AllListed(dir) {
      forall i, rel | 0 <= i < |dir.children| && Visible(dir.children[i], rel) && Lookup(dir.children[i], rel).value.Dir?
        ensures Lookup(dir.children[i], rel).value.listed
      {
        NamedAt(dir.children, i);
        var whole := [dir.children[i].name] + rel;
        assert whole[1..] == rel;
        HiddenNext(dir, whole);
        assert Visible(dir, whole) && Lookup(dir, whole) == Lookup(dir.children[i], rel);
      }
    }
    if forall i :: 0 <= i < |dir.children| ==> AllListed(dir.children[i]) {
      forall rel | Visible(dir, rel) && Lookup(dir, rel).value.Dir? ensures Lookup(dir, rel).value.listed {
        if rel != [] {
          var i := NamedIsThere(dir.children, rel[0]);
          HiddenNext(dir, rel);
          assert Visible(dir.children[i], rel[1..]);
        }
      }
    }
  }

  // A scan that starts at a directory below another does not look at the ignore files
  // above it: it indexes there what a scan from above would, exactly when it is itself
  // ignored or no directory above it is.
  lemma PartialScanAgreesIff(t: Tree, rel: seq<string>, d: Tree)
    requires Lookup(t, rel) == Some(d) && d.Dir?
    ensures (forall below :: Visible(d, below) <==> Visible(t, rel + below))
            <==> Ignored(d) || !IgnoredAbove(t, rel)
  {
    LookupPrefixes(t, rel);
    forall below ensures Visible(t, rel + below) <==> Visible(d, below) && !IgnoredAbove(t, rel) {
      LookupAppend(t, rel, below);
      HiddenAppend(t, rel, below, d);
    }
    HiddenHere(d);
    if Ignored(d) {
      forall below ensures !Visible(d, below) {
        assert below[..0] == [];
        assert Lookup(d, below[..0]) == Some(d);
      }
    } else {
      assert Visible(d, []);
      assert Visible(t, rel + []) <==> !IgnoredAbove(t, rel);
    }
  }

  ghost predicate IgnoredAbove(t: Tree, rel: seq<string>) {
    exists k :: 0 <= k < |rel| && Lookup(t, rel[..k]).Some? && Ignored(Lookup(t, rel[..k]).value)
  }

  lemma {:induction false} LookupAppend(t: Tree, rel: seq<string>, below: seq<string>)
    ensures Lookup(t, rel + below) == if Lookup(t, rel).None? then None else Lookup(Lookup(t, rel).value, below)
    decreases |rel|
  {
    if rel == [] {
      assert rel + below == below;
    } else {
      assert (rel + below)[0] == rel[0] && (rel + below)[1..] == rel[1..] + below;
      if Child(t, rel[0]).Some? {
        LookupAppend(Child(t, rel[0]).value, rel[1..], below);
      }
    }
  }

  lemma LookupPrefixes(t: Tree, rel: seq<string>)
    requires Lookup(t, rel).Some?
    ensures forall k :: 0 <= k <= |rel| ==> Lookup(t, rel[..k]).Some?
  {
    forall k | 0 <= k <= |rel| ensures Lookup(t, rel[..k]).Some? {
      LookupAppend(t, rel[..k], rel[k..]);
      assert rel[..k] + rel[k..] == rel;
    }
  }

  lemma HiddenAppend(t: Tree, rel: seq<string>, below: seq<string>, d: Tree)
    requires Lookup(t, rel) == Some(d)
    ensures Hidden(t, rel + below) <==> IgnoredAbove(t, rel) || Hidden(d, below)
  {
    var all := rel + below;
    hide Ignored, Lookup;
    forall k | 0 <= k < |rel| ensures all[..k] == rel[..k] {}
    forall k | 0 <= k <= |below| ensures Lookup(t, all[..|rel| + k]) == Lookup(d, below[..k]) {
      LookupAppend(t, rel, below[..k]);
      assert all[..|rel| + k] == rel + below[..k];
    }
    if Hidden(t, all) && !IgnoredAbove(t, rel) {
      var k :| 0 <= k <= |all| && Lookup(t, all[..k]).Some? && Ignored(Lookup(t, all[..k]).value);
      assert k >= |rel|;
      assert Lookup(d, below[..k - |rel|]) == Lookup(t, all[..|rel| + (k - |rel|)]);
    }
    if Hidden(d, below) {
      var k :| 0 <= k <= |below| && Lookup(d, below[..k]).Some? && Ignored(Lookup(d, below[..k]).value);
      assert Lookup(t, all[..|rel| + k]) == Lookup(d, below[..k]);
    }
    if IgnoredAbove(t, rel) {
      var k :| 0 <= k < |rel| && Lookup(t, rel[..k]).Some? && Ignored(Lookup(t, rel[..k]).value);
      assert Lookup(t, all[..k]) == Lookup(t, rel[..k]);
    }
  }

  // A directory with an ignore file above one with the file "f".
  const SHADED: Tree := Dir("", "", true, [File(IGNORE_FILE, ""), Dir("d", "", true, [File("f", "")])])

  // A scan of "d" alone shows "f", which a scan from above hides.
  lemma PartialScanShowsIgnored()
    ensures var d := Lookup(SHADED, ["d"]);
            d.Some? && Visible(d.value, ["f"]) && !Visible(SHADED, ["d"] + ["f"])
  {
    var d := Dir("d", "", true, [File("f", "")]);
    var none: seq<string> := [];
    assert IGNORE_FILE[0] == '.' && "f"[0] == 'f' && "d"[0] == 'd';
    assert SHADED.children[1] == d && SHADED.children[1..][0] == d;
    assert ["d"][1..] == none && ["f"][1..] == none;
    assert IGNORE_FILE != "d" && Named(SHADED.children, "d") == Some(d);
    assert Lookup(SHADED, ["d"]) == Lookup(d, none) == Some(d);
    assert Lookup(d, ["f"]) == Some(d.children[0]);
    assert !Ignored(d);
    HiddenNext(d, ["f"]);
    NotHiddenFile(d.children[0], none);
    assert SHADED.children[0].File? && Ignored(SHADED);
    HiddenNext(SHADED, ["d"] + ["f"]);
  }

  // ---- The rows ----

  datatype Key = Key(providerId: string, path: string)

  datatype Row = Row(isDir: bool, name: string, facts: string, lastSeenAt: string)

  type Rows = map<Key, Row>

  function KeyOf(providerId: string, e: Entry): Key {
    Key(providerId, Render(e.path))
  }

  function RowOf(e: Entry, seenAt: string): Row {
    Row(e.tree.Dir?, e.tree.name, e.tree.facts, seenAt)
  }

  function UpsertAll(rows: Rows, providerId: string, entries: seq<Entry>, seenAt: string): Rows
    decreases |entries|
  {
    if entries == [] then rows
    else UpsertAll(rows[KeyOf(providerId, entries[0]) := RowOf(entries[0], seenAt)], providerId, entries[1..], seenAt)
  }

  predicate InScope(k: Key, providerId: string, prefix: string) {
    k.providerId == providerId && UnderPrefix(k.path, prefix)
  }

  // DeleteStaleUnderPrefix: one statement.
  function Swept(rows: Rows, providerId: string, prefix: string, seenAt: string): Rows {
    map k | k in rows && !(InScope(k, providerId, prefix) && rows[k].lastSeenAt != seenAt) :: rows[k]
  }

  lemma {:induction false} UpsertAllAppend(rows: Rows, providerId: string, a: seq<Entry>, b: seq<Entry>, seenAt: string)
    ensures UpsertAll(rows, providerId, a + b, seenAt)
         == UpsertAll(UpsertAll(rows, providerId, a, seenAt), providerId, b, seenAt)
    decreases |a|
  {
    if a == [] {
      assert a + b == b;
    } else {
      assert (a + b)[0] == a[0] && (a + b)[1..] == a[1..] + b;
      UpsertAllAppend(rows[KeyOf(providerId, a[0]) := RowOf(a[0], seenAt)], providerId, a[1..], b, seenAt);
    }
  }

  // One entry per path.
  ghost predicate Functional(entries: seq<Entry>, providerId: string) {
    forall d, e :: d in entries && e in entries && KeyOf(providerId, d) == KeyOf(providerId, e) ==> d == e
  }

  ghost predicate Indexed(entries: seq<Entry>, providerId: string, k: Key) {
    exists e :: e in entries && KeyOf(providerId, e) == k
  }

  lemma {:induction false} UpsertedRows(rows: Rows, providerId: string, entries: seq<Entry>, seenAt: string, k: Key)
    requires Functional(entries, providerId)
    ensures var after := UpsertAll(rows, providerId, entries, seenAt);
            && (k in after <==> k in rows || Indexed(entries, providerId, k))
            && (!Indexed(entries, providerId, k) && k in rows ==> k in after && after[k] == rows[k])
            && (forall e :: e in entries && KeyOf(providerId, e) == k ==> k in after && after[k] == RowOf(e, seenAt))
    decreases |entries|
  {
    if entries != [] {
      var first := entries[0];
      var next := rows[KeyOf(providerId, first) := RowOf(first, seenAt)];
      assert forall e :: e in entries <==> e == first || e in entries[1..];
      UpsertedRows(next, providerId, entries[1..], seenAt, k);
      assert Indexed(entries, providerId, k) <==> KeyOf(providerId, first) == k || Indexed(entries[1..], providerId, k);
    }
  }

  // ---- A whole scan ----

  // A directory of a valid tree at a canonical path.
  ghost predicate WellPlaced(base: seq<string>, dir: Tree) {
    Good(base) && !EndsWithSpace(Render(base)) && dir.Dir? && Valid(dir)
  }

  // One in which no listing fails.
  ghost predicate Scannable(base: seq<string>, dir: Tree) {
    WellPlaced(base, dir) && AllListed(dir)
  }

  // The index after the walk and the sweep.
  ghost function Scanned(rows: Rows, providerId: string, base: seq<string>, dir: Tree, seenAt: string): Rows {
    Swept(UpsertAll(rows, providerId, WalkNode(base, dir).entries, seenAt), providerId, Render(base), seenAt)
  }

  ghost predicate VisiblePath(base: seq<string>, dir: Tree, path: string) {
    exists rel :: Visible(dir, rel) && Render(base + rel) == path
  }

  lemma {:induction false} LookupIsGood(t: Tree, rel: seq<string>)
    requires Valid(t) && Lookup(t, rel).Some?
    ensures Good(rel)
    decreases |rel|
  {
    if rel != [] {
      var i := NamedIsThere(t.children, rel[0]);
      LookupIsGood(t.children[i], rel[1..]);
      assert forall k :: 1 <= k < |rel| ==> rel[k] == rel[1..][k - 1];
    }
  }

  lemma BelowIsUnderPrefix(base: seq<string>, path: seq<string>)
    requires Good(path) && base <= path
    ensures UnderPrefix(Render(path), Render(base))
  {
    if base == [] {
      SlashPercent(Render(path));
    } else {
      RenderedAncestor(path, base);
      EscapingIsExact(Render(path), Render(base));
    }
  }

  lemma WalkedEntry(base: seq<string>, dir: Tree, e: Entry)
    requires Scannable(base, dir) && e in WalkNode(base, dir).entries
    ensures base <= e.path && Good(e.path) && Visible(dir, e.path[|base|..])
    ensures Lookup(dir, e.path[|base|..]) == Some(e.tree)
    ensures UnderPrefix(Render(e.path), Render(base))
  {
    hide UnderPrefix, Hidden, Lookup, GoodSegment, EndsWithSpace;
    WalkIsBelow(base, dir, e);
    WalkIsVisible(base, dir, e);
    LookupIsGood(dir, e.path[|base|..]);
    assert e.path == base + e.path[|base|..];
    hide WalkNode, Valid;
    BelowIsUnderPrefix(base, e.path);
  }

  lemma VisibleEntry(base: seq<string>, dir: Tree, rel: seq<string>)
    requires Scannable(base, dir) && Visible(dir, rel)
    ensures Entry(base + rel, Lookup(dir, rel).value) in WalkNode(base, dir).entries
  {
    var e := Entry(base + rel, Lookup(dir, rel).value);
    assert e.path[|base|..] == rel;
    WalkSucceedsIff(base, dir);
    WalkIsVisible(base, dir, e);
  }

  lemma WalkIsFunctional(providerId: string, base: seq<string>, dir: Tree)
    requires Scannable(base, dir)
    ensures Functional(WalkNode(base, dir).entries, providerId)
  {
    var entries := WalkNode(base, dir).entries;
    forall d, e | d in entries && e in entries && KeyOf(providerId, d) == KeyOf(providerId, e) ensures d == e {
      WalkedEntry(base, dir, d);
      WalkedEntry(base, dir, e);
      hide *;
      RenderInjective(d.path, e.path);
    }
  }

  lemma IndexedIsVisible(providerId: string, base: seq<string>, dir: Tree, k: Key)
    requires Scannable(base, dir)
    ensures Indexed(WalkNode(base, dir).entries, providerId, k) <==>
              k.providerId == providerId && VisiblePath(base, dir, k.path)
    ensures Indexed(WalkNode(base, dir).entries, providerId, k) ==> InScope(k, providerId, Render(base))
  {
    hide Scannable, WalkNode, Lookup, Hidden, UnderPrefix, Render;
    var entries := WalkNode(base, dir).entries;
    if Indexed(entries, providerId, k) {
      var e :| e in entries && KeyOf(providerId, e) == k;
      WalkedEntry(base, dir, e);
      assert base + e.path[|base|..] == e.path;
    }
    if k.providerId == providerId && VisiblePath(base, dir, k.path) {
      var rel :| Visible(dir, rel) && Render(base + rel) == k.path;
      VisibleEntry(base, dir, rel);
      assert KeyOf(providerId, Entry(base + rel, Lookup(dir, rel).value)) == k;
    }
  }

  // Under the scanned path the index holds what the walk saw, and any row it did not see
  // that already carried the stamp; everything else is untouched.
  lemma ScannedRows(rows: Rows, providerId: string, base: seq<string>, dir: Tree, seenAt: string, k: Key)
    requires Scannable(base, dir)
    ensures var after := Scanned(rows, providerId, base, dir, seenAt);
            if !InScope(k, providerId, Render(base))
            then (k in after <==> k in rows) && (k in rows ==> after[k] == rows[k])
            else if VisiblePath(base, dir, k.path) then k in after
            else (k in after <==> k in rows && rows[k].lastSeenAt == seenAt) && (k in after ==> after[k] == rows[k])
  {
    hide Scannable, WalkNode, VisiblePath, UnderPrefix, Render, Functional;
    var entries := WalkNode(base, dir).entries;
    WalkIsFunctional(providerId, base, dir);
    UpsertedRows(rows, providerId, entries, seenAt, k);
    IndexedIsVisible(providerId, base, dir, k);
    if Indexed(entries, providerId, k) {
      var e :| e in entries && KeyOf(providerId, e) == k;
      assert UpsertAll(rows, providerId, entries, seenAt)[k] == RowOf(e, seenAt);
    }
  }

  // Every visible node of the tree is in the index with its own facts and the stamp.
  lemma VisibleIsIndexed(rows: Rows, providerId: string, base: seq<string>, dir: Tree, seenAt: string, rel: seq<string>)
    requires Scannable(base, dir) && Visible(dir, rel)
    ensures var k := Key(providerId, Render(base + rel));
            var after := Scanned(rows, providerId, base, dir, seenAt);
            var node := Lookup(dir, rel).value;
            k in after && after[k] == Row(node.Dir?, node.name, node.facts, seenAt)
  {
    hide Scannable, WalkNode, UnderPrefix, Render, Functional, Hidden, Lookup;
    var e := Entry(base + rel, Lookup(dir, rel).value);
    VisibleEntry(base, dir, rel);
    WalkIsFunctional(providerId, base, dir);
    UpsertedRows(rows, providerId, WalkNode(base, dir).entries, seenAt, KeyOf(providerId, e));
  }

  // Mark and sweep is exact if and only if no row that the tree no longer shows already
  // carries the stamp of this scan.
  lemma ScanIsExactIff(rows: Rows, providerId: string, base: seq<string>, dir: Tree, seenAt: string)
    requires Scannable(base, dir)
    ensures (forall k :: InScope(k, providerId, Render(base)) ==>
               (k in Scanned(rows, providerId, base, dir, seenAt) <==> VisiblePath(base, dir, k.path)))
            <==>
            (forall k :: k in rows && InScope(k, providerId, Render(base)) && rows[k].lastSeenAt == seenAt ==>
               VisiblePath(base, dir, k.path))
  {
    hide Scannable, Scanned, VisiblePath, UnderPrefix, Render;
    forall k ensures var after := Scanned(rows, providerId, base, dir, seenAt);
                     InScope(k, providerId, Render(base)) && !VisiblePath(base, dir, k.path) ==>
                       (k in after <==> k in rows && rows[k].lastSeenAt == seenAt)
             ensures var after := Scanned(rows, providerId, base, dir, seenAt);
                     InScope(k, providerId, Render(base)) && VisiblePath(base, dir, k.path) ==> k in after
    {
      ScannedRows(rows, providerId, base, dir, seenAt, k);
    }
  }

  // A row of a file that is gone survives the sweep if a scan of the same second stamped it.
  lemma StaleStampSurvives(stamp: string)
    ensures var gone := Key("p", "/x");
            var dir := Dir("", "", true, []);
            && Scannable([], dir) && InScope(gone, "p", Render([])) && !VisiblePath([], dir, gone.path)
            && gone in Scanned(map[gone := Row(false, "x", "", stamp)], "p", [], dir, stamp)
  {
    var dir := Dir("", "", true, []);
    RenderSingle("x");
    assert Render(["x"]) == "/x" && [] + ["x"] == ["x"];
    BelowIsUnderPrefix([], ["x"]);
    forall rel | Visible(dir, rel) ensures Render([] + rel) != "/x" {
      assert rel == [];
    }
    hide UnderPrefix, Hidden;
    ScannedRows(map[Key("p", "/x") := Row(false, "x", "", stamp)], "p", [], dir, stamp, Key("p", "/x"));
  }

  lemma WalkStep(path: seq<string>, children: seq<Tree>, i: nat)
    requires i < |children|
    ensures var first := WalkChild(path, children[i]);
            var rest := WalkChildren(path, children[i + 1..]);
            WalkChildren(path, children[i..]) == if first.ok then Walk(first.entries + rest.entries, rest.ok) else first
  {
    assert children[i..][1..] == children[i + 1..];
  }

  // A directory that holds an ignore file, below none that does: what a walk skips.
  ghost predicate Skippable(path: seq<string>, dir: Tree, d: string) {
    exists rel :: Lookup(dir, rel).Some? && Ignored(Lookup(dir, rel).value) && !IgnoredAbove(dir, rel)
                  && d == Render(path + rel)
  }

  lemma IgnoredAboveNext(t: Tree, rel: seq<string>)
    requires rel != []
    ensures IgnoredAbove(t, rel) <==> Ignored(t) || (Child(t, rel[0]).Some? && IgnoredAbove(Child(t, rel[0]).value, rel[1..]))
  {
    hide Ignored;
    assert rel[..0] == [] && Lookup(t, rel[..0]) == Some(t);
    forall k | 1 <= k <= |rel| ensures rel[..k][0] == rel[0] && rel[..k][1..] == rel[1..][..k - 1] {}
    if Child(t, rel[0]).Some? && IgnoredAbove(Child(t, rel[0]).value, rel[1..]) {
      var c := Child(t, rel[0]).value;
      var k :| 0 <= k < |rel[1..]| && Lookup(c, rel[1..][..k]).Some? && Ignored(Lookup(c, rel[1..][..k]).value);
      assert Lookup(t, rel[..k + 1]) == Lookup(c, rel[1..][..k]);
    }
    if IgnoredAbove(t, rel) && !Ignored(t) {
      var k :| 0 <= k < |rel| && Lookup(t, rel[..k]).Some? && Ignored(Lookup(t, rel[..k]).value);
      assert Lookup(Child(t, rel[0]).value, rel[1..][..k - 1]) == Lookup(t, rel[..k]);
    }
  }

  // The walk skips an ignored directory itself, and of any other what it skips in its children.
  lemma SkippableHere(path: seq<string>, dir: Tree, d: string)
    requires Ignored(dir)
    ensures Skippable(path, dir, d) <==> d == Render(path)
  {
    assert Lookup(dir, []) == Some(dir) && path + [] == path && !IgnoredAbove(dir, []);
    forall rel | rel != [] ensures IgnoredAbove(dir, rel) {
      IgnoredAboveNext(dir, rel);
    }
    hide Ignored, IgnoredAbove;
  }

  lemma SkippableInChildren(path: seq<string>, dir: Tree, d: string)
    requires dir.Dir? && dir.listed && Valid(dir) && !Ignored(dir)
    ensures Skippable(path, dir, d) <==>
              exists i :: 0 <= i < |dir.children| && Skippable(path + [dir.children[i].name], dir.children[i], d)
  {
    if i :| 0 <= i < |dir.children| && Skippable(path + [dir.children[i].name], dir.children[i], d) {
      SkippableBelow(path, dir, i, d);
    }
    if Skippable(path, dir, d) {
      var rel :| Lookup(dir, rel).Some? && Ignored(Lookup(dir, rel).value) && !IgnoredAbove(dir, rel)
                 && d == Render(path + rel);
      hide Ignored, Render, IgnoredAbove;
      assert rel != [];
      var i := NamedIsThere(dir.children, rel[0]);
      IgnoredAboveNext(dir, rel);
      assert path + [rel[0]] + rel[1..] == path + rel;
      assert Skippable(path + [dir.children[i].name], dir.children[i], d);
    }
  }

  lemma SkippableBelow(path: seq<string>, dir: Tree, i: nat, d: string)
    requires dir.Dir? && dir.listed && Valid(dir) && !Ignored(dir) && i < |dir.children|
    requires Skippable(path + [dir.children[i].name], dir.children[i], d)
    ensures Skippable(path, dir, d)
  {
    hide Ignored, Render, IgnoredAbove;
    var child := dir.children[i];
    NamedAt(dir.children, i);
    var rel :| Lookup(child, rel).Some? && Ignored(Lookup(child, rel).value) && !IgnoredAbove(child, rel)
               && d == Render(path + [child.name] + rel);
    var whole := [child.name] + rel;
    assert whole[1..] == rel && path + [child.name] + rel == path + whole;
    assert Lookup(dir, whole) == Lookup(child, rel);
    IgnoredAboveNext(dir, whole);
  }

  lemma FileSkipsNothing(path: seq<string>, file: Tree, d: string)
    requires file.File?
    ensures !Skippable(path, file, d)
  {
    hide Render;
  }

  // What the walk skips in the first children, and in one more.
  ghost predicate SkippedIn(path: seq<string>, children: seq<Tree>, i: nat, d: string)
    requires i <= |children|
  {
    exists k :: 0 <= k < i && Skippable(path + [children[k].name], children[k], d)
  }

  lemma SkippedNext(path: seq<string>, children: seq<Tree>, i: nat, d: string)
    requires i < |children|
    ensures SkippedIn(path, children, i + 1, d) <==>
              SkippedIn(path, children, i, d) || Skippable(path + [children[i].name], children[i], d)
  {
    hide Skippable;
  }

  // ---- A walk that fails ----

  lemma {:induction false} UpsertKeepsKeys(rows: Rows, providerId: string, entries: seq<Entry>, seenAt: string)
    ensures rows.Keys <= UpsertAll(rows, providerId, entries, seenAt).Keys
    decreases |entries|
  {
    if entries != [] {
      UpsertKeepsKeys(rows[KeyOf(providerId, entries[0]) := RowOf(entries[0], seenAt)], providerId, entries[1..], seenAt);
    }
  }

  // The row a scan with this stamp gives to a node that the tree shows.
  ghost predicate Stamped(providerId: string, base: seq<string>, dir: Tree, seenAt: string, k: Key, row: Row) {
    exists rel :: Visible(dir, rel) && k == Key(providerId, Render(base + rel))
                  && var node := Lookup(dir, rel).value; row == Row(node.Dir?, node.name, node.facts, seenAt)
  }

  lemma {:induction false} UpsertedFrom(rows: Rows, providerId: string, entries: seq<Entry>, seenAt: string, k: Key)
    requires k in UpsertAll(rows, providerId, entries, seenAt)
    ensures var row := UpsertAll(rows, providerId, entries, seenAt)[k];
            || (k in rows && row == rows[k])
            || exists e :: e in entries && KeyOf(providerId, e) == k && row == RowOf(e, seenAt)
    decreases |entries|
  {
    if entries != [] {
      UpsertedFrom(rows[KeyOf(providerId, entries[0]) := RowOf(entries[0], seenAt)], providerId, entries[1..], seenAt, k);
    }
  }

  // However far a walk comes, each row it leaves is an old one or that of a node the tree
  // shows, with its facts and the stamp.
  lemma WalkedRows(rows: Rows, providerId: string, base: seq<string>, dir: Tree, seenAt: string, k: Key)
    requires dir.Dir? && Valid(dir)
    requires k in UpsertAll(rows, providerId, WalkNode(base, dir).entries, seenAt)
    ensures var row := UpsertAll(rows, providerId, WalkNode(base, dir).entries, seenAt)[k];
            (k in rows && row == rows[k]) || Stamped(providerId, base, dir, seenAt, k, row)
  {
    hide WalkNode, Hidden, Lookup, Render;
    var entries := WalkNode(base, dir).entries;
    UpsertedFrom(rows, providerId, entries, seenAt, k);
    var row := UpsertAll(rows, providerId, entries, seenAt)[k];
    if e :| e in entries && KeyOf(providerId, e) == k && row == RowOf(e, seenAt) {
      WalkIsBelow(base, dir, e);
      WalkIsVisible(base, dir, e);
      assert e.path == base + e.path[|base|..];
      assert Visible(dir, e.path[|base|..]);
    }
  }

  // ---- The object ----

  class EntryRepository {
    var rows: Rows

    constructor ()
      ensures rows == map[]
    {
      rows := map[];
    }

    method Upsert(providerId: string, path: string, row: Row)
      modifies this
      ensures rows == old(rows)[Key(providerId, path) := row]
    {
      rows := rows[Key(providerId, path) := row];
    }

    method DeleteStaleUnderPrefix(providerId: string, prefix: string, seenAt: string)
      modifies this
      ensures rows == Swept(old(rows), providerId, prefix, seenAt)
    {
      rows := map k | k in rows
                && !(k.providerId == providerId && rows[k].lastSeenAt != seenAt && UnderPrefix(k.path, prefix)) :: rows[k];
    }

    method ListUnderPrefix(providerId: string, prefix: string) returns (keys: seq<Key>)
      ensures forall k :: k in keys <==> k in rows && InScope(k, providerId, prefix)
    {
      hide UnderPrefix;
      keys := [];
      var rest := set k | k in rows && InScope(k, providerId, prefix);
      while rest != {}
        invariant forall k :: k in keys || k in rest <==> k in rows && InScope(k, providerId, prefix)
        decreases |rest|
      {
        var k :| k in rest;
        keys := keys + [k];
        rest := rest - {k};
      }
    }

    // walkNode with the callbacks of scanMount: paths are strings here. The directories
    // it skips are returned, failure or not.
    method WalkFrom(providerId: string, path: string, ghost segs: seq<string>, dir: Tree, seenAt: string)
      returns (ok: bool, skipped: seq<string>)
      requires path == Render(segs) && Good(segs) && dir.Dir? && Valid(dir)
      modifies this
      ensures ok <==> WalkNode(segs, dir).ok
      ensures rows == UpsertAll(old(rows), providerId, WalkNode(segs, dir).entries, seenAt)
      ensures forall d :: d in skipped ==> Skippable(segs, dir, d)
      ensures ok ==> forall d :: Skippable(segs, dir, d) ==> d in skipped
      decreases dir
    {
      hide Render, ChildPath, ValidName;
      skipped := [];
      if !dir.listed {
        return false, skipped;
      }
      var skip := EvaluateDirectory(dir.children);
      if skip {
        forall d ensures Skippable(segs, dir, d) <==> d == path {
          SkippableHere(segs, dir, d);
        }
        return true, [path];
      }
      forall d ensures Skippable(segs, dir, d) <==> SkippedIn(segs, dir.children, |dir.children|, d) {
        SkippableInChildren(segs, dir, d);
      }
      assert !Ignored(dir);
      hide HasIgnoreFile, Skippable, SkippedIn, Ignored;
      Upsert(providerId, path, Row(true, dir.name, dir.facts, seenAt));
      ghost var done := [Entry(segs, dir)];
      for i := 0 to |dir.children|
        invariant rows == UpsertAll(old(rows), providerId, done, seenAt)
        invariant WalkNode(segs, dir).entries == done + WalkChildren(segs, dir.children[i..]).entries
        invariant WalkNode(segs, dir).ok == WalkChildren(segs, dir.children[i..]).ok
        invariant forall d :: d in skipped ==> Skippable(segs, dir, d)
        invariant forall d :: d in skipped <==> SkippedIn(segs, dir.children, i, d)
      {
        var item := dir.children[i];
        forall d ensures SkippedIn(segs, dir.children, i + 1, d) <==>
                           SkippedIn(segs, dir.children, i, d) || Skippable(segs + [item.name], item, d)
        {
          SkippedNext(segs, dir.children, i, d);
        }
        WalkStep(segs, dir.children, i);
        ChildPathIsRendered(segs, item.name);
        ghost var more := WalkChild(segs, item).entries;
        UpsertAllAppend(old(rows), providerId, done, more, seenAt);
        var childPath := ChildPath(path, item.name);
        if item.Dir? {
          var below: seq<string>;
          ok, below := WalkFrom(providerId, childPath, segs + [item.name], item, seenAt);
          forall d | d in below ensures Skippable(segs, dir, d) {
            SkippableBelow(segs, dir, i, d);
          }
          skipped := skipped + below;
          if !ok {
            return false, skipped;
          }
        } else {
          forall d ensures !Skippable(segs + [item.name], item, d) {
            FileSkipsNothing(segs + [item.name], item, d);
          }
          Upsert(providerId, childPath, Row(false, item.name, item.facts, seenAt));
        }
        done := done + more;
      }
      assert WalkNode(segs, dir).entries == done;
      return true, skipped;
    }

    // The index part of scanMount. It succeeds exactly when each directory that the tree
    // shows answers its listing. After a failed walk nothing has been deleted.
    method Refresh(providerId: string, path: string, ghost base: seq<string>, dir: Tree, seenAt: string)
      returns (ok: bool, skipped: seq<string>)
      requires path == Render(base) && Good(base) && dir.Dir? && Valid(dir)
      modifies this
      ensures ok <==> AllListed(dir)
      ensures ok ==> rows == Scanned(old(rows), providerId, base, dir, seenAt)
      ensures !ok ==> rows == UpsertAll(old(rows), providerId, WalkNode(base, dir).entries, seenAt)
      ensures !ok ==> forall k :: k in old(rows) ==> k in rows
      ensures forall k :: k in rows ==>
                (k in old(rows) && rows[k] == old(rows)[k]) || Stamped(providerId, base, dir, seenAt, k, rows[k])
      ensures forall d :: d in skipped ==> Skippable(base, dir, d)
      ensures ok ==> forall d :: Skippable(base, dir, d) ==> d in skipped
    {
      WalkSucceedsIff(base, dir);
      UpsertKeepsKeys(rows, providerId, WalkNode(base, dir).entries, seenAt);
      hide AllListed, WalkNode, Skippable, Stamped, UnderPrefix;
      ok, skipped := WalkFrom(providerId, path, base, dir, seenAt);
      forall k | k in rows
        ensures (k in old(rows) && rows[k] == old(rows)[k]) || Stamped(providerId, base, dir, seenAt, k, rows[k])
      {
        WalkedRows(old(rows), providerId, base, dir, seenAt, k);
      }
      if ok {
        DeleteStaleUnderPrefix(providerId, path, seenAt);
      }
    }
  }
}
