/** One scan of one mount and path, end to end: from the remote tree through the index
  * to the output files. */
module Scan {
  import opened Wrappers
  import opened Paths
  import opened Mounts
  import opened Strings
  import Index = EntryIndex
  import Out = Outputs
  import Like

  // ---- The rows of a scanned tree, read back from the index ----

  // path.Dir of a canonical path.
  function ParentOf(path: string): string {
    var segs := Segments(path);
    if segs == [] then "/" else Render(segs[..|segs| - 1])
  }

  function ItemOf(k: Index.Key, row: Index.Row): Out.Item {
    Out.Item(k.path, ParentOf(k.path), row.name, row.isDir)
  }

  // ListUnderPrefix: the rows in scope, in some order.
  ghost predicate Lists(items: seq<Out.Item>, rows: Index.Rows, providerId: string, scanPath: string) {
    forall x :: x in items <==> exists k :: k in rows && Index.InScope(k, providerId, scanPath) && x == ItemOf(k, rows[k])
  }

  // The item a node of the tree is read back as.
  function NodeItem(base: seq<string>, rel: seq<string>, node: Index.Tree): Out.Item {
    Out.Item(Render(base + rel), ParentOf(Render(base + rel)), node.name, node.Dir?)
  }

  ghost predicate VisibleItem(base: seq<string>, dir: Index.Tree, x: Out.Item) {
    exists rel :: Index.Visible(dir, rel) && x == NodeItem(base, rel, Index.Lookup(dir, rel).value)
  }

  // No row the tree no longer shows carries the stamp of this scan.
  ghost predicate Fresh(rows: Index.Rows, providerId: string, base: seq<string>, dir: Index.Tree, seenAt: string) {
    forall k :: k in rows && Index.InScope(k, providerId, Render(base)) && rows[k].lastSeenAt == seenAt ==>
      Index.VisiblePath(base, dir, k.path)
  }

  lemma VisibleIsListed(
    rows: Index.Rows, providerId: string, base: seq<string>, dir: Index.Tree, seenAt: string, items: seq<Out.Item>,
    rel: seq<string>)
    requires Index.Scannable(base, dir) && Index.Visible(dir, rel)
    requires Lists(items, Index.Scanned(rows, providerId, base, dir, seenAt), providerId, Render(base))
    ensures NodeItem(base, rel, Index.Lookup(dir, rel).value) in items
  {
    hide Index.Scanned, Index.Scannable, Index.Hidden, Index.Lookup, Segments, Render, Like.UnderPrefix;
    var node := Index.Lookup(dir, rel).value;
    var k := Index.Key(providerId, Render(base + rel));
    var after := Index.Scanned(rows, providerId, base, dir, seenAt);
    Index.VisibleIsIndexed(rows, providerId, base, dir, seenAt, rel);
    Index.VisibleEntry(base, dir, rel);
    Index.WalkedEntry(base, dir, Index.Entry(base + rel, node));
    assert ItemOf(k, after[k]) == NodeItem(base, rel, node);
  }

  lemma ListedIsVisible(
    rows: Index.Rows, providerId: string, base: seq<string>, dir: Index.Tree, seenAt: string, items: seq<Out.Item>,
    x: Out.Item)
    requires Index.Scannable(base, dir) && Fresh(rows, providerId, base, dir, seenAt) && x in items
    requires Lists(items, Index.Scanned(rows, providerId, base, dir, seenAt), providerId, Render(base))
    ensures VisibleItem(base, dir, x)
  {
    hide Index.Scanned, Index.Scannable, Index.Hidden, Index.Lookup, Segments, Render, Like.UnderPrefix;
    var after := Index.Scanned(rows, providerId, base, dir, seenAt);
    var k :| k in after && Index.InScope(k, providerId, Render(base)) && x == ItemOf(k, after[k]);
    Index.ScannedRows(rows, providerId, base, dir, seenAt, k);
    assert Index.VisiblePath(base, dir, k.path);
    var rel :| Index.Visible(dir, rel) && Render(base + rel) == k.path;
    Index.VisibleIsIndexed(rows, providerId, base, dir, seenAt, rel);
    assert x == NodeItem(base, rel, Index.Lookup(dir, rel).value);
  }

  // ---- The scope the output side asks for ----

  lemma {:induction false} LookupName(t: Index.Tree, rel: seq<string>)
    requires Index.Valid(t) && rel != [] && Index.Lookup(t, rel).Some?
    ensures ValidName(rel[|rel| - 1]) && Index.Lookup(t, rel).value.name == rel[|rel| - 1]
    decreases |rel|
  {
    var i := Index.NamedIsThere(t.children, rel[0]);
    if |rel| > 1 {
      LookupName(t.children[i], rel[1..]);
      assert rel[1..][|rel| - 2] == rel[|rel| - 1];
    }
  }

  lemma {:induction false} LookupPrefix(t: Index.Tree, rel: seq<string>, k: nat)
    requires k <= |rel| && Index.Lookup(t, rel).Some?
    ensures Index.Lookup(t, rel[..k]).Some?
  {
    Index.LookupAppend(t, rel[..k], rel[k..]);
    assert rel[..k] + rel[k..] == rel;
  }

  // The path of these names is canonical and splits back into them.
  ghost predicate Renders(segs: seq<string>) {
    Good(segs) && Out.Canonical(Render(segs)) && Segments(Render(segs)) == segs
  }

  // Every node of a scanned tree has a canonical path that splits back into its names.
  lemma NodePath(base: seq<string>, dir: Index.Tree, rel: seq<string>)
    requires Index.WellPlaced(base, dir) && Index.Lookup(dir, rel).Some?
    ensures Renders(base + rel)
  {
    hide Segments, Render, EndsWithSpace, ValidName, GoodSegment;
    Index.LookupIsGood(dir, rel);
    if rel == [] {
      assert base + rel == base;
    } else {
      LookupName(dir, rel);
      var front := base + rel[..|rel| - 1];
      assert front + [rel[|rel| - 1]] == base + rel;
      ChildPathIsRendered(front, rel[|rel| - 1]);
    }
    SegmentsOfRender(base + rel);
    RenderedIsNormal(base + rel);
  }

  lemma BaseRenders(base: seq<string>, dir: Index.Tree)
    requires Index.WellPlaced(base, dir)
    ensures Renders(base)
  {
    assert Index.Lookup(dir, []) == Some(dir) && base + [] == base;
    NodePath(base, dir, []);
  }

  lemma NodeItemIs(base: seq<string>, rel: seq<string>, node: Index.Tree)
    ensures NodeItem(base, rel, node) == Out.Item(Render(base + rel), ParentOf(Render(base + rel)), node.name, node.Dir?)
  {
    hide ParentOf, Render;
  }

  lemma FileName(base: seq<string>, dir: Index.Tree, rel: seq<string>)
    requires Index.WellPlaced(base, dir) && Index.Lookup(dir, rel).Some? && Index.Lookup(dir, rel).value.File?
    ensures rel != [] && Index.Lookup(dir, rel).value.name == rel[|rel| - 1]
  {
    assert rel != [];
    LookupName(dir, rel);
  }

  lemma FileIsBelow(base: seq<string>, dir: Index.Tree, rel: seq<string>)
    requires Index.WellPlaced(base, dir) && Index.Lookup(dir, rel).Some? && Index.Lookup(dir, rel).value.File?
    ensures Out.ItemBelow(Render(base), NodeItem(base, rel, Index.Lookup(dir, rel).value))
  {
    hide *;
    NodeItemIs(base, rel, Index.Lookup(dir, rel).value);
    FileName(base, dir, rel);
    var parent, name := base + rel[..|rel| - 1], rel[|rel| - 1];
    assert base + rel == parent + [name];
    LookupPrefix(dir, rel, |rel| - 1);
    NodePath(base, dir, rel);
    NodePath(base, dir, rel[..|rel| - 1]);
    BaseRenders(base, dir);
    ChildItemIsBelow(base, parent, name);
  }

  lemma ChildItemIsBelow(base: seq<string>, segs: seq<string>, name: string)
    requires Renders(base) && base <= segs && Renders(segs) && Renders(segs + [name])
    ensures Out.ItemBelow(Render(base), Out.Item(Render(segs + [name]), ParentOf(Render(segs + [name])), name, false))
  {
    assert (segs + [name])[..|segs + [name]| - 1] == segs;
    hide Segments, Render, Good, Out.Canonical;
  }

  // File rows that survive a scan although the tree does not show them, for they carry its
  // stamp, are rows strictly below the scanned path, as a scan leaves them.
  ghost predicate SurvivorsBelow(rows: Index.Rows, providerId: string, base: seq<string>, dir: Index.Tree, seenAt: string) {
    forall k | k in rows && Index.InScope(k, providerId, Render(base)) && rows[k].lastSeenAt == seenAt && !rows[k].isDir ::
      Index.VisiblePath(base, dir, k.path) || Out.ItemBelow(Render(base), ItemOf(k, rows[k]))
  }

  // The rows a scan leaves in the index meet what the output side asks of them.
  lemma ScanMeetsScope(
    rows: Index.Rows, providerId: string, base: seq<string>, dir: Index.Tree, seenAt: string, items: seq<Out.Item>,
    c: Out.Config)
    requires Index.Scannable(base, dir) && SurvivorsBelow(rows, providerId, base, dir, seenAt)
    requires Lists(items, Index.Scanned(rows, providerId, base, dir, seenAt), providerId, Render(base))
    requires Stable(c.mount.sourcePath) && MountTargetDir(c.mount, Render(base)).Ok?
    ensures Out.Scope(c, Render(base), items)
  {
    hide Index.WalkNode, Index.Scanned, Index.WellPlaced, Index.Hidden, Lists, MountTargetDir, Stable, Out.ItemBelow;
    hide SurvivorsBelow;
    BaseRenders(base, dir);
    forall x | x in items && !x.isDir ensures Out.ItemBelow(Render(base), x) {
      ListedIsBelow(rows, providerId, base, dir, seenAt, items, x);
    }
  }

  lemma ListedIsBelow(
    rows: Index.Rows, providerId: string, base: seq<string>, dir: Index.Tree, seenAt: string, items: seq<Out.Item>,
    x: Out.Item)
    requires Index.Scannable(base, dir) && SurvivorsBelow(rows, providerId, base, dir, seenAt) && x in items && !x.isDir
    requires Lists(items, Index.Scanned(rows, providerId, base, dir, seenAt), providerId, Render(base))
    ensures Out.ItemBelow(Render(base), x)
  {
    hide Index.Scanned, Index.Hidden, Index.Lookup, Segments, Render, Like.UnderPrefix, Index.WalkNode, Index.Valid;
    var after := Index.Scanned(rows, providerId, base, dir, seenAt);
    var k :| k in after && Index.InScope(k, providerId, Render(base)) && x == ItemOf(k, after[k]);
    Index.ScannedRows(rows, providerId, base, dir, seenAt, k);
    if Index.VisiblePath(base, dir, k.path) {
      var rel :| Index.Visible(dir, rel) && Render(base + rel) == k.path;
      Index.VisibleIsIndexed(rows, providerId, base, dir, seenAt, rel);
      hide Out.ItemBelow, Index.WellPlaced;
      FileIsBelow(base, dir, rel);
    }
  }

  // ---- The whole scan ----

  // The output p is derived from nodes the tree shows.
  ghost predicate Derived(c: Out.Config, base: seq<string>, dir: Index.Tree, p: Out.Path) {
    || (exists m :: VisibleItem(base, dir, m) && Out.StrmOf(c, m).Some? && Out.StrmOf(c, m).value.target == p)
    || (exists x :: VisibleItem(base, dir, x) && Out.DirectoryJob(c, x).Some? && Out.DirectoryJob(c, x).value.target == p)
    || (exists m, x :: VisibleItem(base, dir, m) && VisibleItem(base, dir, x)
                       && Out.SidecarJob(c, m, x).Some? && Out.SidecarJob(c, m, x).value.target == p)
  }

  // The files below the target mirror the tree: each is derived from nodes it shows, and
  // each media file it shows has its stream file.
  ghost predicate Mirrors(c: Out.Config, base: seq<string>, dir: Index.Tree, targetRoot: Out.Path, files: Out.Files) {
    && (forall p :: p in files && targetRoot <= p ==> Derived(c, base, dir, p))
    && (c.rules.strm ==> forall rel ::
          Index.Visible(dir, rel) && Out.IsMediaItem(c, NodeItem(base, rel, Index.Lookup(dir, rel).value)) ==>
            var strm := Out.StrmOf(c, NodeItem(base, rel, Index.Lookup(dir, rel).value));
            strm.Some? && strm.value.target in files)
  }

  // A download of the tree has this target.
  ghost predicate DownloadAt(c: Out.Config, base: seq<string>, dir: Index.Tree, p: Out.Path) {
    || (exists x :: VisibleItem(base, dir, x) && Out.DirectoryJob(c, x).Some? && Out.DirectoryJob(c, x).value.target == p)
    || (exists m, x :: VisibleItem(base, dir, m) && VisibleItem(base, dir, x)
                       && Out.SidecarJob(c, m, x).Some? && Out.SidecarJob(c, m, x).value.target == p)
  }

  // The text leads to a media file that the tree shows and whose stream file is at p.
  ghost predicate LeadsIntoTree(c: Out.Config, base: seq<string>, dir: Index.Tree, p: Out.Path, text: string) {
    exists n :: VisibleItem(base, dir, n) && Out.StrmOf(c, n).Some? && Out.StrmOf(c, n).value.target == p
                && Out.LeadsTo(c, text, n.path)
  }

  // The stream files that the scan writes, new ones and with overwrite all, lead to media
  // files that the tree shows, unless a download has the same path.
  ghost predicate StreamsLead(c: Out.Config, base: seq<string>, dir: Index.Tree, before: Out.Files, after: Out.Files) {
    c.rules.strm ==> forall m :: VisibleItem(base, dir, m) && Out.IsMediaItem(c, m) ==>
      Out.StrmOf(c, m).Some?
      && var p := Out.StrmOf(c, m).value.target;
         p in after
         && ((c.overwrite || p !in before) && !DownloadAt(c, base, dir, p) ==> LeadsIntoTree(c, base, dir, p, after[p]))
  }

  lemma ListedStreamsLead(
    rows: Index.Rows, providerId: string, base: seq<string>, dir: Index.Tree, seenAt: string, items: seq<Out.Item>,
    c: Out.Config, before: Out.Files, after: Out.Files)
    requires Index.Scannable(base, dir) && Fresh(rows, providerId, base, dir, seenAt)
    requires Lists(items, Index.Scanned(rows, providerId, base, dir, seenAt), providerId, Render(base))
    requires Out.StreamsLead(c, items, before, after)
    ensures StreamsLead(c, base, dir, before, after)
  {
    hide Index.WalkNode, Index.Scanned, Index.Scannable, Index.Hidden, Index.Lookup, Fresh, Lists, NodeItem;
    hide Out.StrmOf, Out.DirectoryJob, Out.SidecarJob, Out.LeadsTo;
    forall x ensures x in items <==> VisibleItem(base, dir, x) {
      if x in items {
        ListedIsVisible(rows, providerId, base, dir, seenAt, items, x);
      }
      if VisibleItem(base, dir, x) {
        var rel :| Index.Visible(dir, rel) && x == NodeItem(base, rel, Index.Lookup(dir, rel).value);
        VisibleIsListed(rows, providerId, base, dir, seenAt, items, rel);
      }
    }
    hide VisibleItem;
    SameStreams(c, base, dir, items, before, after);
  }

  lemma SameStreams(
    c: Out.Config, base: seq<string>, dir: Index.Tree, items: seq<Out.Item>, before: Out.Files, after: Out.Files)
    requires forall x :: x in items <==> VisibleItem(base, dir, x)
    requires Out.StreamsLead(c, items, before, after)
    ensures StreamsLead(c, base, dir, before, after)
  {
    hide Out.StrmOf, Out.DirectoryJob, Out.SidecarJob, Out.LeadsTo, VisibleItem;
    forall p ensures Out.JobAt(c, items, p) ==> DownloadAt(c, base, dir, p) {
    }
    forall p, text ensures Out.LeadsHome(c, items, p, text) ==> LeadsIntoTree(c, base, dir, p, text) {
    }
  }

  lemma ExpectedIsDerived(c: Out.Config, base: seq<string>, dir: Index.Tree, items: seq<Out.Item>, p: Out.Path)
    requires forall x :: x in items ==> VisibleItem(base, dir, x)
    requires Out.ExpectedAt(c, items, p)
    ensures Derived(c, base, dir, p)
  {
    hide VisibleItem, Out.StrmOf, Out.DirectoryJob, Out.SidecarJob;
  }

  lemma ReconciledMirrors(
    rows: Index.Rows, providerId: string, base: seq<string>, dir: Index.Tree, seenAt: string, items: seq<Out.Item>,
    c: Out.Config, targetRoot: Out.Path, ignored: seq<string>, before: Out.Files, after: Out.Files)
    requires Index.Scannable(base, dir) && Fresh(rows, providerId, base, dir, seenAt)
    requires Lists(items, Index.Scanned(rows, providerId, base, dir, seenAt), providerId, Render(base))
    requires Out.Reconciled(c, items, targetRoot, ignored, before, after)
    ensures Mirrors(c, base, dir, targetRoot, after)
  {
    hide Index.WalkNode, Index.Scanned, Index.Scannable, Index.Hidden, Index.Lookup, Fresh, Lists, VisibleItem, Derived;
    hide Out.ExpectedAt, Out.StrmOf, Out.Produced, Out.ExpectedKept, NodeItem;
    forall x | x in items ensures VisibleItem(base, dir, x) {
      ListedIsVisible(rows, providerId, base, dir, seenAt, items, x);
    }
    forall p | p in after && targetRoot <= p ensures Derived(c, base, dir, p) {
      ExpectedIsDerived(c, base, dir, items, p);
    }
    forall rel | Index.Visible(dir, rel) ensures NodeItem(base, rel, Index.Lookup(dir, rel).value) in items {
      VisibleIsListed(rows, providerId, base, dir, seenAt, items, rel);
    }
  }

  // ---- The steps in order ----

  lemma SkippedBelow(base: seq<string>, dir: Index.Tree, d: string)
    requires Index.WellPlaced(base, dir) && Index.Skippable(base, dir, d)
    ensures Out.Canonical(d) && Segments(Render(base)) <= Segments(d)
  {
    hide Index.Lookup, Index.Ignored, Segments, Render, Out.Canonical;
    var rel :| Index.Lookup(dir, rel).Some? && Index.Ignored(Index.Lookup(dir, rel).value) && d == Render(base + rel);
    NodePath(base, dir, rel);
    SegmentsOfRender(base);
  }

  method ReadItems(index: Index.EntryRepository, providerId: string, scanPath: string) returns (items: seq<Out.Item>)
    ensures Lists(items, index.rows, providerId, scanPath)
  {
    hide Like.UnderPrefix, ParentOf;
    var keys := index.ListUnderPrefix(providerId, scanPath);
    items := [];
    for i := 0 to |keys|
      invariant forall x :: x in items <==> exists j :: 0 <= j < i && x == ItemOf(keys[j], index.rows[keys[j]])
    {
      items := items + [ItemOf(keys[i], index.rows[keys[i]])];
    }
  }

  lemma ParentPlace(segs: seq<string>)
    requires segs != [] && Renders(segs) && Renders(segs[..|segs| - 1])
    ensures Segments(ParentOf(Render(segs))) == segs[..|segs| - 1]
  {
    hide Segments, Render, Out.Canonical;
  }

  lemma FilePlace(base: seq<string>, dir: Index.Tree, rel: seq<string>)
    requires Index.WellPlaced(base, dir) && Index.Lookup(dir, rel).Some? && Index.Lookup(dir, rel).value.File?
    ensures rel != [] && Segments(NodeItem(base, rel, Index.Lookup(dir, rel).value).parent) == base + rel[..|rel| - 1]
  {
    hide *;
    NodeItemIs(base, rel, Index.Lookup(dir, rel).value);
    FileName(base, dir, rel);
    var front := rel[..|rel| - 1];
    assert (base + rel)[..|base + rel| - 1] == base + front;
    NodePath(base, dir, rel);
    LookupPrefix(dir, rel, |rel| - 1);
    NodePath(base, dir, front);
    ParentPlace(base + rel);
  }

  lemma DropBase(base: seq<string>, a: seq<string>, b: seq<string>)
    requires base + a <= base + b
    ensures a <= b
  {
    assert (base + a)[|base|..] == a && (base + b)[|base|..] == b;
  }

  lemma NothingBelowIgnored(dir: Index.Tree, over: seq<string>, rel: seq<string>)
    requires rel != [] && Index.Visible(dir, rel) && over <= rel[..|rel| - 1] && Index.Lookup(dir, over).Some?
    ensures !Index.Ignored(Index.Lookup(dir, over).value)
  {
    assert over == rel[..|over|];
    hide Index.Ignored, Index.Lookup;
  }

  // What the tree shows lies below no directory that the walk skipped.
  lemma VisibleNotSkipped(base: seq<string>, dir: Index.Tree, x: Out.Item, d: string)
    requires Index.WellPlaced(base, dir) && VisibleItem(base, dir, x) && !x.isDir && Index.Skippable(base, dir, d)
    ensures !(Segments(d) <= Segments(x.parent))
  {
    var rel :| Index.Visible(dir, rel) && x == NodeItem(base, rel, Index.Lookup(dir, rel).value);
    var over :| Index.Lookup(dir, over).Some? && Index.Ignored(Index.Lookup(dir, over).value) && d == Render(base + over);
    assert Index.Lookup(dir, rel).Some? && Index.Lookup(dir, rel).value.File?;
    hide *;
    FilePlace(base, dir, rel);
    RenderedPlace(base, dir, over);
    if base + over <= base + rel[..|rel| - 1] {
      DropBase(base, over, rel[..|rel| - 1]);
      NothingBelowIgnored(dir, over, rel);
    }
  }

  lemma RenderedPlace(base: seq<string>, dir: Index.Tree, rel: seq<string>)
    requires Index.WellPlaced(base, dir) && Index.Lookup(dir, rel).Some?
    ensures Segments(Render(base + rel)) == base + rel
  {
    hide Index.WellPlaced, Segments, Render, Index.Lookup, Out.Canonical;
    NodePath(base, dir, rel);
  }

  lemma DerivedIsExpected(
    rows: Index.Rows, providerId: string, base: seq<string>, dir: Index.Tree, seenAt: string, items: seq<Out.Item>,
    c: Out.Config, p: Out.Path)
    requires Index.Scannable(base, dir) && Derived(c, base, dir, p)
    requires Lists(items, Index.Scanned(rows, providerId, base, dir, seenAt), providerId, Render(base))
    ensures Out.ExpectedAt(c, items, p)
  {
    hide Index.WalkNode, Index.Scanned, Index.Scannable, Index.Hidden, Index.Lookup, Lists, NodeItem;
    hide Out.StrmOf, Out.DirectoryJob, Out.SidecarJob;
    forall x | VisibleItem(base, dir, x) ensures x in items {
      var rel :| Index.Visible(dir, rel) && x == NodeItem(base, rel, Index.Lookup(dir, rel).value);
      VisibleIsListed(rows, providerId, base, dir, seenAt, items, rel);
    }
  }

  // The outputs of the tree that were there are as they were, save one that has the path
  // of the output tree of a directory the walk skipped.
  ghost predicate Untouched(
    c: Out.Config, base: seq<string>, dir: Index.Tree, skipped: seq<string>, before: Out.Files, after: Out.Files)
  {
    !c.overwrite ==> forall p | p in before && Derived(c, base, dir, p) ::
      Out.Same(before, after, p) || exists d :: d in skipped && MountTargetDir(c.mount, d) == Ok(p)
  }

  lemma ReconciledUntouched(
    rows: Index.Rows, providerId: string, base: seq<string>, dir: Index.Tree, seenAt: string, items: seq<Out.Item>,
    c: Out.Config, targetRoot: Out.Path, skipped: seq<string>, before: Out.Files, after: Out.Files)
    requires Index.Scannable(base, dir) && Fresh(rows, providerId, base, dir, seenAt)
    requires Lists(items, Index.Scanned(rows, providerId, base, dir, seenAt), providerId, Render(base))
    requires forall d :: d in skipped ==> Index.Skippable(base, dir, d)
    requires Out.Reconciled(c, items, targetRoot, skipped, before, after)
    ensures Untouched(c, base, dir, skipped, before, after)
  {
    hide Index.WalkNode, Index.Scanned, Index.WellPlaced, Index.Skippable, Fresh, Lists, VisibleItem, Derived;
    hide MountTargetDir, Out.ExpectedAt, Out.Produced, Segments, Out.StreamsWritten, Out.Same;
    forall x, d | x in items && !x.isDir && d in skipped ensures !(Segments(d) <= Segments(x.parent)) {
      ListedIsVisible(rows, providerId, base, dir, seenAt, items, x);
      VisibleNotSkipped(base, dir, x, d);
    }
    forall p | Derived(c, base, dir, p) && !(exists d :: d in skipped && MountTargetDir(c.mount, d) == Ok(p))
      ensures Out.ExpectedAt(c, items, p) && !Out.TakenByIgnored(c.mount, items, skipped, p)
    {
      DerivedIsExpected(rows, providerId, base, dir, seenAt, items, c, p);
    }
  }

  // scanMount and the cleanup after it, for one mount and one path. A scan that succeeds
  // reconciles the files below the target with the rows it leaves, and mirrors the tree if
  // those are exact. Whether it succeeds or not, it changes nothing elsewhere; it deletes
  // rows only after the whole walk, and other files than those of skipped directories only
  // when it succeeds.
  method ScanPath(
    index: Index.EntryRepository, c: Out.Config, files: Out.Files, providerId: string, scanPath: string,
    ghost base: seq<string>, dir: Index.Tree, seenAt: string)
    returns (ok: bool, after: Out.Files, ghost items: seq<Out.Item>, ghost skipped: seq<string>)
    requires scanPath == Render(base) && Index.WellPlaced(base, dir)
    requires Stable(c.mount.sourcePath)
    requires SurvivorsBelow(index.rows, providerId, base, dir, seenAt)
    modifies index
    ensures forall d :: d in skipped ==> Index.Skippable(base, dir, d)
    ensures ok ==> MountTargetDir(c.mount, scanPath).Ok? && Index.AllListed(dir)
                   && Out.Removable(c.mount, skipped) && Out.AllPlaceable(c, items)
    ensures MountTargetDir(c.mount, scanPath).Ok? && Index.AllListed(dir) ==>
              && (forall d :: Index.Skippable(base, dir, d) ==> d in skipped)
              && Lists(items, index.rows, providerId, scanPath)
              && (Out.Removable(c.mount, skipped) && Out.AllPlaceable(c, items) && !Out.MayBeCancelled(c, items) ==> ok)
    ensures ok ==> Out.Reconciled(c, items, MountTargetDir(c.mount, scanPath).value, skipped, files, after)
                   && Out.StreamsLead(c, items, files, after)
    ensures ok && Fresh(old(index.rows), providerId, base, dir, seenAt) ==>
              Mirrors(c, base, dir, MountTargetDir(c.mount, scanPath).value, after)
              && StreamsLead(c, base, dir, files, after)
              && Untouched(c, base, dir, skipped, files, after)
    ensures !ok ==> Out.KeptButIgnored(c, skipped, files, after)
    ensures MountTargetDir(c.mount, scanPath).Ok? && !Index.AllListed(dir) && Out.Removable(c.mount, skipped) ==>
              Out.Cleared(c.mount, skipped, files, after)
    ensures !Index.AllListed(dir) ==> forall k :: k in old(index.rows) ==> k in index.rows
    ensures forall k :: k in index.rows ==>
              || (k in old(index.rows) && index.rows[k] == old(index.rows)[k])
              || Index.Stamped(providerId, base, dir, seenAt, k, index.rows[k])
    ensures if MountTargetDir(c.mount, scanPath).Err? then after == files && index.rows == old(index.rows)
            else Out.SameOutside(files, after, MountTargetDir(c.mount, scanPath).value)
    ensures MountTargetDir(c.mount, scanPath).Ok? && Index.AllListed(dir) ==>
              index.rows == Index.Scanned(old(index.rows), providerId, base, dir, seenAt)
  {
    BaseRenders(base, dir);
    hide Segments, Render, EndsWithSpace, GoodSegment, MountTargetDir, Stable, Fresh, Mirrors, Lists, Untouched;
    hide Index.Valid, Index.WalkNode, Index.Scanned, Index.Skippable, SurvivorsBelow, Index.AllListed, Index.Stamped;
    hide Out.Scope, Out.Canonical, Out.Reconciled, Out.SameOutside, Out.UnderIgnored, Out.StreamsLead, StreamsLead;
    hide Out.Removable, Out.AllPlaceable, Out.MayBeCancelled, Out.Cleared;
    items, skipped := [], [];
    var targetRoot := MountTargetDir(c.mount, scanPath);
    if targetRoot.Err? {
      return false, files, [], [];
    }
    ghost var rows := index.rows;
    var walked, ignored := index.Refresh(providerId, scanPath, base, dir, seenAt);
    skipped := ignored;
    forall d | d in ignored ensures Out.Canonical(d) && Segments(scanPath) <= Segments(d) {
      SkippedBelow(base, dir, d);
    }
    var indexed: seq<Out.Item> := [];
    if walked {
      indexed := ReadItems(index, providerId, scanPath);
      ScanMeetsScope(rows, providerId, base, dir, seenAt, indexed, c);
    } else {
      EmptyScope(c, scanPath);
    }
    items := indexed;
    var scan := new Out.MountScan(c, indexed, files);
    if walked {
      ok := scan.Reconcile(scanPath, ignored);
    } else {
      var cleared := scan.ClearIgnored(scanPath, ignored);
      ok := false;
    }
    after := scan.files;
    if ok && Fresh(rows, providerId, base, dir, seenAt) {
      ReconciledMirrors(rows, providerId, base, dir, seenAt, items, c, targetRoot.value, skipped, files, after);
      ReconciledUntouched(rows, providerId, base, dir, seenAt, items, c, targetRoot.value, skipped, files, after);
      ListedStreamsLead(rows, providerId, base, dir, seenAt, items, c, files, after);
    }
  }

  // In a library each mount whose rows are exact mirrors its tree, whatever the others hold.
  lemma LibraryMirrors(
    inputs: seq<Out.MountInput>, x: Out.MountInput, rows: Index.Rows, providerId: string, base: seq<string>, dir: Index.Tree,
    seenAt: string, before: Out.Files, after: Out.Files)
    requires x in inputs && Out.LibraryReconciled(inputs, before, after) && x.SourceOf() == Render(base)
    requires Index.Scannable(base, dir) && Fresh(rows, providerId, base, dir, seenAt)
    requires Lists(x.items, Index.Scanned(rows, providerId, base, dir, seenAt), providerId, Render(base))
    ensures x.TargetOf().Ok? && Mirrors(x.c, base, dir, x.TargetOf().value, after)
    ensures x.Ready() ==> StreamsLead(x.c, base, dir, before, after)
  {
    if x.Ready() {
      Out.ReadyIsScope(x);
      hide Out.Scope, StreamsLead;
      LibraryStreamsLead(x, rows, providerId, base, dir, seenAt, before, after);
    }
    hide Out.Reconciled, Mirrors, Lists, Fresh, Index.Scanned, Index.Scannable, MountTargetDir, StreamsLead;
    ReconciledMirrors(rows, providerId, base, dir, seenAt, x.items, x.c, x.TargetOf().value, x.ignored, before, after);
  }

  lemma LibraryStreamsLead(
    x: Out.MountInput, rows: Index.Rows, providerId: string, base: seq<string>, dir: Index.Tree, seenAt: string,
    before: Out.Files, after: Out.Files)
    requires x.TargetOf().Ok? && Out.Scope(x.c, x.SourceOf(), x.items) && x.SourceOf() == Render(base)
    requires Out.Reconciled(x.c, x.items, x.TargetOf().value, x.ignored, before, after)
    requires Index.Scannable(base, dir) && Fresh(rows, providerId, base, dir, seenAt)
    requires Lists(x.items, Index.Scanned(rows, providerId, base, dir, seenAt), providerId, Render(base))
    ensures StreamsLead(x.c, base, dir, before, after)
  {
    hide Out.Reconciled, StreamsLead, Lists, Fresh, Index.Scanned, Index.Scannable, MountTargetDir, Out.Scope;
    Out.ReconciledLeads(x.c, x.SourceOf(), x.items, x.ignored, before, after);
    ListedStreamsLead(rows, providerId, base, dir, seenAt, x.items, x.c, before, after);
  }

  lemma RootIsCanonical()
    ensures Stable("/") && Out.Canonical("/") && Segments("/") == []
  {
    SegmentsOfRender([]);
    RenderedIsNormal([]);
  }

  lemma RootTarget(mount: Mount)
    requires mount.targetPath == "/"
    ensures MountOutputRoot(mount) == Ok([])
  {
    CleanRendered([]);
    SplitLeadingSlash("");
    assert "/" == "/" + "";
    hide CleanRooted;
  }

  lemma RootMapsToRoot(mount: Mount)
    requires mount.sourcePath == "/" && mount.targetPath == "/"
    ensures MountTargetDir(mount, "/") == Ok([])
  {
    hide OutputRelativePath, MountOutputRoot, Segments, Stable;
    RootIsCanonical();
    RootTarget(mount);
    RelativeOfRendered("/", []);
    assert Segments("/") + [] == [];
  }

  // A mount of the root at the root, and a lone media file there, are in the domain.
  lemma LoneFileScope(c: Out.Config, name: string)
    requires c.mount.sourcePath == "/" && c.mount.targetPath == "/" && ValidName(name)
    ensures Out.Scope(c, "/", [Out.Item("/" + name, "/", name, false)])
  {
    RootIsCanonical();
    RootMapsToRoot(c.mount);
    ChildPathIsRendered([], name);
    RenderSingle(name);
    assert [] + [name] == [name];
    SegmentsOfRender([name]);
    RenderedIsNormal([name]);
    hide Segments, Render, Normalize, MountTargetDir, Stable;
  }

  lemma EmptyScope(c: Out.Config, scanPath: string)
    requires Stable(c.mount.sourcePath) && Out.Canonical(scanPath) && MountTargetDir(c.mount, scanPath).Ok?
    ensures Out.Scope(c, scanPath, [])
  {
  }
}
