/** Path resolution in the 123pan provider through its caches, against the plain walk
  * that lists one directory per segment from the remote root. */
module NodeCache {
  import opened Wrappers
  import opened Strings
  import opened Paths

  // One entry of a listing, as the cloud sends it.
  datatype FileItem = FileItem(fileId: string, filename: string, isDir: bool, trashed: bool)

  datatype Node = Node(id: string, path: string, name: string, isDir: bool)

  datatype ResolveError = NotFound | NotDirectory | ListingFailed | OutsideRoot

  // The listings of a fixed remote tree, by directory id; other ids are not listed.
  type Cloud = map<string, seq<FileItem>>

  const ROOT := Node("0", "/", "/", true)

  // ---- Listings ----

  // nodeFromFileItem.
  function NodeFromFileItem(parentPath: string, item: FileItem): Node {
    var name := TrimSpace(item.filename);
    Node(TrimSpace(item.fileId), ChildPath(parentPath, name), name, item.isDir)
  }

  // What listNodesByID keeps.
  predicate Live(item: FileItem) {
    !item.trashed && TrimSpace(item.fileId) != "" && TrimSpace(item.filename) != ""
  }

  function NodesOf(parentPath: string, items: seq<FileItem>): seq<Node> {
    if items == [] then []
    else
      var last := items[|items| - 1];
      NodesOf(parentPath, items[..|items| - 1]) + if Live(last) then [NodeFromFileItem(parentPath, last)] else []
  }

  function Named(nodes: seq<Node>, name: string): Option<Node> {
    if nodes == [] then None
    else if nodes[0].name == name then Some(nodes[0])
    else Named(nodes[1..], name)
  }

  // ---- The remote tree and the plain walk ----

  ghost predicate WellFormedListing(cloud: Cloud, items: seq<FileItem>) {
    && (forall i :: 0 <= i < |items| && Live(items[i]) ==>
          && ValidName(TrimSpace(items[i].filename))
          && (items[i].isDir <==> TrimSpace(items[i].fileId) in cloud))
    && (forall i, j :: 0 <= i < j < |items| && Live(items[i]) && Live(items[j]) ==>
          TrimSpace(items[i].filename) != TrimSpace(items[j].filename))
  }

  // Directories are what can be listed, names are valid and siblings differ by name.
  ghost predicate WellFormed(cloud: Cloud) {
    ROOT.id in cloud && forall id :: id in cloud ==> WellFormedListing(cloud, cloud[id])
  }

  function Listing(cloud: Cloud, dir: Node): seq<Node> {
    if dir.id in cloud then NodesOf(dir.path, cloud[dir.id]) else []
  }

  // The node at a path: one listing per segment, from the remote root.
  function Lookup(cloud: Cloud, segs: seq<string>): Result<Node, ResolveError> {
    if segs == [] then Ok(ROOT)
    else
      var parent := Lookup(cloud, segs[..|segs| - 1]);
      if parent.Err? then parent
      else if !parent.value.isDir then Err(NotDirectory)
      else
        var child := Named(Listing(cloud, parent.value), segs[|segs| - 1]);
        if child.Some? then Ok(child.value) else Err(NotFound)
  }

  // The same for a directory.
  function LookupDir(cloud: Cloud, segs: seq<string>): Result<Node, ResolveError> {
    var node := Lookup(cloud, segs);
    if node.Ok? && !node.value.isDir then Err(NotDirectory) else node
  }

  // ---- Facts about listings ----

  lemma {:induction false} NamedIsThere(nodes: seq<Node>, name: string)
    ensures Named(nodes, name).Some? ==> Named(nodes, name).value in nodes && Named(nodes, name).value.name == name
    ensures Named(nodes, name).None? ==> forall n :: n in nodes ==> n.name != name
  {
    if nodes != [] {
      NamedIsThere(nodes[1..], name);
    }
  }

  ghost predicate Distinct(nodes: seq<Node>) {
    forall m, n :: m in nodes && n in nodes && m.name == n.name ==> m == n
  }

  lemma NamedOf(nodes: seq<Node>, n: Node)
    requires Distinct(nodes) && n in nodes
    ensures Named(nodes, n.name) == Some(n)
  {
    NamedIsThere(nodes, n.name);
  }

  lemma {:induction false} NodesCome(parentPath: string, items: seq<FileItem>, n: Node) returns (i: nat)
    requires n in NodesOf(parentPath, items)
    ensures i < |items| && Live(items[i]) && n == NodeFromFileItem(parentPath, items[i])
  {
    var k := |items| - 1;
    if Live(items[k]) && n == NodeFromFileItem(parentPath, items[k]) {
      i := k;
    } else {
      i := NodesCome(parentPath, items[..k], n);
    }
  }

  // An item as the node of a listing: with blanks trimmed, below the directory listed.
  predicate Shown(dir: Node, item: FileItem, n: Node) {
    && !item.trashed && n.id == TrimSpace(item.fileId) != "" && n.name == TrimSpace(item.filename) != ""
    && n.isDir == item.isDir && n.path == ChildPath(dir.path, n.name)
  }

  // A listing shows exactly the items that are not in the trash and have an id and a name.
  lemma ListingShows(cloud: Cloud, dir: Node, n: Node)
    requires dir.id in cloud
    ensures n in Listing(cloud, dir) <==> exists i :: 0 <= i < |cloud[dir.id]| && Shown(dir, cloud[dir.id][i], n)
  {
    hide TrimSpace, ChildPath;
    var items := cloud[dir.id];
    if n in Listing(cloud, dir) {
      var i := NodesCome(dir.path, items, n);
    }
    if i :| 0 <= i < |items| && Shown(dir, items[i], n) {
      NodesNext(dir.path, items, i);
      NodesGrow(dir.path, items, i + 1, n);
    }
  }

  // What a well-formed listing holds: distinct children with valid names and the paths
  // of their names below the parent.
  lemma ListedChild(cloud: Cloud, dir: Node, segs: seq<string>, n: Node)
    requires WellFormed(cloud) && dir.id in cloud && dir.path == Render(segs) && Good(segs) && n in Listing(cloud, dir)
    ensures ValidName(n.name) && n.id != "" && (n.isDir <==> n.id in cloud)
    ensures Good(segs + [n.name]) && n.path == Render(segs + [n.name])
  {
    hide TrimSpace, Render, ChildPath, ValidName;
    var i := NodesCome(dir.path, cloud[dir.id], n);
    assert WellFormedListing(cloud, cloud[dir.id]);
    ChildPathIsRendered(segs, n.name);
  }

  lemma ListingIsDistinct(cloud: Cloud, dir: Node)
    requires WellFormed(cloud)
    ensures Distinct(Listing(cloud, dir))
  {
    hide TrimSpace, ChildPath, ValidName;
    forall m, n | m in Listing(cloud, dir) && n in Listing(cloud, dir) && m.name == n.name ensures m == n {
      var i := NodesCome(dir.path, cloud[dir.id], m);
      var j := NodesCome(dir.path, cloud[dir.id], n);
      assert WellFormedListing(cloud, cloud[dir.id]);
    }
  }

  ghost predicate AllValid(segs: seq<string>) {
    forall i :: 0 <= i < |segs| ==> ValidName(segs[i])
  }

  lemma AllValidNext(segs: seq<string>, name: string)
    ensures AllValid(segs + [name]) <==> AllValid(segs) && ValidName(name)
  {
    assert forall i :: 0 <= i < |segs| ==> (segs + [name])[i] == segs[i];
    assert (segs + [name])[|segs|] == name;
  }

  ghost predicate Placed(cloud: Cloud, segs: seq<string>, n: Node) {
    Good(segs) && AllValid(segs) && n.path == Render(segs) && n.id != "" && (n.isDir <==> n.id in cloud)
  }

  lemma ChildIsPlaced(cloud: Cloud, dir: Node, segs: seq<string>, name: string)
    requires WellFormed(cloud) && Placed(cloud, segs, dir) && dir.isDir && Named(Listing(cloud, dir), name).Some?
    ensures Placed(cloud, segs + [name], Named(Listing(cloud, dir), name).value)
  {
    hide Render, ValidName, Listing, WellFormed, Named, AllValid;
    NamedIsThere(Listing(cloud, dir), name);
    ListedChild(cloud, dir, segs, Named(Listing(cloud, dir), name).value);
    AllValidNext(segs, name);
  }

  // The node found at a path carries that path.
  lemma {:induction false} LookupIsPlaced(cloud: Cloud, segs: seq<string>)
    requires WellFormed(cloud) && Lookup(cloud, segs).Ok?
    ensures Placed(cloud, segs, Lookup(cloud, segs).value)
  {
    if segs != [] {
      hide Placed, WellFormed, Listing, Named;
      var front, name := segs[..|segs| - 1], segs[|segs| - 1];
      LookupIsPlaced(cloud, front);
      ChildIsPlaced(cloud, Lookup(cloud, front).value, front, name);
      assert front + [name] == segs;
    }
  }

  lemma LookupChild(cloud: Cloud, segs: seq<string>, n: Node)
    requires WellFormed(cloud) && LookupDir(cloud, segs).Ok? && n in Listing(cloud, LookupDir(cloud, segs).value)
    ensures Lookup(cloud, segs + [n.name]) == Ok(n)
  {
    hide Listing, WellFormed;
    ListingIsDistinct(cloud, LookupDir(cloud, segs).value);
    NamedOf(Listing(cloud, LookupDir(cloud, segs).value), n);
    assert (segs + [n.name])[..|segs|] == segs;
  }

  // A path below a file or a missing node has no node.
  lemma {:induction false} LookupFront(cloud: Cloud, segs: seq<string>, k: nat)
    requires k < |segs| && Lookup(cloud, segs).Ok?
    ensures LookupDir(cloud, segs[..k]).Ok?
    decreases |segs|
  {
    var front := segs[..|segs| - 1];
    if k < |front| {
      LookupFront(cloud, front, k);
      assert front[..k] == segs[..k];
    }
  }

  // ---- The caches ----

  // A path under which a node can be cached: no segment of it ends in a blank.
  ghost predicate Clean(p: string) {
    Normalize(p) == p && AllValid(Segments(p))
  }

  ghost predicate SoundNodes(cloud: Cloud, nodes: map<string, Node>) {
    forall p :: p in nodes ==> Clean(p) && Lookup(cloud, Segments(p)) == Ok(nodes[p])
  }

  ghost predicate SoundChildren(cloud: Cloud, children: map<string, seq<Node>>) {
    forall p :: p in children ==>
      Clean(p) && LookupDir(cloud, Segments(p)).Ok? && children[p] == Listing(cloud, LookupDir(cloud, Segments(p)).value)
  }

  // getCachedNode without its effect: memory first, then the store.
  function Cached(nodes: map<string, Node>, stored: map<string, Node>, hasStore: bool, p: string): Option<Node> {
    if p in nodes then Some(nodes[p]) else if hasStore && p in stored then Some(stored[p]) else None
  }

  lemma CleanRender(segs: seq<string>)
    requires AllValid(segs)
    ensures Good(segs) && Clean(Render(segs)) && Segments(Render(segs)) == segs
  {
    assert Good(segs);
    if segs == [] {
      SegmentsOfRender(segs);
    } else {
      var front := segs[..|segs| - 1];
      ChildPathIsRendered(front, segs[|segs| - 1]);
      assert front + [segs[|segs| - 1]] == segs;
      SegmentsOfRender(segs);
    }
  }

  // A node that resolution gives may be cached under its own path.
  lemma PlacedIsSound(cloud: Cloud, segs: seq<string>)
    requires WellFormed(cloud) && Lookup(cloud, segs).Ok?
    ensures var n := Lookup(cloud, segs).value;
            Clean(n.path) && Segments(n.path) == segs && Normalize(n.path) == n.path && n.id != "" && n.path != ""
  {
    LookupIsPlaced(cloud, segs);
    hide ValidName;
    CleanRender(segs);
  }

  lemma SoundAdd(cloud: Cloud, nodes: map<string, Node>, segs: seq<string>)
    requires WellFormed(cloud) && SoundNodes(cloud, nodes) && Lookup(cloud, segs).Ok?
    ensures var n := Lookup(cloud, segs).value;
            SoundNodes(cloud, nodes[n.path := n]) && Normalize(n.path) == n.path && n.id != "" && n.path != ""
  {
    hide WellFormed, Lookup, AllValid, Normalize, Segments;
    PlacedIsSound(cloud, segs);
  }

  lemma SoundAddListed(cloud: Cloud, nodes: map<string, Node>, segs: seq<string>, n: Node)
    requires WellFormed(cloud) && SoundNodes(cloud, nodes)
    requires LookupDir(cloud, segs).Ok? && n in Listing(cloud, LookupDir(cloud, segs).value)
    ensures SoundNodes(cloud, nodes[n.path := n]) && Normalize(n.path) == n.path && n.id != ""
    ensures Lookup(cloud, segs + [n.name]) == Ok(n)
  {
    hide WellFormed, Lookup, AllValid, Normalize, Segments, SoundNodes, Listing;
    LookupChild(cloud, segs, n);
    SoundAdd(cloud, nodes, segs + [n.name]);
  }

  // ---- What resolution visits ----

  // The segments of the node reached, if any, and the paths known to the caches then.
  datatype Trip = Trip(end: Option<seq<string>>, known: iset<string>)

  ghost predicate SoundKnown(cloud: Cloud, known: iset<string>) {
    forall p :: p in known ==> Clean(p) && Lookup(cloud, Segments(p)).Ok?
  }

  ghost function PathsOf(nodes: seq<Node>): iset<string> {
    iset n | n in nodes :: n.path
  }

  lemma PathsMore(nodes: seq<Node>, n: Node)
    ensures PathsOf([]) == iset{} && PathsOf(nodes + [n]) == PathsOf(nodes) + iset{n.path}
  {
    forall p | p in PathsOf(nodes) ensures p in PathsOf(nodes + [n]) {
      var m :| m in nodes && m.path == p;
      assert m in nodes + [n];
    }
    assert n in nodes + [n];
  }

  ghost function ChildPaths(cloud: Cloud, at: seq<string>): iset<string> {
    if LookupDir(cloud, at).Ok? then PathsOf(Listing(cloud, LookupDir(cloud, at).value)) else iset{}
  }

  // findNamedChild: the cache is asked for the path the name makes, the listing for the name.
  ghost function Stepped(cloud: Cloud, known: iset<string>, at: seq<string>, name: string): (trip: Trip)
    requires Good(at) && GoodSegment(name)
    ensures trip.end.Some? ==> Good(trip.end.value)
  {
    var key := ChildSegments(at, name);
    if Render(key) in known then Trip(Some(key), known)
    else Trip(if Lookup(cloud, at + [name]).Ok? then Some(at + [name]) else None, known + ChildPaths(cloud, at))
  }

  // The loop over segments; each node on the way must be a directory.
  ghost function Walked(cloud: Cloud, known: iset<string>, at: seq<string>, names: seq<string>): (trip: Trip)
    requires Good(at) && Good(names)
    ensures trip.end.Some? ==> Good(trip.end.value)
    decreases |names|
  {
    if names == [] then Trip(Some(at), known)
    else
      var step := Stepped(cloud, known, at, names[0]);
      if step.end.None? || LookupDir(cloud, step.end.value).Err? then Trip(None, step.known)
      else Walked(cloud, step.known, step.end.value, names[1..])
  }

  // resolveRoot.
  ghost function RootTrip(cloud: Cloud, known: iset<string>, rootPath: string): (trip: Trip)
    ensures trip.end.Some? ==> Good(trip.end.value)
  {
    if Normalize(rootPath) in known then Trip(Some(Segments(rootPath)), known)
    else if rootPath == "/" then Trip(Some([]), known + iset{"/"})
    else
      var trip := Walked(cloud, known, [], Segments(rootPath));
      if trip.end.None? then trip else Trip(trip.end, trip.known + iset{Render(trip.end.value)})
  }

  // pathSegmentsFromRoot.
  function SegmentsFromRoot(rootPath: string, p: string): (names: seq<string>)
    ensures Good(names)
  {
    var segs := Segments(p);
    if rootPath == "/" then segs
    else
      var above := |Segments(rootPath)|;
      if |segs| <= above then [] else segs[above..]
  }

  // validatePathWithinRoot, which normalises its argument once more.
  predicate Allowed(rootPath: string, p: string) {
    rootPath == "/" || Segments(rootPath) <= Segments(Normalize(p))
  }

  // resolveDir.
  ghost function DirTrip(cloud: Cloud, known: iset<string>, rootPath: string, path: string): (trip: Trip)
    ensures trip.end.Some? ==> Good(trip.end.value)
  {
    var p := Normalize(path);
    if !Allowed(rootPath, p) then Trip(None, known)
    else
      var root := RootTrip(cloud, known, rootPath);
      if root.end.None? || p == rootPath then root
      else if Normalize(p) in root.known then
        Trip(if LookupDir(cloud, Segments(p)).Ok? then Some(Segments(p)) else None, root.known)
      else Walked(cloud, root.known, root.end.value, SegmentsFromRoot(rootPath, p))
  }

  // path.Dir of a normalised path, normalised.
  function ParentPath(path: string): string {
    var segs := Segments(path);
    if segs == [] then "/" else Normalize(Render(segs[..|segs| - 1]))
  }

  // resolveNode.
  ghost function NodeTrip(cloud: Cloud, known: iset<string>, rootPath: string, path: string): (trip: Trip)
    ensures trip.end.Some? ==> Good(trip.end.value)
  {
    var p := Normalize(path);
    if !Allowed(rootPath, p) then Trip(None, known)
    else if p == "/" then RootTrip(cloud, known, rootPath)
    else if Normalize(p) in known then Trip(Some(Segments(p)), known)
    else
      var parent := DirTrip(cloud, known, rootPath, ParentPath(path));
      if parent.end.None? then Trip(None, parent.known)
      else Stepped(cloud, parent.known, parent.end.value, Segments(path)[|Segments(path)| - 1])
  }

  lemma NodesNext(parentPath: string, items: seq<FileItem>, i: nat)
    requires i < |items|
    ensures NodesOf(parentPath, items[..i + 1])
         == NodesOf(parentPath, items[..i]) + if Live(items[i]) then [NodeFromFileItem(parentPath, items[i])] else []
  {
    assert items[..i + 1][..i] == items[..i];
  }

  lemma {:induction false} NodesGrow(parentPath: string, items: seq<FileItem>, i: nat, n: Node)
    requires i <= |items| && n in NodesOf(parentPath, items[..i])
    ensures n in NodesOf(parentPath, items)
    decreases |items| - i
  {
    if i < |items| {
      NodesNext(parentPath, items, i);
      NodesGrow(parentPath, items, i + 1, n);
    } else {
      assert items[..i] == items;
    }
  }

  ghost function KnownOf(nodes: map<string, Node>, stored: map<string, Node>, hasStore: bool): iset<string> {
    iset p | Cached(nodes, stored, hasStore, p).Some?
  }

  lemma KnownMore(nodes: map<string, Node>, stored: map<string, Node>, hasStore: bool, p: string, n: Node)
    ensures KnownOf(nodes[p := n], stored, hasStore) == KnownOf(nodes, stored, hasStore) + iset{p}
  {
  }

  // The result is the node at the end of the trip, or a failure when it has none.
  ghost predicate Reached(cloud: Cloud, r: Result<Node, ResolveError>, trip: Trip) {
    && (r.Ok? <==> trip.end.Some?)
    && (r.Ok? && trip.end.Some? ==> Lookup(cloud, trip.end.value) == Ok(r.value))
  }

  // A path whose normal form is clean has the segments of that form.
  lemma CleanSegmentsOf(p: string)
    requires Clean(Normalize(p))
    ensures Segments(Normalize(p)) == Segments(p)
  {
    RenderInjective(Segments(Normalize(p)), Segments(p));
  }

  lemma NoNodes(parentPath: string)
    ensures NodesOf(parentPath, []) == []
  {
  }

  lemma RootSegments()
    ensures Segments("/") == [] && Normalize("/") == "/"
  {
    SegmentsOfRender([]);
  }

  lemma KeyIsValid(at: seq<string>, name: string)
    requires AllValid(at) && Good(at) && GoodSegment(name)
    ensures AllValid(ChildSegments(at, name))
  {
    var t := TrimRight(name);
    assert t != "" && t != "." && t != ".." ==> ValidName(t);
    AllValidNext(at, t);
    hide ValidName, TrimRight;
  }

  // The key findNamedChild asks the cache for, and what the plain walk has to do with it.
  lemma ChildKey(cloud: Cloud, at: seq<string>, name: string)
    requires WellFormed(cloud) && Lookup(cloud, at).Ok? && GoodSegment(name)
    ensures Good(at) && Lookup(cloud, at).value.path == Render(at)
    ensures var p := ChildPath(Render(at), name);
            p == Render(ChildSegments(at, name)) && Clean(p) && Segments(p) == ChildSegments(at, name)
    ensures (at + [name])[..|at|] == at
  {
    LookupIsPlaced(cloud, at);
    ChildPathIs(at, name);
    KeyIsValid(at, name);
    hide ChildSegments, ValidName, ChildPath, AllValid, WellFormed, Lookup, Render, Clean, GoodSegment;
    CleanRender(ChildSegments(at, name));
  }

  // ---- The object ----

  class Provider {
    const cloud: Cloud
    const rootPath: string
    const hasStore: bool
    var nodesByPath: map<string, Node>
    var storedNodes: map<string, Node>
    var storedChildren: map<string, seq<Node>>

    ghost predicate Valid()
      reads this
    {
      && WellFormed(cloud)
      && SoundNodes(cloud, nodesByPath) && SoundNodes(cloud, storedNodes) && SoundChildren(cloud, storedChildren)
    }

    ghost function Known(p: string): Option<Node>
      reads this
    {
      Cached(nodesByPath, storedNodes, hasStore, p)
    }

    // The paths whose nodes the caches hold.
    ghost function KnownPaths(): iset<string>
      reads this
    {
      KnownOf(nodesByPath, storedNodes, hasStore)
    }

    constructor (cloud: Cloud, rootPath: string, hasStore: bool)
      requires WellFormed(cloud)
      ensures Valid() && this.cloud == cloud && this.rootPath == Normalize(rootPath) && this.hasStore == hasStore
      ensures KnownPaths() == if this.rootPath == "/" then iset{"/"} else iset{}
    {
      hide Normalize, AllValid, WellFormed;
      this.cloud, this.rootPath, this.hasStore := cloud, Normalize(rootPath), hasStore;
      SoundAdd(cloud, map[], []);
      nodesByPath := if Normalize(rootPath) == "/" then map["/" := ROOT] else map[];
      storedNodes, storedChildren := map[], map[];
    }

    method GetCachedNode(p: string) returns (r: Option<Node>)
      requires Valid()
      modifies this`nodesByPath
      ensures Valid() && r == old(Known(Normalize(p))) && KnownPaths() == old(KnownPaths())
      ensures r.Some? ==> Clean(Normalize(p)) && Lookup(cloud, Segments(p)) == Ok(r.value)
      ensures r == if Normalize(p) in old(nodesByPath) then Some(old(nodesByPath)[Normalize(p)])
                   else if hasStore && Normalize(p) in storedNodes then Some(storedNodes[Normalize(p)]) else None
      ensures nodesByPath == if r.Some? then old(nodesByPath)[Normalize(p) := r.value] else old(nodesByPath)
    {
      hide AllValid, WellFormed, Lookup, Segments, SoundChildren, Normalize;
      var normalized := Normalize(p);
      if Clean(normalized) {
        CleanSegmentsOf(p);
      }
      if normalized in nodesByPath {
        return Some(nodesByPath[normalized]);
      }
      if !hasStore || normalized !in storedNodes {
        return None;
      }
      var item := storedNodes[normalized];
      PlacedIsSound(cloud, Segments(normalized));
      if item.id == "" || item.path == "" {
        return None;
      }
      nodesByPath := nodesByPath[normalized := item];
      return Some(item);
    }

    method SetCachedNode(item: Node, ghost segs: seq<string>)
      requires Valid() && Lookup(cloud, segs) == Ok(item)
      modifies this`nodesByPath, this`storedNodes
      ensures Valid() && KnownPaths() == old(KnownPaths()) + iset{item.path}
      ensures nodesByPath == old(nodesByPath)[item.path := item]
      ensures storedNodes == if item.isDir && hasStore then old(storedNodes)[item.path := item] else old(storedNodes)
    {
      hide Normalize, AllValid, WellFormed, Lookup, Segments, SoundChildren, SoundNodes;
      SoundAdd(cloud, nodesByPath, segs);
      SoundAdd(cloud, storedNodes, segs);
      if item.id == "" || item.path == "" {
        return;
      }
      var normalized := Normalize(item.path);
      var placed := item.(path := normalized);
      nodesByPath := nodesByPath[normalized := placed];
      if placed.isDir && hasStore {
        storedNodes := storedNodes[normalized := placed];
      }
    }

    method GetCachedChildren(p: string, bypass: bool) returns (r: Option<seq<Node>>)
      requires Valid() && Normalize(p) == p
      modifies this`nodesByPath
      ensures Valid()
      ensures r.Some? <==> !bypass && hasStore && p in storedChildren
      ensures r.Some? ==> LookupDir(cloud, Segments(p)).Ok? && r.value == Listing(cloud, LookupDir(cloud, Segments(p)).value)
      ensures KnownPaths() == old(KnownPaths()) + if r.Some? then ChildPaths(cloud, Segments(p)) else iset{}
    {
      hide Normalize, AllValid, WellFormed, Lookup, LookupDir, Segments, SoundNodes, Listing;
      if bypass || !hasStore || p !in storedChildren {
        return None;
      }
      var items := storedChildren[p];
      for i := 0 to |items|
        invariant Valid()
        invariant KnownPaths() == old(KnownPaths()) + PathsOf(items[..i])
      {
        SoundAddListed(cloud, nodesByPath, Segments(p), items[i]);
        KnownMore(nodesByPath, storedNodes, hasStore, items[i].path, items[i]);
        nodesByPath := nodesByPath[Normalize(items[i].path) := items[i]];
        assert items[..i + 1] == items[..i] + [items[i]];
        PathsMore(items[..i], items[i]);
      }
      assert items[..|items|] == items;
      return Some(items);
    }

    method ListNodesById(parent: Node, bypass: bool, ghost segs: seq<string>) returns (r: Result<seq<Node>, ResolveError>)
      requires Valid() && Lookup(cloud, segs) == Ok(parent)
      modifies this
      ensures Valid()
      ensures r == if parent.isDir then Ok(Listing(cloud, parent)) else Err(ListingFailed)
      ensures KnownPaths() == old(KnownPaths()) + ChildPaths(cloud, segs)
      ensures storedChildren == if hasStore && r.Ok? then old(storedChildren)[parent.path := r.value] else old(storedChildren)
    {
      hide Normalize, AllValid, WellFormed, Lookup, Segments, SoundNodes, NodesOf, Live, PathsOf;
      PlacedIsSound(cloud, segs);
      LookupIsPlaced(cloud, segs);
      var cached := GetCachedChildren(parent.path, bypass);
      if cached.Some? {
        return Ok(cached.value);
      }
      if parent.id !in cloud {
        return Err(ListingFailed);
      }
      var files := cloud[parent.id];
      var items: seq<Node> := [];
      assert files[..0] == [] && files[..|files|] == files;
      NoNodes(parent.path);
      PathsMore([], ROOT);
      for i := 0 to |files|
        invariant Valid() && storedChildren == old(storedChildren)
        invariant items == NodesOf(parent.path, files[..i])
        invariant KnownPaths() == old(KnownPaths()) + PathsOf(items)
      {
        NodesNext(parent.path, files, i);
        if Live(files[i]) {
          var resolved := NodeFromFileItem(parent.path, files[i]);
          NodesGrow(parent.path, files, i + 1, resolved);
          SoundAddListed(cloud, nodesByPath, segs, resolved);
          SetCachedNode(resolved, segs + [resolved.name]);
          PathsMore(items, resolved);
          items := items + [resolved];
        }
      }
      if hasStore {
        storedChildren := storedChildren[Normalize(parent.path) := items];
      }
      return Ok(items);
    }

    // findNamedChild, for any name a normalised path can hold.
    method FindNamedChild(parent: Node, name: string, bypass: bool, ghost at: seq<string>)
      returns (r: Result<Node, ResolveError>)
      requires Valid() && Good(at) && Lookup(cloud, at) == Ok(parent) && GoodSegment(name)
      modifies this
      ensures Valid()
      ensures var trip := Stepped(cloud, old(KnownPaths()), at, name);
              Reached(cloud, r, trip) && KnownPaths() == trip.known
    {
      hide Normalize, ValidName, WellFormed, Segments, SoundNodes, SoundChildren, Listing, Render, ChildPath, ChildSegments;
      hide GoodSegment, AllValid;
      ChildKey(cloud, at, name);
      var childPath := ChildPath(parent.path, name);
      assert Normalize(childPath) == childPath;
      var cached := GetCachedNode(childPath);
      if cached.Some? {
        return Ok(cached.value);
      }
      var items := ListNodesById(parent, bypass, at);
      if items.Err? {
        return Err(items.error);
      }
      for i := 0 to |items.value|
        invariant Valid() && KnownPaths() == old(KnownPaths()) + ChildPaths(cloud, at)
        invariant Named(items.value, name) == Named(items.value[i..], name)
      {
        if items.value[i].name == name {
          return Ok(items.value[i]);
        }
        assert items.value[i..][1..] == items.value[i + 1..];
      }
      return Err(NotFound);
    }

    // The loop over segments that resolveRoot and resolveDir share.
    method WalkSegments(start: Node, names: seq<string>, bypass: bool, ghost at: seq<string>)
      returns (r: Result<Node, ResolveError>)
      requires Valid() && Good(at) && Lookup(cloud, at) == Ok(start) && Good(names)
      modifies this
      ensures Valid()
      ensures var trip := Walked(cloud, old(KnownPaths()), at, names);
              Reached(cloud, r, trip) && KnownPaths() == trip.known
    {
      hide Normalize, WellFormed, Segments, SoundNodes, SoundChildren, Listing, Render, Lookup, Stepped, GoodSegment;
      var current := start;
      ghost var here := at;
      assert names[0..] == names;
      for i := 0 to |names|
        invariant Valid() && Good(here) && Lookup(cloud, here) == Ok(current)
        invariant Walked(cloud, old(KnownPaths()), at, names) == Walked(cloud, KnownPaths(), here, names[i..])
      {
        assert names[i..][0] == names[i] && names[i..][1..] == names[i + 1..];
        ghost var step := Stepped(cloud, KnownPaths(), here, names[i]);
        var child := FindNamedChild(current, names[i], bypass, here);
        if child.Err? {
          return Err(child.error);
        }
        if !child.value.isDir {
          return Err(NotDirectory);
        }
        current, here := child.value, step.end.value;
      }
      return Ok(current);
    }

    // validatePathWithinRoot.
    method ValidatePathWithinRoot(providerPath: string) returns (allowed: bool)
      ensures allowed <==> Allowed(rootPath, providerPath)
      ensures allowed <==> WithinRoot(Normalize(providerPath), rootPath)
    {
      hide WithinRoot, Segments, Normalize;
      var normalized := Normalize(providerPath);
      RootSegments();
      WithinRootIsSegmentPrefix(normalized, rootPath);
      var within := HasPathPrefix123(normalized, rootPath);
      return rootPath == "/" || within;
    }

    // resolveRoot.
    method ResolveRoot(bypass: bool) returns (r: Result<Node, ResolveError>)
      requires Valid()
      modifies this
      ensures Valid()
      ensures var trip := RootTrip(cloud, old(KnownPaths()), rootPath);
              Reached(cloud, r, trip) && KnownPaths() == trip.known
    {
      hide Normalize, WellFormed, Segments, SoundNodes, SoundChildren, Listing, Render, Walked, Lookup, GoodSegment;
      RootIsThere(cloud);
      var cached := GetCachedNode(rootPath);
      if cached.Some? {
        NodeHasId(cloud, Segments(rootPath));
      }
      if cached.Some? && cached.value.id != "" {
        return Ok(cached.value);
      }
      if rootPath == "/" {
        SetCachedNode(ROOT, []);
        return Ok(ROOT);
      }
      SplitPathSegmentsIsSegments(rootPath);
      var found := WalkSegments(ROOT, SplitPathSegments(rootPath), bypass, []);
      if found.Err? {
        return found;
      }
      ghost var end := Walked(cloud, old(KnownPaths()), [], Segments(rootPath)).end.value;
      LookupIsPlaced(cloud, end);
      SetCachedNode(found.value, end);
      return found;
    }

    // resolveDir.
    method ResolveDir(path: string, bypass: bool) returns (r: Result<Node, ResolveError>)
      requires Valid()
      modifies this
      ensures Valid()
      ensures var trip := DirTrip(cloud, old(KnownPaths()), rootPath, path);
              Reached(cloud, r, trip) && KnownPaths() == trip.known
    {
      hide Normalize, WellFormed, Segments, SoundNodes, SoundChildren, Listing, Render, Walked, RootTrip, GoodSegment;
      hide WithinRoot;
      var normalized := Normalize(path);
      var allowed := ValidatePathWithinRoot(normalized);
      if !allowed {
        return Err(OutsideRoot);
      }
      var root := ResolveRoot(bypass);
      if root.Err? || normalized == rootPath {
        return root;
      }
      var cached := GetCachedNode(normalized);
      if cached.Some? {
        return if cached.value.isDir then Ok(cached.value) else Err(NotDirectory);
      }
      SplitPathSegmentsIsSegments(normalized);
      SplitPathSegmentsIsSegments(rootPath);
      var segments, rootSegments := SplitPathSegments(normalized), SplitPathSegments(rootPath);
      hide SplitPathSegments;
      var names := if rootPath == "/" then segments
                   else if |segments| <= |rootSegments| then [] else segments[|rootSegments|..];
      ghost var at := RootTrip(cloud, old(KnownPaths()), rootPath).end.value;
      r := WalkSegments(root.value, names, bypass, at);
    }

    // resolveNode.
    method ResolveNode(path: string, bypass: bool) returns (r: Result<Node, ResolveError>)
      requires Valid()
      modifies this
      ensures Valid()
      ensures var trip := NodeTrip(cloud, old(KnownPaths()), rootPath, path);
              Reached(cloud, r, trip) && KnownPaths() == trip.known
    {
      hide WellFormed, SoundNodes, SoundChildren, Listing, Walked, RootTrip, DirTrip, Stepped, GoodSegment;
      hide WithinRoot, CleanRooted;
      var normalized := Normalize(path);
      var allowed := ValidatePathWithinRoot(normalized);
      if !allowed {
        return Err(OutsideRoot);
      }
      if normalized == "/" {
        r := ResolveRoot(bypass);
        return;
      }
      var cached := GetCachedNode(normalized);
      if cached.Some? {
        return Ok(cached.value);
      }
      var segs := Segments(path);
      var parent := ResolveDir(Normalize(Render(segs[..|segs| - 1])), bypass);
      if parent.Err? {
        return parent;
      }
      ghost var at := DirTrip(cloud, old(KnownPaths()), rootPath, ParentPath(path)).end.value;
      r := FindNamedChild(parent.value, segs[|segs| - 1], bypass, at);
    }
  }

  // What the caches hold is what the lemmas below ask of the known paths.
  lemma CachesAreSound(p: Provider)
    requires p.Valid()
    ensures SoundKnown(p.cloud, p.KnownPaths())
  {
    hide Clean, Lookup, Segments;
  }

  lemma NodeHasId(cloud: Cloud, segs: seq<string>)
    requires WellFormed(cloud)
    ensures Lookup(cloud, segs).Ok? ==> Lookup(cloud, segs).value.id != ""
  {
    if Lookup(cloud, segs).Ok? {
      LookupIsPlaced(cloud, segs);
    }
  }

  lemma RootIsThere(cloud: Cloud)
    ensures LookupDir(cloud, []) == Ok(ROOT) && Lookup(cloud, []) == Ok(ROOT)
  {
  }
}
