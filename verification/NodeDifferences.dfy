/** Trees on which path resolution through the caches differs from the plain walk. */
module NodeDifferences {
  import opened Wrappers
  import opened Strings
  import opened Paths
  import opened NodeCache
  import opened NodeAgreement

  function Leaf(id: string, name: string, isDir: bool): FileItem {
    FileItem(id, name, isDir, false)
  }

  // The remote root holds the directory "a", which holds the empty directories "b" and "c".
  const TREE: Cloud := map[
    "0" := [Leaf("1", "a", true)], "1" := [Leaf("2", "b", true), Leaf("3", "c", true)], "2" := [], "3" := []]

  // The remote root holds the file "f".
  const FILE: Cloud := map["0" := [Leaf("1", "f", false)]]

  lemma OneName(name: string)
    requires |name| == 1 && !IsSpace(name[0]) && name != "." && name != "/"
    ensures ValidName(name) && TrimSpace(name) == name && TrimRight(name) == name
  {
  }

  lemma OneEntry(parent: seq<string>, id: string, name: string, isDir: bool)
    requires Good(parent) && |id| == 1 && !IsSpace(id[0]) && id != "." && id != "/"
    requires |name| == 1 && !IsSpace(name[0]) && name != "." && name != "/"
    ensures Live(Leaf(id, name, isDir)) && TrimSpace(id) == id && TrimSpace(name) == name && ValidName(name)
    ensures NodeFromFileItem(Render(parent), Leaf(id, name, isDir)) == Node(id, Render(parent + [name]), name, isDir)
  {
    OneName(id);
    OneName(name);
    ChildPathIsRendered(parent, name);
    hide ChildPath, TrimSpace, IsSpace, Render;
  }

  lemma OneNode(parentPath: string, item: FileItem)
    requires Live(item)
    ensures NodesOf(parentPath, [item]) == [NodeFromFileItem(parentPath, item)]
  {
    var items := [item];
    assert items[..1] == items && items[..0] == [];
    hide NodeFromFileItem, Live;
    NodesNext(parentPath, items, 0);
  }

  lemma TwoNodes(parentPath: string, x: FileItem, y: FileItem)
    requires Live(x) && Live(y)
    ensures NodesOf(parentPath, [x, y]) == [NodeFromFileItem(parentPath, x), NodeFromFileItem(parentPath, y)]
  {
    var items := [x, y];
    assert items[..2] == items && items[..1] == [x];
    hide NodeFromFileItem, Live;
    OneNode(parentPath, x);
    NodesNext(parentPath, items, 1);
  }

  const NODE_A := Node("1", "/a", "a", true)
  const NODE_B := Node("2", Render(["a"] + ["b"]), "b", true)
  const NODE_C := Node("3", Render(["a"] + ["c"]), "c", true)

  lemma OnePath()
    ensures Render(["a"]) == "/a" && Good(["a"]) && Good([])
  {
    RenderSingle("a");
    OneName("a");
  }

  lemma TreeEntries()
    ensures Live(Leaf("1", "a", true)) && Live(Leaf("2", "b", true)) && Live(Leaf("3", "c", true))
    ensures ValidName("a") && ValidName("b") && ValidName("c")
    ensures TrimSpace("1") == "1" && TrimSpace("2") == "2" && TrimSpace("3") == "3"
    ensures TrimSpace("a") == "a" && TrimSpace("b") == "b" && TrimSpace("c") == "c"
    ensures NodesOf("/", [Leaf("1", "a", true)]) == [NODE_A]
    ensures NodesOf("/a", [Leaf("2", "b", true), Leaf("3", "c", true)]) == [NODE_B, NODE_C]
  {
    assert Render([]) == "/" && [] + ["a"] == ["a"];
    hide *;
    OneName("a");
    RenderSingle("a");
    assert Render(["a"]) == "/a" && Good(["a"]) && Good([]) by {
      OnePath();
    }
    OneEntry([], "1", "a", true);
    OneNode("/", Leaf("1", "a", true));
    OneEntry(["a"], "2", "b", true);
    OneEntry(["a"], "3", "c", true);
    TwoNodes("/a", Leaf("2", "b", true), Leaf("3", "c", true));
  }

  lemma TreeListings()
    ensures WellFormed(TREE) && Listing(TREE, ROOT) == [NODE_A] && Listing(TREE, NODE_A) == [NODE_B, NODE_C]
  {
    TreeEntries();
    hide TrimSpace, ValidName, NodesOf, Live, Render, ChildPath;
    assert TREE.Keys == {"0", "1", "2", "3"};
  }

  lemma FoundIn(cloud: Cloud, parent: seq<string>, n: Node)
    requires WellFormed(cloud) && LookupDir(cloud, parent).Ok? && n in Listing(cloud, LookupDir(cloud, parent).value)
    ensures Lookup(cloud, parent + [n.name]) == Ok(n) && n.path in ChildPaths(cloud, parent)
  {
    LookupChild(cloud, parent, n);
  }

  lemma TreeIs()
    ensures WellFormed(TREE) && "/a" in ChildPaths(TREE, [])
    ensures Lookup(TREE, ["a"]) == Ok(NODE_A)
    ensures Lookup(TREE, ["a", "b"]) == Ok(NODE_B) && Lookup(TREE, ["a", "c"]) == Ok(NODE_C)
  {
    TreeListings();
    RootIsThere(TREE);
    hide WellFormed, Listing, Render, Lookup, ChildPaths;
    FoundIn(TREE, [], NODE_A);
    assert [] + ["a"] == ["a"] && ["a"] + ["b"] == ["a", "b"] && ["a"] + ["c"] == ["a", "c"];
    FoundIn(TREE, ["a"], NODE_B);
    FoundIn(TREE, ["a"], NODE_C);
  }

  lemma FileIs()
    ensures WellFormed(FILE) && "/f" in ChildPaths(FILE, [])
    ensures Lookup(FILE, ["f"]) == Ok(Node("1", "/f", "f", false))
  {
    FileListing();
    RootIsThere(FILE);
    hide WellFormed, Listing, Lookup, ChildPaths;
    FoundIn(FILE, [], Node("1", "/f", "f", false));
    assert [] + ["f"] == ["f"];
  }

  lemma FileListing()
    ensures WellFormed(FILE) && Listing(FILE, ROOT) == [Node("1", "/f", "f", false)]
  {
    OneName("f");
    OneEntry([], "1", "f", false);
    RenderSingle("f");
    OneNode("/", Leaf("1", "f", false));
    assert Render([]) == "/" && [] + ["f"] == ["f"] && Render(["f"]) == "/f";
    hide TrimSpace, ValidName, NodesOf, Live, Render, ChildPath;
  }

  lemma ColdKnowsRoot(cloud: Cloud)
    requires WellFormed(cloud)
    ensures SoundKnown(cloud, iset{"/"}) && SoundKnown(cloud, iset{})
  {
    RootSegments();
    RootIsThere(cloud);
  }

  // ---- A name with a blank at its end ----

  lemma BlankPath()
    ensures Segments("/a /b") == ["a ", "b"] && Normalize("/a /b") == "/a /b"
    ensures Render(["a"]) == "/a" && Segments("/a") == ["a"] && Normalize("/a") == "/a"
    ensures !ValidName("a ") && ValidName("a") && ValidName("b") && GoodSegment("a ") && TrimRight("a ") == "a"
  {
    RenderSingle("a");
    RenderSingle("b");
    BelowAppend(["a "], ["b"]);
    RenderSingle("a ");
    assert ["a "] + ["b"] == ["a ", "b"] && Render(["a ", "b"]) == "/a /b";
    SegmentsOfRender(["a ", "b"]);
    SegmentsOfRender(["a"]);
    assert TrimRight("a ") == TrimRight("a") == "a" by { assert "a "[..1] == "a"; }
  }

  // A walk by such a name stops where nothing is known, but lists first.
  lemma FirstWalk()
    requires WellFormed(TREE)
    ensures Good(["a ", "b"]) && Walked(TREE, iset{"/"}, [], ["a ", "b"]) == Trip(None, iset{"/"} + ChildPaths(TREE, []))
  {
    BlankPath();
    InvalidNameFails(TREE, [], "a ");
    assert ["a ", "b"][0] == "a " && [] + ["a"] == ["a"];
    hide WellFormed, Lookup, Render, ValidName, TrimRight, ChildPaths;
  }

  // It passes once the trimmed path is known.
  lemma BlankPasses(known: iset<string>)
    requires WellFormed(TREE) && LookupDir(TREE, ["a"]).Ok? && LookupDir(TREE, ["a", "b"]).Ok?
    ensures Good(["a ", "b"]) && Landing([], ["a ", "b"]) == ["a", "b"]
    ensures Passes(TREE, known, iset{}, [], ["a ", "b"]) <==> "/a" in known
  {
    BlankPath();
    var names := ["a ", "b"];
    assert names[0] == "a " && names[1..] == ["b"] && ["b"][1..] == [] && [] + ["a"] == ["a"];
    ValidKey(["a"], "b");
    assert ChildSegments([], "a ") == ["a"];
    assert ["a"] + ["b"] == ["a", "b"];
    hide WellFormed, Lookup, Render, ValidName, TrimRight, ChildSegments;
    assert Landing(["a"], ["b"]) == ["a", "b"] && Passes(TREE, known, iset{}, ["a"], ["b"]);
  }

  lemma BlankRoute()
    ensures SegmentsFromRoot("/", "/a /b") == ["a ", "b"] && Route("/", "/a /b") == ["a ", "b"]
    ensures Allowed("/", "/a /b") && Normalize("/") == "/" && Segments("/") == []
  {
    RootSegments();
    BlankPath();
    hide Segments, Normalize;
    assert [] + ["a ", "b"] == ["a ", "b"];
  }

  lemma BlankReaches(known: iset<string>)
    requires WellFormed(TREE) && SoundKnown(TREE, known) && "/" in known
    requires LookupDir(TREE, ["a"]).Ok? && LookupDir(TREE, ["a", "b"]).Ok?
    ensures DirTrip(TREE, known, "/", "/a /b").end == if "/a" in known then Some(["a", "b"]) else None
  {
    hide *;
    BlankRoute();
    BlankPath();
    BlankPasses(known);
    DirTripIs(TREE, known, "/", "/a /b");
    BlankDirReaches(known);
  }

  lemma BlankDirReaches(known: iset<string>)
    requires "/" in known && Good(["a ", "b"])
    ensures DirReaches(TREE, known, "/", "/a /b") <==> Passes(TREE, known, iset{}, [], ["a ", "b"])
  {
    BlankRoute();
    BlankPath();
    assert known + iset{"/"} == known;
    hide Lookup, LookupDir, Segments, Normalize, Passes, SegmentsFromRoot, GoodSegment, ValidName;
  }

  lemma KnownRootTrip(cloud: Cloud, known: iset<string>)
    requires "/" in known
    ensures RootTrip(cloud, known, "/") == Trip(Some([]), known)
  {
    RootSegments();
    hide Segments, Normalize, Walked;
  }

  lemma UnknownTrip(cloud: Cloud, known: iset<string>, path: string)
    requires "/" in known && path !in known && path != "/" && Normalize(path) == path
    ensures DirTrip(cloud, known, "/", path) == Walked(cloud, known, [], SegmentsFromRoot("/", path))
  {
    KnownRootTrip(cloud, known);
    hide Segments, Normalize, Walked, SegmentsFromRoot, RootTrip;
  }

  lemma BlankFirstTrip()
    requires WellFormed(TREE)
    ensures DirTrip(TREE, iset{"/"}, "/", "/a /b") == Trip(None, iset{"/"} + ChildPaths(TREE, []))
  {
    assert "/a /b"[1] == 'a';
    BlankRoute();
    BlankPath();
    hide *;
    UnknownTrip(TREE, iset{"/"}, "/a /b");
    FirstWalk();
  }

  lemma BlankNode()
    requires WellFormed(TREE) && SoundKnown(TREE, iset{"/"})
    requires LookupDir(TREE, ["a"]).Ok? && Lookup(TREE, ["a", "b"]).Ok?
    ensures NodeTrip(TREE, iset{"/"}, "/", "/a /b").end == Some(["a", "b"])
  {
    var known, segs := iset{"/"}, ["a ", "b"];
    hide WellFormed, Lookup, Segments, Normalize, Render, ValidName, TrimRight, SoundKnown, NodeTrip, DirReaches, ParentPath;
    hide ChildSegments, Landing, Route, GoodSegment, Represents, Passes;
    RootSegments();
    BlankPath();
    ColdDirectory(TREE);
    NodeTripIs(TREE, known, "/", "/a /b");
    assert segs[..1] == ["a "] && segs[1] == "b" && ["a"] + ["b"] == ["a", "b"] && "/a /b"[1] == 'a';
    ParentOfBlank();
    assert Good(["a"]);
    ValidKey(["a"], "b");
    assert NodeLanding("/", "/a /b") == ["a", "b"];
  }

  lemma ParentOfBlank()
    ensures ParentPath("/a /b") == "/a" && Normalize("/a") == "/a"
  {
    BlankPath();
    RenderSingle("a ");
    var segs := ["a ", "b"];
    assert segs[..1] == ["a "] && Render(["a "]) == "/a " && [] + ["a "] == ["a "];
    ChildPathIs([], "a ");
    assert ChildSegments([], "a ") == ["a"];
    hide CleanRooted, Render, TrimRight, Segments, ChildSegments;
  }

  // The directory "/a" below a remote root that is known alone.
  lemma ColdDirectory(cloud: Cloud)
    requires WellFormed(cloud) && LookupDir(cloud, ["a"]).Ok? && SoundKnown(cloud, iset{"/"})
    ensures Allowed("/", "/a") && DirReaches(cloud, iset{"/"}, "/", "/a") && Landing([], Route("/", "/a")) == ["a"]
  {
    RootSegments();
    BlankPath();
    ValidDirReaches(cloud, iset{"/"}, "/", "/a");
    ValidRoute("/", "/a");
    hide WellFormed, Lookup, Segments, Normalize, Landing, Route, SegmentsFromRoot;
  }

  // The remote root has no directory "a ", and a provider that has not listed it yet says
  // so. But that listing makes "/a" known, and the same call then succeeds: the path the
  // cache is asked for has lost the blank.
  lemma BlankNameReachedThroughCache()
    ensures WellFormed(TREE) && Normalize("/a /b") == "/a /b" && LookupDir(TREE, Segments("/a /b")).Err?
    ensures var first := DirTrip(TREE, iset{"/"}, "/", "/a /b");
            first.end.None? && DirTrip(TREE, first.known, "/", "/a /b").end == Some(["a", "b"])
    ensures NodeTrip(TREE, iset{"/"}, "/", "/a /b").end == Some(["a", "b"])
  {
    TreeIs();
    BlankPath();
    ColdKnowsRoot(TREE);
    assert ["a ", "b"][0] == "a " && !AllValid(["a ", "b"]);
    assert LookupDir(TREE, ["a"]).Ok? && LookupDir(TREE, ["a", "b"]).Ok?;
    hide *;
    InvalidFails(TREE, ["a ", "b"]);
    BlankFirstTrip();
    ListingKeepsSound(TREE, iset{"/"}, []);
    BlankReaches(iset{"/"} + ChildPaths(TREE, []));
    BlankNode();
  }

  // ---- A file as the root, and a root that is not known ----

  lemma FilePath()
    ensures Segments("/f") == ["f"] && Normalize("/f") == "/f" && AllValid(["f"])
  {
    OneName("f");
    RenderSingle("f");
    assert Render(["f"]) == "/f";
    CleanRender(["f"]);
  }

  lemma FileIsListed()
    requires WellFormed(FILE) && Lookup(FILE, ["f"]).Ok? && "/f" in ChildPaths(FILE, []) && ValidName("f")
    ensures "/f" in Walked(FILE, iset{}, [], ["f"]).known
  {
    RenderSingle("f");
    ValidKey([], "f");
    hide Lookup, ChildPaths, ChildSegments, TrimRight;
  }

  // A provider whose root is a file fails to resolve it, and then resolves it.
  lemma FileRootResolvedTwice()
    ensures WellFormed(FILE) && LookupDir(FILE, Segments("/f")).Err?
    ensures var first := RootTrip(FILE, iset{}, "/f");
            first.end.None? && RootTrip(FILE, first.known, "/f").end == Some(["f"])
  {
    FileIs();
    FilePath();
    ColdKnowsRoot(FILE);
    FileIsListed();
    RootAgreesIff(FILE, iset{}, "/f");
    hide WellFormed, Lookup, Segments, Normalize, Walked, ChildPaths, SoundKnown, AllValid, Passes;
  }

  // A provider whose root lies below "/" does not find that root before its caches know it,
  // because the parent is outside the root.
  lemma ColdRootNotFound()
    ensures WellFormed(TREE) && Lookup(TREE, Segments("/a")).Ok?
    ensures NodeTrip(TREE, iset{}, "/a", "/a").end.None?
    ensures NodeTrip(TREE, RootTrip(TREE, iset{}, "/a").known, "/a", "/a").end == Some(["a"])
  {
    TreeIs();
    BlankPath();
    ColdKnowsRoot(TREE);
    assert AllValid(["a"]);
    RootAgreesIff(TREE, iset{}, "/a");
    RootTripIs(TREE, iset{}, "/a");
    hide WellFormed, Lookup, Segments, Normalize, Walked, ChildPaths, SoundKnown, Render, NodeTrip, AllValid, Passes;
    hide Represents;
    assert "/a" in RootTrip(TREE, iset{}, "/a").known;
    hide RootTrip, FoundBelow, NodeLanding;
    NodeAgreesIff(TREE, iset{}, "/a", "/a");
    NodeTripIs(TREE, RootTrip(TREE, iset{}, "/a").known, "/a", "/a");
  }

  // ---- A name of dots before a blank ----

  lemma DotsRendered()
    ensures Good(["a", "b"]) && Good(["a", "b", ".. ", "c"])
    ensures Render(["a", "b"]) == "/a/b" && Render(["a", "b", ".. ", "c"]) == "/a/b/.. /c"
  {
    RenderSingle("a");
    RenderChild(["a"], "b");
    RenderChild(["a", "b"], ".. ");
    RenderChild(["a", "b", ".. "], "c");
    assert ["a"] + ["b"] == ["a", "b"] && ["a", "b"] + [".. "] == ["a", "b", ".. "];
    assert ["a", "b", ".. "] + ["c"] == ["a", "b", ".. ", "c"];
    hide Render;
  }

  lemma DotsLeadUp()
    ensures Good(["a", "b"]) && '/' !in ".. " && ChildSegments(["a", "b"], ".. ") == ["a"]
  {
    assert TrimRight(".. ") == TrimRight("..") == ".." by { assert ".. "[..2] == ".."; }
    assert ["a", "b"][..1] == ["a"];
  }

  lemma DotsRoute()
    ensures var path := "/a/b/.. /c";
            && Normalize(path) == path && Normalize("/a/b") == "/a/b" && path != "/a/b"
            && Segments("/a/b") == ["a", "b"] && Segments(path) == ["a", "b", ".. ", "c"]
            && SegmentsFromRoot("/a/b", path) == [".. ", "c"] && Route("/a/b", path) == ["a", "b", ".. ", "c"]
            && Allowed("/a/b", path)
  {
    DotsRendered();
    SegmentsOfRender(["a", "b"]);
    SegmentsOfRender(["a", "b", ".. ", "c"]);
    RenderedIsNormal(["a", "b"]);
    RenderedIsNormal(["a", "b", ".. ", "c"]);
    var segs := ["a", "b", ".. ", "c"];
    assert segs[2..] == [".. ", "c"] && ["a", "b"] + [".. ", "c"] == segs && ["a", "b"] <= segs;
    assert |"/a/b"| != |"/a/b/.. /c"| && |"/a/b"| != |"/"|;
    hide Segments, Normalize, Render;
  }

  // One more directory passes by its own name.
  lemma ValidStep(
    cloud: Cloud, known: iset<string>, listed: iset<seq<string>>, at: seq<string>, names: seq<string>)
    requires Good(at) && Good(names) && names != [] && ValidName(names[0]) && LookupDir(cloud, at + [names[0]]).Ok?
    requires !(Render(at + [names[0]]) in known) && at !in listed
    ensures Good(at + [names[0]]) && Landing(at, names) == Landing(at + [names[0]], names[1..])
    ensures Passes(cloud, known, listed, at, names)
       <==> Passes(cloud, known, listed + iset{at}, at + [names[0]], names[1..])
  {
    ValidKey(at, names[0]);
    var child := at + [names[0]];
    assert child[..|child| - 1] == at;
    hide ValidName, GoodSegment, LookupDir, Lookup, Render;
  }

  lemma DotsNames()
    ensures Good(["a", "b", ".. ", "c"]) && Good(["b", ".. ", "c"]) && Good(["a"]) && ValidName("a") && ValidName("b")
    ensures ["a", "b", ".. ", "c"][1..] == ["b", ".. ", "c"] && ["b", ".. ", "c"][1..] == [".. ", "c"]
    ensures [] + ["a"] == ["a"] && ["a"] + ["b"] == ["a", "b"] && ["a", "b"][..1] == ["a"]
  {
    DotsRendered();
    OneName("a");
    OneName("b");
    assert forall i :: 0 <= i < 3 ==> ["b", ".. ", "c"][i] == ["a", "b", ".. ", "c"][i + 1];
    hide GoodSegment, ValidName;
  }

  lemma DotsPass(cloud: Cloud)
    requires WellFormed(cloud) && LookupDir(cloud, ["a", "b"]).Ok? && LookupDir(cloud, ["a", "c"]).Ok?
    ensures Good(["a", "b", ".. ", "c"]) && Landing([], ["a", "b", ".. ", "c"]) == ["a", "c"]
    ensures Passes(cloud, iset{}, iset{}, [], ["a", "b", ".. ", "c"])
  {
    DotsNames();
    LookupIsOk(cloud, ["a", "b"]);
    hide *;
    LookupFront(cloud, ["a", "b"], 1);
    ValidStep(cloud, iset{}, iset{}, [], ["a", "b", ".. ", "c"]);
    ValidStep(cloud, iset{}, iset{} + iset{[]}, ["a"], ["b", ".. ", "c"]);
    DotsEnd(cloud, iset{} + iset{[]} + iset{["a"]});
  }

  lemma LookupIsOk(cloud: Cloud, segs: seq<string>)
    requires LookupDir(cloud, segs).Ok?
    ensures Lookup(cloud, segs) == LookupDir(cloud, segs)
  {
  }

  lemma DotsEnd(cloud: Cloud, listed: iset<seq<string>>)
    requires [] in listed && LookupDir(cloud, ["a"]).Ok? && LookupDir(cloud, ["a", "c"]).Ok?
    ensures Good(["a", "b"]) && Good([".. ", "c"]) && Landing(["a", "b"], [".. ", "c"]) == ["a", "c"]
    ensures Passes(cloud, iset{}, listed, ["a", "b"], [".. ", "c"])
  {
    DotsRendered();
    DotsLeadUp();
    OneName("c");
    ValidKey(["a"], "c");
    assert [".. ", "c"][1..] == ["c"] && ["c"][1..] == [] && ["a"] + ["c"] == ["a", "c"];
    assert ["a"][..0] == [];
    assert Good([".. ", "c"]) by { assert GoodSegment(".. ") && GoodSegment("c"); }
    hide ValidName, GoodSegment, Render, ChildSegments;
    assert KnownBy(cloud, iset{}, listed, ["a"]);
  }

  // In every tree with the directories "/a/b" and "/a/c", a provider whose root is "/a/b"
  // and whose caches are empty takes "/a/b/.. /c" for a path within the root, for its
  // spelling begins with it, and gives the directory "/a/c", which is outside.
  lemma DotsLeaveRoot(cloud: Cloud)
    requires WellFormed(cloud) && LookupDir(cloud, ["a", "b"]).Ok? && LookupDir(cloud, ["a", "c"]).Ok?
    ensures WithinRoot("/a/b/.. /c", "/a/b") && !WithinRoot(LookupDir(cloud, ["a", "c"]).value.path, "/a/b")
    ensures DirTrip(cloud, iset{}, "/a/b", "/a/b/.. /c").end == Some(["a", "c"])
  {
    DotsRoute();
    ColdKnowsRoot(cloud);
    assert !(["a", "b"] <= ["a", "c"]) by { assert ["a", "b"][1] == "b" && ["a", "c"][1] == "c"; }
    assert RootKnown(iset{}, "/a/b") == iset{};
    assert Lookup(cloud, ["a", "c"]) == Ok(LookupDir(cloud, ["a", "c"]).value);
    WithinRootIsSegmentPrefix("/a/b/.. /c", "/a/b");
    hide *;
    DotsPass(cloud);
    DotsReach(cloud);
    DirTripIs(cloud, iset{}, "/a/b", "/a/b/.. /c");
    NodeWithinIff(cloud, "/a/b", ["a", "c"], LookupDir(cloud, ["a", "c"]).value);
  }

  lemma DotsReach(cloud: Cloud)
    requires Good(["a", "b", ".. ", "c"])
    ensures DirReaches(cloud, iset{}, "/a/b", "/a/b/.. /c") <==> Passes(cloud, iset{}, iset{}, [], ["a", "b", ".. ", "c"])
  {
    DotsRoute();
    hide Segments, Normalize, Passes, SegmentsFromRoot, Allowed;
  }

  // Such a tree is there.
  lemma DotsLeaveRootOfTree()
    ensures WithinRoot("/a/b/.. /c", "/a/b") && !WithinRoot(NODE_C.path, "/a/b")
    ensures DirTrip(TREE, iset{}, "/a/b", "/a/b/.. /c").end == Some(["a", "c"]) && LookupDir(TREE, ["a", "c"]) == Ok(NODE_C)
  {
    TreeIs();
    hide WithinRoot, WellFormed, Lookup, DirTrip, Normalize;
    DotsLeaveRoot(TREE);
  }
}
