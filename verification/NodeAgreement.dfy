/** When path resolution through the caches agrees with the plain walk. A name that ends in
  * a blank is looked up under the path it makes without the blank, so such a name, or one
  * of blanks or of dots before blanks, leads on only where that path is known already. */
module NodeAgreement {
  import opened Wrappers
  import opened Strings
  import opened Paths
  import opened NodeCache

  // ---- Where a walk leads, from the tree and the paths known at its start ----

  // Where the names lead from a directory, each read as path.Join and the trim read it.
  function Landing(at: seq<string>, names: seq<string>): (segs: seq<string>)
    requires Good(at) && Good(names)
    ensures Good(segs)
    decreases |names|
  {
    if names == [] then at else Landing(ChildSegments(at, names[0]), names[1..])
  }

  // Known at the start, or a child of a directory listed since.
  ghost predicate KnownBy(cloud: Cloud, known: iset<string>, listed: iset<seq<string>>, segs: seq<string>) {
    Render(segs) in known || (segs != [] && segs[..|segs| - 1] in listed && Lookup(cloud, segs).Ok?)
  }

  // Each name leads to a directory; one that ends in a blank, to a known one. What a valid
  // name does not find known is listed.
  ghost predicate Passes(
    cloud: Cloud, known: iset<string>, listed: iset<seq<string>>, at: seq<string>, names: seq<string>)
    requires Good(at) && Good(names)
    decreases |names|
  {
    names == []
    || (var child := ChildSegments(at, names[0]);
        var here := KnownBy(cloud, known, listed, child);
        && LookupDir(cloud, child).Ok?
        && (ValidName(names[0]) || here)
        && Passes(cloud, known, if here then listed else listed + iset{at}, child, names[1..]))
  }

  // The directories a walk that passes has listed at its end.
  ghost function ListedBy(
    cloud: Cloud, known: iset<string>, listed: iset<seq<string>>, at: seq<string>, names: seq<string>): iset<seq<string>>
    requires Good(at) && Good(names)
    decreases |names|
  {
    if names == [] then listed
    else
      var child := ChildSegments(at, names[0]);
      ListedBy(cloud, known, if KnownBy(cloud, known, listed, child) then listed else listed + iset{at}, child, names[1..])
  }

  // What the caches know now is what was known and what has been listed.
  ghost predicate Represents(cloud: Cloud, now: iset<string>, known: iset<string>, listed: iset<seq<string>>) {
    forall segs :: Good(segs) ==> (Render(segs) in now <==> KnownBy(cloud, known, listed, segs))
  }

  // ---- Facts about lookups and listings ----

  lemma LookupIsValid(cloud: Cloud, segs: seq<string>)
    requires WellFormed(cloud) && Lookup(cloud, segs).Ok?
    ensures AllValid(segs) && Good(segs)
  {
    LookupIsPlaced(cloud, segs);
  }

  lemma InvalidFails(cloud: Cloud, segs: seq<string>)
    requires WellFormed(cloud) && !AllValid(segs)
    ensures Lookup(cloud, segs).Err? && LookupDir(cloud, segs).Err?
  {
    if Lookup(cloud, segs).Ok? {
      LookupIsValid(cloud, segs);
    }
  }

  lemma InvalidNameFails(cloud: Cloud, at: seq<string>, name: string)
    requires WellFormed(cloud) && !ValidName(name)
    ensures Lookup(cloud, at + [name]).Err?
  {
    AllValidNext(at, name);
    if AllValid(at + [name]) {
    } else {
      InvalidFails(cloud, at + [name]);
    }
  }

  // A known path is the path of the node the plain walk finds there.
  lemma KnownResolves(cloud: Cloud, known: iset<string>, segs: seq<string>)
    requires SoundKnown(cloud, known) && Good(segs) && Render(segs) in known
    ensures Lookup(cloud, segs).Ok? && AllValid(segs)
  {
    var p := Render(segs);
    assert Clean(p);
    RenderInjective(Segments(p), segs);
  }

  lemma ListedPath(cloud: Cloud, at: seq<string>, p: string)
    requires WellFormed(cloud) && p in ChildPaths(cloud, at)
    ensures Clean(p) && Lookup(cloud, Segments(p)).Ok? && |Segments(p)| == |at| + 1 && at <= Segments(p)
  {
    var n :| n in Listing(cloud, LookupDir(cloud, at).value) && n.path == p;
    hide Listing, WellFormed, Clean, Segments;
    LookupChild(cloud, at, n);
    PlacedIsSound(cloud, at + [n.name]);
  }

  lemma ListingKeepsSound(cloud: Cloud, known: iset<string>, at: seq<string>)
    requires WellFormed(cloud) && SoundKnown(cloud, known)
    ensures SoundKnown(cloud, known + ChildPaths(cloud, at))
  {
    forall p | p in ChildPaths(cloud, at) ensures Clean(p) && Lookup(cloud, Segments(p)).Ok? {
      ListedPath(cloud, at, p);
    }
  }

  lemma {:induction false} NamedIsListed(cloud: Cloud, at: seq<string>, name: string)
    requires LookupDir(cloud, at).Ok? && Lookup(cloud, at + [name]).Ok?
    ensures Lookup(cloud, at + [name]).value in Listing(cloud, LookupDir(cloud, at).value)
  {
    assert (at + [name])[..|at|] == at;
    NamedIsThere(Listing(cloud, LookupDir(cloud, at).value), name);
  }

  // Listing a directory makes exactly its children known.
  lemma ChildPathsAre(cloud: Cloud, at: seq<string>, segs: seq<string>)
    requires WellFormed(cloud) && LookupDir(cloud, at).Ok? && Good(segs)
    ensures Render(segs) in ChildPaths(cloud, at) <==> segs != [] && segs[..|segs| - 1] == at && Lookup(cloud, segs).Ok?
  {
    hide WellFormed, Listing, Segments, Render, Lookup, LookupDir, AllValid, GoodSegment;
    if Render(segs) in ChildPaths(cloud, at) {
      ListedPath(cloud, at, Render(segs));
      RenderInjective(Segments(Render(segs)), segs);
      assert segs[..|segs| - 1] == at;
    }
    if segs != [] && segs[..|segs| - 1] == at && Lookup(cloud, segs).Ok? {
      assert at + [segs[|segs| - 1]] == segs;
      NamedIsListed(cloud, at, segs[|segs| - 1]);
      LookupIsPlaced(cloud, segs);
    }
  }

  lemma ListingRepresents(
    cloud: Cloud, now: iset<string>, known: iset<string>, listed: iset<seq<string>>, at: seq<string>)
    requires WellFormed(cloud) && LookupDir(cloud, at).Ok? && Represents(cloud, now, known, listed)
    ensures Represents(cloud, now + ChildPaths(cloud, at), known, listed + iset{at})
  {
    hide WellFormed, ChildPaths, LookupDir, Lookup, Render;
    forall segs | Good(segs)
      ensures Render(segs) in now + ChildPaths(cloud, at) <==> KnownBy(cloud, known, listed + iset{at}, segs)
    {
      ChildPathsAre(cloud, at, segs);
    }
  }

  lemma NothingBelow(cloud: Cloud, segs: seq<string>, below: seq<string>)
    requires segs < below && LookupDir(cloud, segs).Err?
    ensures Lookup(cloud, below).Err?
  {
    assert below[..|segs|] == segs;
    if Lookup(cloud, below).Ok? {
      LookupFront(cloud, below, |segs|);
    }
  }

  lemma ValidKey(at: seq<string>, name: string)
    requires Good(at) && ValidName(name)
    ensures ChildSegments(at, name) == at + [name]
  {
  }

  // ---- Walks ----

  // One step: to the known path the name makes, or to the listed child of that very name.
  lemma SteppedIs(
    cloud: Cloud, now: iset<string>, known: iset<string>, listed: iset<seq<string>>, at: seq<string>, name: string)
    requires WellFormed(cloud) && SoundKnown(cloud, now) && Represents(cloud, now, known, listed)
    requires Good(at) && GoodSegment(name)
    ensures var child := ChildSegments(at, name);
            var here := KnownBy(cloud, known, listed, child);
            var step := Stepped(cloud, now, at, name);
            && step.end == (if Lookup(cloud, child).Ok? && (ValidName(name) || here) then Some(child) else None)
            && step.known == (if here then now else now + ChildPaths(cloud, at))
  {
    var child := ChildSegments(at, name);
    hide WellFormed, ChildPaths, ChildSegments, KnownBy, ValidName, Lookup, Render;
    if Render(child) in now {
      KnownResolves(cloud, now, child);
    } else if ValidName(name) {
      ValidKey(at, name);
    } else {
      InvalidNameFails(cloud, at, name);
    }
  }

  lemma StepRepresents(
    cloud: Cloud, now: iset<string>, known: iset<string>, listed: iset<seq<string>>, at: seq<string>, name: string)
    requires WellFormed(cloud) && SoundKnown(cloud, now) && Represents(cloud, now, known, listed)
    requires Good(at) && GoodSegment(name) && Stepped(cloud, now, at, name).end.Some?
    ensures var step := Stepped(cloud, now, at, name);
            var here := KnownBy(cloud, known, listed, ChildSegments(at, name));
            && SoundKnown(cloud, step.known)
            && Represents(cloud, step.known, known, if here then listed else listed + iset{at})
  {
    SteppedIs(cloud, now, known, listed, at, name);
    if !KnownBy(cloud, known, listed, ChildSegments(at, name)) {
      ValidKey(at, name);
      ParentIsDirectory(cloud, at, name);
      hide *;
      ListingKeepsSound(cloud, now, at);
      ListingRepresents(cloud, now, known, listed, at);
    }
  }

  lemma ParentIsDirectory(cloud: Cloud, at: seq<string>, name: string)
    requires Lookup(cloud, at + [name]).Ok?
    ensures LookupDir(cloud, at).Ok?
  {
    LookupFront(cloud, at + [name], |at|);
    assert (at + [name])[..|at|] == at;
  }

  // A walk ends where its names lead, exactly if it passes, from whatever the caches knew.
  lemma {:induction false} WalkedIs(
    cloud: Cloud, now: iset<string>, known: iset<string>, listed: iset<seq<string>>, at: seq<string>, names: seq<string>)
    requires WellFormed(cloud) && SoundKnown(cloud, now) && Represents(cloud, now, known, listed)
    requires Good(at) && Good(names)
    ensures var trip := Walked(cloud, now, at, names);
            && trip.end == (if Passes(cloud, known, listed, at, names) then Some(Landing(at, names)) else None)
            && (trip.end.Some? ==>
                  SoundKnown(cloud, trip.known)
                  && Represents(cloud, trip.known, known, ListedBy(cloud, known, listed, at, names)))
    decreases |names|
  {
    if names != [] {
      hide WellFormed, SoundKnown, Represents, Stepped, ChildSegments, KnownBy, ValidName, Lookup, GoodSegment, ChildPaths;
      var child := ChildSegments(at, names[0]);
      var step := Stepped(cloud, now, at, names[0]);
      SteppedIs(cloud, now, known, listed, at, names[0]);
      if step.end.Some? && LookupDir(cloud, child).Ok? {
        StepRepresents(cloud, now, known, listed, at, names[0]);
        var next := if KnownBy(cloud, known, listed, child) then listed else listed + iset{at};
        WalkedIs(cloud, step.known, known, next, child, names[1..]);
      }
    }
  }

  lemma {:induction false} PassesAppend(
    cloud: Cloud, known: iset<string>, listed: iset<seq<string>>, at: seq<string>, a: seq<string>, b: seq<string>)
    requires Good(at) && Good(a) && Good(b)
    ensures Good(a + b) && Landing(at, a + b) == Landing(Landing(at, a), b)
    ensures Passes(cloud, known, listed, at, a + b) <==>
              Passes(cloud, known, listed, at, a)
              && Passes(cloud, known, ListedBy(cloud, known, listed, at, a), Landing(at, a), b)
    ensures ListedBy(cloud, known, listed, at, a + b)
         == ListedBy(cloud, known, ListedBy(cloud, known, listed, at, a), Landing(at, a), b)
    decreases |a|
  {
    if a == [] {
      assert a + b == b;
    } else {
      assert (a + b)[0] == a[0] && (a + b)[1..] == a[1..] + b;
      hide ChildSegments, KnownBy, ValidName, LookupDir, GoodSegment;
      var child := ChildSegments(at, a[0]);
      var next := if KnownBy(cloud, known, listed, child) then listed else listed + iset{at};
      PassesAppend(cloud, known, next, child, a[1..], b);
    }
  }

  lemma {:induction false} LandingKnown(
    cloud: Cloud, known: iset<string>, listed: iset<seq<string>>, at: seq<string>, names: seq<string>)
    requires Good(at) && Good(names) && names != [] && Passes(cloud, known, listed, at, names)
    ensures KnownBy(cloud, known, ListedBy(cloud, known, listed, at, names), Landing(at, names))
    decreases |names|
  {
    var child := ChildSegments(at, names[0]);
    var here := KnownBy(cloud, known, listed, child);
    var next := if here then listed else listed + iset{at};
    if names[1..] == [] {
      if !here {
        ValidKey(at, names[0]);
        assert child[..|child| - 1] == at;
      }
    } else {
      hide KnownBy, ChildSegments, ValidName, LookupDir;
      LandingKnown(cloud, known, next, child, names[1..]);
    }
  }

  // Valid names lead to the path they spell, and pass exactly if a directory is there.
  lemma {:induction false} ValidPasses(
    cloud: Cloud, known: iset<string>, listed: iset<seq<string>>, at: seq<string>, names: seq<string>)
    requires WellFormed(cloud) && Good(at) && AllValid(names)
    ensures Good(names) && Landing(at, names) == at + names
    ensures Passes(cloud, known, listed, at, names) <==> names == [] || LookupDir(cloud, at + names).Ok?
    decreases |names|
  {
    if names == [] {
      assert at + names == at;
    } else {
      var child, rest := at + [names[0]], names[1..];
      ValidKey(at, names[0]);
      assert child + rest == at + names;
      var here := KnownBy(cloud, known, listed, child);
      ValidPasses(cloud, known, if here then listed else listed + iset{at}, child, rest);
      hide WellFormed, KnownBy, Lookup;
      if rest == [] {
        assert child == at + names;
      } else if LookupDir(cloud, child).Err? {
        NothingBelow(cloud, child, at + names);
      }
    }
  }

  // ---- The root ----

  // resolveRoot puts the remote root into the cache when that is where it ends.
  ghost function RootKnown(known: iset<string>, rootPath: string): iset<string> {
    if Segments(rootPath) == [] then known + iset{"/"} else known
  }

  ghost predicate RootReaches(cloud: Cloud, known: iset<string>, rootPath: string) {
    Normalize(rootPath) in known || Passes(cloud, known, iset{}, [], Segments(rootPath))
  }

  ghost function RootListed(cloud: Cloud, known: iset<string>, rootPath: string): iset<seq<string>> {
    if Normalize(rootPath) in known then iset{} else ListedBy(cloud, known, iset{}, [], Segments(rootPath))
  }

  // A known path has valid names, which lead to itself.
  lemma KnownIsValid(cloud: Cloud, known: iset<string>, path: string)
    requires SoundKnown(cloud, known) && Normalize(path) in known
    ensures AllValid(Segments(path)) && Lookup(cloud, Segments(path)).Ok?
    ensures Segments(Normalize(path)) == Segments(path)
  {
    hide AllValid, ValidName;
    CleanSegmentsOf(path);
  }

  lemma {:induction false} ValidLanding(at: seq<string>, names: seq<string>)
    requires Good(at) && AllValid(names)
    ensures Good(names) && Landing(at, names) == at + names
    decreases |names|
  {
    if names == [] {
      assert at + names == at;
    } else {
      var child, rest := at + [names[0]], names[1..];
      ValidKey(at, names[0]);
      assert Good(child) && Good(names) && AllValid(rest) && child + rest == at + names;
      hide ChildSegments, ValidName, Good, AllValid;
      ValidLanding(child, rest);
    }
  }

  lemma NothingListed(cloud: Cloud, known: iset<string>)
    ensures Represents(cloud, known, known, iset{})
  {
  }

  lemma OneMoreKnown(
    cloud: Cloud, now: iset<string>, known: iset<string>, listed: iset<seq<string>>, segs: seq<string>)
    requires SoundKnown(cloud, now) && Represents(cloud, now, known, listed)
    requires Good(segs) && AllValid(segs) && Lookup(cloud, segs).Ok?
    ensures SoundKnown(cloud, now + iset{Render(segs)})
    ensures Represents(cloud, now + iset{Render(segs)}, known + iset{Render(segs)}, listed)
    ensures KnownBy(cloud, known, listed, segs) ==> Represents(cloud, now + iset{Render(segs)}, known, listed)
  {
    hide ValidName, Lookup;
    CleanRender(segs);
    forall other | Good(other) && Render(other) == Render(segs) ensures other == segs {
      RenderInjective(other, segs);
    }
  }

  // resolveRoot ends where the root's names lead, if it is known, as a file even, or they pass.
  lemma RootTripIs(cloud: Cloud, known: iset<string>, rootPath: string)
    requires WellFormed(cloud) && SoundKnown(cloud, known)
    ensures var trip := RootTrip(cloud, known, rootPath);
            && trip.end == (if RootReaches(cloud, known, rootPath) then Some(Landing([], Segments(rootPath))) else None)
            && (trip.end.Some? ==>
                  SoundKnown(cloud, trip.known)
                  && Represents(cloud, trip.known, RootKnown(known, rootPath), RootListed(cloud, known, rootPath)))
  {
    var segs := Segments(rootPath);
    hide Walked, WellFormed, SoundKnown, Segments, Lookup, KnownBy, AllValid, Represents;
    NothingListed(cloud, known);
    RootIsThere(cloud);
    RootSegments();
    LookupIsValid(cloud, []);
    OneMoreKnown(cloud, known, known, iset{}, []);
    if Normalize(rootPath) in known {
      KnownIsValid(cloud, known, rootPath);
      ValidLanding([], segs);
      assert [] + segs == segs;
      assert segs == [] ==> known + iset{"/"} == known;
    } else if rootPath == "/" {
    } else {
      WalkedIs(cloud, known, known, iset{}, [], segs);
      var trip := Walked(cloud, known, [], segs);
      if trip.end.Some? {
        var listed := ListedBy(cloud, known, iset{}, [], segs);
        EndIsThere(cloud, known, iset{}, [], segs);
        LookupIsValid(cloud, Landing([], segs));
        OneMoreKnown(cloud, trip.known, known, listed, Landing([], segs));
        if segs != [] {
          LandingKnown(cloud, known, iset{}, [], segs);
        }
      }
    }
  }

  lemma {:induction false} EndIsThere(
    cloud: Cloud, known: iset<string>, listed: iset<seq<string>>, at: seq<string>, names: seq<string>)
    requires Good(at) && Good(names) && Passes(cloud, known, listed, at, names)
    requires names == [] ==> LookupDir(cloud, at).Ok?
    ensures LookupDir(cloud, Landing(at, names)).Ok? && Lookup(cloud, Landing(at, names)).Ok?
    decreases |names|
  {
    if names != [] {
      hide KnownBy, ChildSegments, ValidName, Lookup;
      var child := ChildSegments(at, names[0]);
      var here := KnownBy(cloud, known, listed, child);
      EndIsThere(cloud, known, if here then listed else listed + iset{at}, child, names[1..]);
    }
  }

  // ---- Directories ----

  // The names from the remote root to a normalised path, by way of the provider root: the
  // source counts off as many names of the path as the root has.
  function Route(rootPath: string, p: string): (names: seq<string>)
    ensures Good(names)
  {
    Segments(rootPath) + SegmentsFromRoot(rootPath, p)
  }

  // When resolveDir finds a directory within the root. From a known root the names below it
  // are followed, from an unknown one the names of the root as well; a known root itself
  // is taken as it is.
  ghost predicate DirReaches(cloud: Cloud, known: iset<string>, rootPath: string, path: string) {
    var p, root := Normalize(path), Segments(rootPath);
    var names, start := SegmentsFromRoot(rootPath, p), RootKnown(known, rootPath);
    if Normalize(rootPath) !in known then Passes(cloud, start, iset{}, [], root + names)
    else if names == [] then p == rootPath || Segments(p) != root || LookupDir(cloud, root).Ok?
    else Passes(cloud, start, iset{}, root, names)
  }

  // The directories listed by then. A directory known by the time the root is resolved is
  // not walked to.
  ghost function DirListed(cloud: Cloud, known: iset<string>, rootPath: string, path: string): iset<seq<string>> {
    var p, root := Normalize(path), RootListed(cloud, known, rootPath);
    if p == rootPath || KnownBy(cloud, RootKnown(known, rootPath), root, Segments(p)) then root
    else ListedBy(cloud, RootKnown(known, rootPath), root, Landing([], Segments(rootPath)), SegmentsFromRoot(rootPath, p))
  }

  lemma NamesBelowRoot(rootPath: string, p: string)
    requires Segments(rootPath) <= Segments(p)
    ensures Route(rootPath, p) == Segments(p)
  {
    RootSegments();
    hide Segments, Normalize;
  }

  // The root path and then the names below it, from what is known at the start.
  lemma RootThenNames(cloud: Cloud, known: iset<string>, rootPath: string, names: seq<string>)
    requires WellFormed(cloud) && SoundKnown(cloud, known) && Good(names)
    ensures var root, start := Segments(rootPath), RootKnown(known, rootPath);
            var end, listed := Landing([], root), RootListed(cloud, known, rootPath);
            && Landing([], root + names) == Landing(end, names)
            && (Normalize(rootPath) in known ==> end == root && listed == iset{})
            && (Normalize(rootPath) !in known ==>
                  (Passes(cloud, start, iset{}, [], root + names)
                   <==> RootReaches(cloud, known, rootPath) && Passes(cloud, start, listed, end, names)))
  {
    var root := Segments(rootPath);
    hide Segments, WellFormed, SoundKnown, KnownBy, Normalize;
    PassesAppend(cloud, RootKnown(known, rootPath), iset{}, [], root, names);
    if Normalize(rootPath) in known {
      KnownIsValid(cloud, known, rootPath);
      ValidLanding([], root);
      assert [] + root == root;
    }
  }

  lemma ValidParts(a: seq<string>, b: seq<string>)
    requires AllValid(a + b)
    ensures AllValid(a) && AllValid(b)
  {
    hide ValidName;
    assert forall i :: 0 <= i < |a| ==> a[i] == (a + b)[i];
    assert forall i :: 0 <= i < |b| ==> b[i] == (a + b)[|a| + i];
  }

  // The names of a canonical path within the root, none of which ends in a blank.
  lemma ValidRoute(rootPath: string, path: string)
    requires Allowed(rootPath, Normalize(path)) && AllValid(Segments(Normalize(path)))
    ensures var p := Normalize(path);
            && Route(rootPath, p) == Segments(p) && Landing([], Segments(p)) == Segments(p)
            && AllValid(Segments(rootPath)) && AllValid(SegmentsFromRoot(rootPath, p))
  {
    var p := Normalize(path);
    var segs := Segments(p);
    RootSegments();
    CleanRender(segs);
    assert Normalize(p) == Render(segs);
    hide ValidName, Segments, Normalize;
    NamesBelowRoot(rootPath, p);
    ValidParts(Segments(rootPath), SegmentsFromRoot(rootPath, p));
    ValidLanding([], segs);
    assert [] + segs == segs;
  }

  // A valid path within the root passes exactly if a directory is there; the root itself,
  // once known, in any case.
  lemma ValidDirReaches(cloud: Cloud, known: iset<string>, rootPath: string, path: string)
    requires WellFormed(cloud) && SoundKnown(cloud, known)
    requires Allowed(rootPath, Normalize(path)) && AllValid(Segments(Normalize(path)))
    ensures DirReaches(cloud, known, rootPath, path) <==>
              || LookupDir(cloud, Segments(Normalize(path))).Ok?
              || (Normalize(path) == rootPath && Normalize(rootPath) in known)
  {
    var p := Normalize(path);
    var segs, root, names := Segments(p), Segments(rootPath), SegmentsFromRoot(rootPath, p);
    ValidRoute(rootPath, path);
    assert root + names == segs && [] + segs == segs;
    hide Segments, WellFormed, SoundKnown, KnownBy, Lookup, LookupDir, Normalize, AllValid, SegmentsFromRoot, Passes;
    RootIsThere(cloud);
    ValidPasses(cloud, RootKnown(known, rootPath), iset{}, [], segs);
    ValidPasses(cloud, RootKnown(known, rootPath), iset{}, root, names);
    if names == [] {
      assert segs == root;
    }
  }

  // resolveDir ends where the names lead from the remote root, exactly if it reaches a
  // directory; outside the root it fails.
  lemma DirTripIs(cloud: Cloud, known: iset<string>, rootPath: string, path: string)
    requires WellFormed(cloud) && SoundKnown(cloud, known)
    ensures var trip := DirTrip(cloud, known, rootPath, path);
            if !Allowed(rootPath, Normalize(path)) then trip.end.None?
            else
              && trip.end == (if !DirReaches(cloud, known, rootPath, path) then None
                              else Some(Landing([], Route(rootPath, Normalize(path)))))
              && (trip.end.Some? ==>
                    SoundKnown(cloud, trip.known)
                    && Represents(cloud, trip.known, RootKnown(known, rootPath), DirListed(cloud, known, rootPath, path)))
  {
    if Allowed(rootPath, Normalize(path)) {
      DirTripWithin(cloud, known, rootPath, path);
    } else {
      hide Segments, Normalize;
    }
  }

  lemma DirTripWithin(cloud: Cloud, known: iset<string>, rootPath: string, path: string)
    requires WellFormed(cloud) && SoundKnown(cloud, known) && Allowed(rootPath, Normalize(path))
    ensures var trip := DirTrip(cloud, known, rootPath, path);
            && trip.end == (if !DirReaches(cloud, known, rootPath, path) then None
                            else Some(Landing([], Route(rootPath, Normalize(path)))))
            && (trip.end.Some? ==>
                  SoundKnown(cloud, trip.known)
                  && Represents(cloud, trip.known, RootKnown(known, rootPath), DirListed(cloud, known, rootPath, path)))
  {
    var p := Normalize(path);
    var segs, above, names := Segments(p), Segments(rootPath), SegmentsFromRoot(rootPath, p);
    var root := RootTrip(cloud, known, rootPath);
    RootTripIs(cloud, known, rootPath);
    RootThenNames(cloud, known, rootPath, names);
    OwnNames(rootPath);
    assert Normalize(p) == Render(segs);
    assert segs == above ==> Normalize(p) == Normalize(rootPath);
    hide Walked, RootTrip, WellFormed, SoundKnown, Segments, SegmentsFromRoot, LookupDir, Lookup, KnownBy, Normalize;
    hide AllValid, Represents, Passes, Landing, ListedBy;
    if root.end.Some? && p != rootPath {
      if Normalize(p) in root.known {
        KnownIsValid(cloud, root.known, p);
        ValidRoute(rootPath, path);
        ValidDirReaches(cloud, known, rootPath, path);
        assert KnownBy(cloud, RootKnown(known, rootPath), RootListed(cloud, known, rootPath), segs) by {
          hide Allowed;
          InRepresented(cloud, root.known, RootKnown(known, rootPath), RootListed(cloud, known, rootPath), segs);
        }
      } else {
        InRepresented(cloud, root.known, RootKnown(known, rootPath), RootListed(cloud, known, rootPath), segs);
        WalkedIs(cloud, root.known, RootKnown(known, rootPath), RootListed(cloud, known, rootPath),
                 Landing([], above), names);
        NoNamesPass(cloud, RootKnown(known, rootPath), RootListed(cloud, known, rootPath), Landing([], above));
      }
    }
  }

  lemma OwnNames(rootPath: string)
    ensures SegmentsFromRoot(rootPath, rootPath) == []
  {
    RootSegments();
    hide Segments;
  }

  lemma NoNamesPass(cloud: Cloud, known: iset<string>, listed: iset<seq<string>>, at: seq<string>)
    requires Good(at)
    ensures Passes(cloud, known, listed, at, [])
  {
  }

  lemma InRepresented(cloud: Cloud, now: iset<string>, known: iset<string>, listed: iset<seq<string>>, segs: seq<string>)
    requires Represents(cloud, now, known, listed) && Good(segs)
    ensures Render(segs) in now <==> KnownBy(cloud, known, listed, segs)
  {
  }

  // ---- Nodes ----

  // Where the name of a node leads from where the directory above it leads.
  function NodeLanding(rootPath: string, path: string): (segs: seq<string>)
    requires Segments(path) != []
    ensures Good(segs)
  {
    var last := Segments(path)[|Segments(path)| - 1];
    ChildSegments(Landing([], Route(rootPath, Normalize(ParentPath(path)))), last)
  }

  // When resolveNode finds nothing under the path itself: the directory above is reached
  // within the root, and the name leads to a node; one that ends in a blank, to a known one.
  ghost predicate FoundBelow(cloud: Cloud, known: iset<string>, rootPath: string, path: string)
    requires Segments(path) != []
  {
    var parent, last := ParentPath(path), Segments(path)[|Segments(path)| - 1];
    var child := NodeLanding(rootPath, path);
    && Allowed(rootPath, Normalize(parent))
    && DirReaches(cloud, known, rootPath, parent)
    && Lookup(cloud, child).Ok?
    && (ValidName(last) || KnownBy(cloud, RootKnown(known, rootPath), DirListed(cloud, known, rootPath, parent), child))
  }

  lemma RootIsAllowed(rootPath: string)
    requires Allowed(rootPath, "/")
    ensures Segments(rootPath) == []
  {
    RootSegments();
    hide Segments;
  }

  // resolveNode ends at the path itself if that is known, and else where its names lead.
  lemma NodeTripIs(cloud: Cloud, known: iset<string>, rootPath: string, path: string)
    requires WellFormed(cloud) && SoundKnown(cloud, known)
    ensures var segs, end := Segments(path), NodeTrip(cloud, known, rootPath, path).end;
            if !Allowed(rootPath, Normalize(path)) then end.None?
            else if segs == [] then end == Some([])
            else if Normalize(Normalize(path)) in known then end == Some(Segments(Normalize(path)))
            else end == if FoundBelow(cloud, known, rootPath, path) then Some(NodeLanding(rootPath, path)) else None
  {
    var segs := Segments(path);
    RootPathOnly(path);
    if Allowed(rootPath, Normalize(path)) {
      if segs == [] {
        RootOnly(cloud, known, rootPath);
      } else if Normalize(Normalize(path)) !in known {
        NodeBelow(cloud, known, rootPath, path);
        hide Segments, Normalize, WellFormed, SoundKnown, Stepped, DirTrip, FoundBelow, NodeLanding, ParentPath, Allowed;
      }
    } else {
      hide Segments, Normalize, DirTrip, Stepped, RootTrip;
    }
  }

  lemma RootPathOnly(path: string)
    ensures Normalize(path) == "/" <==> Segments(path) == []
  {
    if Normalize(path) == "/" {
      RenderInjective(Segments(path), []);
    }
    hide Segments;
  }

  lemma RootOnly(cloud: Cloud, known: iset<string>, rootPath: string)
    requires WellFormed(cloud) && SoundKnown(cloud, known) && Allowed(rootPath, "/")
    ensures RootTrip(cloud, known, rootPath).end == Some([])
  {
    RootIsAllowed(rootPath);
    RootTripIs(cloud, known, rootPath);
    hide RootTrip, WellFormed, SoundKnown, Segments, Normalize, Represents;
  }

  lemma NodeBelow(cloud: Cloud, known: iset<string>, rootPath: string, path: string)
    requires WellFormed(cloud) && SoundKnown(cloud, known) && Segments(path) != []
    ensures var parent := DirTrip(cloud, known, rootPath, ParentPath(path));
            var end := if parent.end.None? then None
                       else Stepped(cloud, parent.known, parent.end.value, Segments(path)[|Segments(path)| - 1]).end;
            end == if FoundBelow(cloud, known, rootPath, path) then Some(NodeLanding(rootPath, path)) else None
  {
    var last, above := Segments(path)[|Segments(path)| - 1], ParentPath(path);
    var parent := DirTrip(cloud, known, rootPath, above);
    DirTripIs(cloud, known, rootPath, above);
    hide DirTrip, Stepped, WellFormed, SoundKnown, Segments, Normalize, Lookup, KnownBy, ValidName, ParentPath, Allowed;
    hide Represents, Landing, Route, ChildSegments, DirReaches, DirListed, RootKnown, GoodSegment;
    if parent.end.Some? {
      SteppedIs(cloud, parent.known, RootKnown(known, rootPath), DirListed(cloud, known, rootPath, above),
                parent.end.value, last);
    }
  }

  // ---- Agreement ----

  // The outcome of the plain walk to a path: its segments, if a node is there.
  function Plain(node: Result<Node, ResolveError>, segs: seq<string>): Option<seq<string>> {
    if node.Ok? then Some(segs) else None
  }

  // resolveRoot gives what the plain walk gives, except a file that the caches hold, and a
  // directory to which names that end in a blank lead.
  lemma RootAgreesIff(cloud: Cloud, known: iset<string>, rootPath: string)
    requires WellFormed(cloud) && SoundKnown(cloud, known)
    ensures var segs := Segments(rootPath);
            RootTrip(cloud, known, rootPath).end == Plain(LookupDir(cloud, segs), segs) <==>
              if AllValid(segs) then Normalize(rootPath) !in known || LookupDir(cloud, segs).Ok?
              else !Passes(cloud, known, iset{}, [], segs)
  {
    var segs := Segments(rootPath);
    RootTripIs(cloud, known, rootPath);
    RootIsThere(cloud);
    hide Segments, Normalize, WellFormed, SoundKnown, Lookup, LookupDir, Passes, AllValid, RootTrip, Represents;
    if Normalize(rootPath) in known {
      KnownIsValid(cloud, known, rootPath);
    }
    if AllValid(segs) {
      ValidPasses(cloud, known, iset{}, [], segs);
      assert [] + segs == segs;
    } else {
      InvalidFails(cloud, segs);
    }
  }

  // A canonical path is its own normal form.
  lemma ValidIsCanonical(path: string)
    requires AllValid(Segments(path))
    ensures Segments(Normalize(path)) == Segments(path) && Normalize(Normalize(path)) == Normalize(path)
  {
    CleanRender(Segments(path));
  }

  // resolveDir within the root gives what the plain walk gives, with the same exceptions.
  lemma DirAgreesIff(cloud: Cloud, known: iset<string>, rootPath: string, path: string)
    requires WellFormed(cloud) && SoundKnown(cloud, known)
    ensures var segs, end := Segments(path), DirTrip(cloud, known, rootPath, path).end;
            if !Allowed(rootPath, Normalize(path)) then end.None?
            else end == Plain(LookupDir(cloud, segs), segs) <==>
              if AllValid(segs) then
                Normalize(path) != rootPath || Normalize(rootPath) !in known || LookupDir(cloud, segs).Ok?
              else !DirReaches(cloud, known, rootPath, path)
  {
    var segs := Segments(path);
    DirTripIs(cloud, known, rootPath, path);
    if AllValid(segs) {
      ValidIsCanonical(path);
    }
    hide Segments, Normalize, WellFormed, SoundKnown, Lookup, LookupDir, DirReaches, AllValid, DirTrip, Represents, Allowed;
    hide Route, Landing;
    if AllValid(segs) && Allowed(rootPath, Normalize(path)) {
      ValidDirReaches(cloud, known, rootPath, path);
      ValidRoute(rootPath, path);
    } else if !AllValid(segs) {
      InvalidFails(cloud, segs);
    }
  }

  // The parent of a valid path.
  lemma ValidParent(path: string)
    requires AllValid(Segments(path)) && Segments(path) != []
    ensures var front := Segments(path)[..|Segments(path)| - 1];
            && AllValid(front) && Normalize(ParentPath(path)) == Render(front) && Segments(Render(front)) == front
  {
    var segs := Segments(path);
    var front := segs[..|segs| - 1];
    assert front + [segs[|segs| - 1]] == segs;
    AllValidNext(front, segs[|segs| - 1]);
    hide Segments, ValidName;
    CleanRender(front);
  }

  // The directory above a valid path is within the root exactly if the path is not the root.
  lemma ParentIsAllowed(rootPath: string, path: string)
    requires AllValid(Segments(path)) && Segments(path) != [] && Allowed(rootPath, Normalize(path))
    ensures Allowed(rootPath, Normalize(ParentPath(path))) <==> Segments(path) != Segments(rootPath)
  {
    var segs := Segments(path);
    var front := segs[..|segs| - 1];
    ValidParent(path);
    ValidIsCanonical(path);
    CleanRender(front);
    RootSegments();
    hide Segments, AllValid, Normalize, ParentPath;
    assert front < segs;
    if Segments(rootPath) <= front {
      assert |Segments(rootPath)| < |segs|;
    } else if Segments(rootPath) <= segs {
      assert Segments(rootPath) == segs;
    }
  }

  lemma ValidNodeLanding(rootPath: string, path: string)
    requires AllValid(Segments(path)) && Segments(path) != [] && Allowed(rootPath, Normalize(path))
    requires Segments(path) != Segments(rootPath)
    ensures NodeLanding(rootPath, path) == Segments(path)
  {
    var segs := Segments(path);
    var front, last := segs[..|segs| - 1], segs[|segs| - 1];
    assert ValidName(last) && Good(front) && front + [last] == segs;
    hide Segments, AllValid, Normalize, ParentPath, Allowed, ValidName, Landing, Route, ChildSegments;
    hide Good, GoodSegment, Render;
    ParentIsAllowed(rootPath, path);
    ValidParent(path);
    ValidKey(front, last);
    ValidRoute(rootPath, ParentPath(path));
  }

  lemma FoundBelowValid(cloud: Cloud, known: iset<string>, rootPath: string, path: string)
    requires WellFormed(cloud) && SoundKnown(cloud, known)
    requires AllValid(Segments(path)) && Segments(path) != [] && Allowed(rootPath, Normalize(path))
    requires Segments(path) != Segments(rootPath)
    ensures Lookup(cloud, Segments(path)).Ok? ==> DirReaches(cloud, known, rootPath, ParentPath(path))
  {
    var segs := Segments(path);
    ParentIsAllowed(rootPath, path);
    ValidParent(path);
    hide *;
    ValidDirReaches(cloud, known, rootPath, ParentPath(path));
    if Lookup(cloud, segs).Ok? {
      LookupFront(cloud, segs, |segs| - 1);
    }
  }

  lemma ValidFoundBelow(cloud: Cloud, known: iset<string>, rootPath: string, path: string)
    requires WellFormed(cloud) && SoundKnown(cloud, known)
    requires AllValid(Segments(path)) && Segments(path) != [] && Allowed(rootPath, Normalize(path))
    ensures FoundBelow(cloud, known, rootPath, path) <==>
              Segments(path) != Segments(rootPath) && Lookup(cloud, Segments(path)).Ok?
    ensures Segments(path) != Segments(rootPath) ==> NodeLanding(rootPath, path) == Segments(path)
  {
    ParentIsAllowed(rootPath, path);
    assert ValidName(Segments(path)[|Segments(path)| - 1]);
    hide Segments, Normalize, ParentPath, Allowed, WellFormed, SoundKnown, DirReaches, ValidName, NodeLanding, Lookup;
    hide AllValid, RootKnown, DirListed, KnownBy;
    if Segments(path) != Segments(rootPath) {
      ValidNodeLanding(rootPath, path);
      FoundBelowValid(cloud, known, rootPath, path);
    }
  }

  // resolveNode within the root gives what the plain walk gives, except the root itself
  // below the remote root before the caches know it, and a node to which names that end in
  // a blank lead.
  lemma NodeAgreesIff(cloud: Cloud, known: iset<string>, rootPath: string, path: string)
    requires WellFormed(cloud) && SoundKnown(cloud, known)
    ensures var segs, end := Segments(path), NodeTrip(cloud, known, rootPath, path).end;
            if !Allowed(rootPath, Normalize(path)) then end.None?
            else end == Plain(Lookup(cloud, segs), segs) <==>
              if AllValid(segs) then
                segs == [] || segs != Segments(rootPath) || Normalize(path) in known || Lookup(cloud, segs).Err?
              else Normalize(Normalize(path)) !in known && !FoundBelow(cloud, known, rootPath, path)
  {
    var segs := Segments(path);
    NodeTripIs(cloud, known, rootPath, path);
    RootIsThere(cloud);
    if AllValid(segs) {
      ValidIsCanonical(path);
      if Normalize(path) in known {
        KnownIsValid(cloud, known, path);
      }
    }
    hide Segments, Normalize, WellFormed, SoundKnown, LookupDir, FoundBelow, NodeLanding, NodeTrip, Allowed, AllValid;
    if AllValid(segs) {
      if Allowed(rootPath, Normalize(path)) && segs != [] {
        ValidFoundBelow(cloud, known, rootPath, path);
      }
    } else {
      InvalidFails(cloud, segs);
      NoSegmentsAreValid(segs);
    }
  }

  lemma NoSegmentsAreValid(segs: seq<string>)
    ensures segs == [] ==> AllValid(segs)
  {
  }

  // ---- Within the root ----

  lemma NodeWithinIff(cloud: Cloud, rootPath: string, segs: seq<string>, n: Node)
    requires WellFormed(cloud) && Lookup(cloud, segs) == Ok(n)
    ensures WithinRoot(n.path, rootPath) <==> Segments(rootPath) <= segs
  {
    LookupIsPlaced(cloud, segs);
    CleanRender(segs);
    WithinRootIsSegmentPrefix(n.path, rootPath);
    hide WithinRoot, Segments, ValidName, Lookup;
  }

  // The directory resolveDir gives lies within the provider root if and only if the names
  // it followed lead there: the check at its start is on the path as it is spelled.
  lemma DirLandsWithinIff(cloud: Cloud, known: iset<string>, rootPath: string, path: string, n: Node)
    requires WellFormed(cloud) && SoundKnown(cloud, known)
    requires Reached(cloud, Ok(n), DirTrip(cloud, known, rootPath, path))
    ensures WithinRoot(n.path, rootPath) <==> Segments(rootPath) <= Landing([], Route(rootPath, Normalize(path)))
  {
    DirTripIs(cloud, known, rootPath, path);
    hide DirTrip, WithinRoot, Segments, Normalize, Lookup, WellFormed, SoundKnown, Landing, Route, DirReaches, Represents;
    NodeWithinIff(cloud, rootPath, Landing([], Route(rootPath, Normalize(path))), n);
  }

  // The same for resolveNode, and a path known as it is spelled is within the root.
  lemma NodeLandsWithinIff(cloud: Cloud, known: iset<string>, rootPath: string, path: string, n: Node)
    requires WellFormed(cloud) && SoundKnown(cloud, known)
    requires Reached(cloud, Ok(n), NodeTrip(cloud, known, rootPath, path))
    ensures WithinRoot(n.path, rootPath) <==>
              || Segments(path) == [] || Normalize(Normalize(path)) in known
              || Segments(rootPath) <= NodeLanding(rootPath, path)
  {
    NodeTripIs(cloud, known, rootPath, path);
    RootSegments();
    RootPathOnly(path);
    if Normalize(Normalize(path)) in known {
      KnownIsValid(cloud, known, Normalize(path));
    }
    hide NodeTrip, WithinRoot, Segments, Normalize, Lookup, WellFormed, SoundKnown, NodeLanding, FoundBelow;
    if Segments(path) == [] {
      NodeWithinIff(cloud, rootPath, [], n);
    } else if Normalize(Normalize(path)) in known {
      NodeWithinIff(cloud, rootPath, Segments(Normalize(path)), n);
    } else {
      NodeWithinIff(cloud, rootPath, NodeLanding(rootPath, path), n);
    }
  }

  // Only a name of two dots before blanks leads up.
  lemma {:induction false} OnlyDotsLeadUp(at: seq<string>, names: seq<string>)
    requires Good(at) && Good(names) && forall i :: 0 <= i < |names| ==> TrimRight(names[i]) != ".."
    ensures at <= Landing(at, names)
    decreases |names|
  {
    if names != [] {
      hide TrimRight, GoodSegment;
      OnlyDotsLeadUp(ChildSegments(at, names[0]), names[1..]);
    }
  }

  // With a root none of whose names ends in a blank, a path leaves it only by such a name.
  lemma OnlyDotsLeaveRoot(rootPath: string, path: string)
    requires AllValid(Segments(rootPath))
    requires var names := SegmentsFromRoot(rootPath, Normalize(path));
             forall i :: 0 <= i < |names| ==> TrimRight(names[i]) != ".."
    ensures Segments(rootPath) <= Landing([], Route(rootPath, Normalize(path)))
  {
    var root, names := Segments(rootPath), SegmentsFromRoot(rootPath, Normalize(path));
    hide Segments, SegmentsFromRoot, AllValid, TrimRight, Normalize;
    ValidLanding([], root);
    assert [] + root == root;
    PassesAppend(map[], iset{}, iset{}, [], root, names);
    OnlyDotsLeadUp(root, names);
  }

  // ---- Names that stay names without their blanks ----

  function Trimmed(names: seq<string>): (trimmed: seq<string>)
    ensures |trimmed| == |names|
  {
    seq(|names|, i requires 0 <= i < |names| => TrimRight(names[i]))
  }

  // Every name is still a name without the blanks at its end.
  ghost predicate Ordinary(names: seq<string>) {
    forall i :: 0 <= i < |names| ==> GoodSegment(TrimRight(names[i]))
  }

  // For each name with a blank at its end, the trimmed path down to it is known.
  ghost predicate BlanksKnown(known: iset<string>, at: seq<string>, names: seq<string>)
    decreases |names|
  {
    names == []
    || (var child := at + [TrimRight(names[0])];
        (ValidName(names[0]) || Render(child) in known) && BlanksKnown(known, child, names[1..]))
  }

  ghost predicate Shallower(listed: iset<seq<string>>, depth: nat) {
    forall segs :: segs in listed ==> |segs| < depth
  }

  lemma TrimmedNext(at: seq<string>, names: seq<string>)
    requires Good(at) && names != [] && Ordinary(names) && Good(names)
    ensures var child := at + [TrimRight(names[0])];
            && ChildSegments(at, names[0]) == child && Good(child)
            && child + Trimmed(names[1..]) == at + Trimmed(names) && Ordinary(names[1..])
            && (names[1..] == [] ==> child == at + Trimmed(names)) && (names[1..] != [] ==> child < at + Trimmed(names))
  {
    assert GoodSegment(TrimRight(names[0]));
    assert Trimmed(names) == [TrimRight(names[0])] + Trimmed(names[1..]);
    hide TrimRight;
  }

  // Such names lead to the trimmed path, and pass exactly if a directory is there and each
  // name with a blank at its end was known at the start under its trimmed path.
  lemma {:induction false} OrdinaryPassesIff(
    cloud: Cloud, known: iset<string>, listed: iset<seq<string>>, at: seq<string>, names: seq<string>)
    requires Good(at) && Good(names) && Ordinary(names) && Shallower(listed, |at|)
    ensures Landing(at, names) == at + Trimmed(names)
    ensures Passes(cloud, known, listed, at, names) <==>
              names == [] || (LookupDir(cloud, at + Trimmed(names)).Ok? && BlanksKnown(known, at, names))
    decreases |names|
  {
    if names == [] {
      assert at + Trimmed(names) == at;
    } else {
      var child, rest := at + [TrimRight(names[0])], names[1..];
      TrimmedNext(at, names);
      assert child[..|child| - 1] == at;
      var next := if KnownBy(cloud, known, listed, child) then listed else listed + iset{at};
      assert Shallower(next, |child|);
      hide TrimRight, ChildSegments, ValidName, Trimmed, Ordinary, Lookup, GoodSegment;
      OrdinaryPassesIff(cloud, known, next, child, rest);
      if rest != [] && LookupDir(cloud, child).Err? {
        NothingBelow(cloud, child, at + Trimmed(names));
      }
    }
  }
}
