/** Library mounts: choosing the mount for a path, and translating between a mount's
  * target side and its source side. */
module Mounts {
  import opened Wrappers
  import opened Strings
  import opened Paths

  datatype Mount = Mount(id: string, providerId: string, sourcePath: string, targetPath: string)

  datatype PathError = InvalidCharacter | InvalidSegment | OutsideMount | InvalidTarget

  // A path whose normal form survives a second normalisation.
  predicate Stable(path: string) {
    !EndsWithSpace(Normalize(path))
  }

  // ---- Choosing a mount ----

  // The test both mount searches apply; the root is normalised twice, as in the source.
  predicate Covers(root: string, path: string) {
    WithinRoot(path, Normalize(root))
  }

  // The first of the covering roots with the longest spelling.
  ghost predicate FirstLongest(roots: seq<string>, path: string, index: nat) {
    && index < |roots|
    && Covers(roots[index], path)
    && forall j :: 0 <= j < |roots| && Covers(roots[j], path) ==>
         |Normalize(roots[j])| <= |Normalize(roots[index])|
         && (j < index ==> |Normalize(roots[j])| < |Normalize(roots[index])|)
  }

  // No covering root is deeper than roots[index], and none before it is spelled as it is.
  ghost predicate Deepest(roots: seq<string>, path: string, index: nat) {
    && index < |roots|
    && forall j :: 0 <= j < |roots| && Covers(roots[j], path) ==>
         Segments(Normalize(roots[j])) <= Segments(Normalize(roots[index]))
         && (j < index ==> Normalize(roots[j]) != Normalize(roots[index]))
  }

  // The longest-root search of findMountForSourcePath and findMountForTargetPath.
  method LongestCoveringRoot(roots: seq<string>, path: string) returns (selected: int)
    ensures -1 <= selected < |roots|
    ensures selected >= 0 <==> exists j :: 0 <= j < |roots| && Covers(roots[j], path)
    ensures selected >= 0 ==> FirstLongest(roots, path, selected)
    ensures selected >= 0 && Stable(roots[selected]) ==> Deepest(roots, path, selected)
  {
    hide WithinRoot, Render, Segments;
    selected := -1;
    var selectedLen := -1;
    for i := 0 to |roots|
      invariant -1 <= selected < i
      invariant selected < 0 ==> selectedLen == -1 && forall j :: 0 <= j < i ==> !Covers(roots[j], path)
      invariant selected >= 0 ==> Covers(roots[selected], path) && selectedLen == |Normalize(roots[selected])|
      invariant forall j :: 0 <= j < i && Covers(roots[j], path) ==>
                  selected >= 0 && |Normalize(roots[j])| <= selectedLen
                  && (j < selected ==> |Normalize(roots[j])| < selectedLen)
    {
      var root := Normalize(roots[i]);
      if !WithinRoot(path, root) {
        continue;
      }
      if |root| > selectedLen {
        selected := i;
        selectedLen := |root|;
      }
    }
    if selected >= 0 && Stable(roots[selected]) {
      LongestIsDeepest(roots, path, selected);
    }
  }

  // The longest spelling is the deepest root, whatever the others are, if it does not end
  // in a blank.
  lemma LongestIsDeepest(roots: seq<string>, path: string, index: nat)
    requires FirstLongest(roots, path, index) && Stable(roots[index])
    ensures Deepest(roots, path, index)
  {
    hide WithinRoot, Segments, Normalize, Stable;
    forall j | 0 <= j < |roots| && Covers(roots[j], path)
      ensures Segments(Normalize(roots[j])) <= Segments(Normalize(roots[index]))
    {
      ShorterCoverIsAncestor(roots[j], roots[index], path);
    }
  }

  // Two covering roots lie on one chain, so the shorter spelling is the ancestor, if the
  // longer one does not end in a blank.
  lemma ShorterCoverIsAncestor(a: string, b: string, path: string)
    requires Stable(b) && Covers(a, path) && Covers(b, path)
    requires |Normalize(a)| <= |Normalize(b)|
    ensures Segments(Normalize(a)) <= Segments(Normalize(b))
  {
    WithinRootIsSegmentPrefix(path, Normalize(a));
    WithinRootIsSegmentPrefix(path, Normalize(b));
    NormalizeIdempotentIff(b);
    NormalizeShrinks(Normalize(a));
    var sa, sb, sp := Segments(Normalize(a)), Segments(Normalize(b)), Segments(path);
    assert sa == sp[..|sa|] && sb == sp[..|sb|];
    assert Render(sb) == Normalize(b) && |Render(sa)| <= |Normalize(a)|;
    hide Segments, WithinRoot, Render;
    if |sb| < |sa| {
      assert sb <= sa;
      DeeperIsLonger(sb, sa);
    }
  }

  lemma LongerBefore(a: string, b: string, path: string)
    requires Covers(a, path) && Covers(b, path) && |Normalize(b)| < |Normalize(a)|
    requires !(Segments(Normalize(b)) <= Segments(Normalize(a)))
    ensures FirstLongest([a, b], path, 0) && !Deepest([a, b], path, 0)
  {
    hide Covers, Normalize, Segments;
    assert [a, b][1] == b && [a, b][0] == a;
  }

  // A root that ends in blanks is chosen for its length over a deeper one.
  lemma BlankRootChosen()
    ensures Covers("/a    /", "/a/b/c") && Covers("/a/b", "/a/b/c")
    ensures FirstLongest(["/a    /", "/a/b"], "/a/b/c", 0) && !Deepest(["/a    /", "/a/b"], "/a/b/c", 0)
  {
    assert |"/a    "| == 6 && |"/a/b"| == 4 && |["a"]| < |["a", "b"]|;
    hide *;
    BlankRootPaths();
    BlankRootCovers();
    LongerBefore("/a    /", "/a/b", "/a/b/c");
  }

  lemma BlankRootCovers()
    ensures Covers("/a    /", "/a/b/c") && Covers("/a/b", "/a/b/c")
  {
    hide WithinRoot, Segments, Normalize;
    BlankRootPaths();
    WithinRootIsSegmentPrefix("/a/b/c", "/a    ");
    WithinRootIsSegmentPrefix("/a/b/c", "/a/b");
    assert ["a"] <= ["a", "b", "c"] && ["a", "b"] <= ["a", "b", "c"];
  }

  lemma BlankRootPaths()
    ensures Normalize("/a    /") == "/a    " && Normalize("/a/b") == "/a/b"
    ensures Segments("/a    ") == ["a"] && Segments("/a/b") == ["a", "b"] && Segments("/a/b/c") == ["a", "b", "c"]
  {
    hide CleanRooted, Render, TrimSpace;
    CleanSingle("a    ", "/");
    CleanSingle("a", "");
    RenderSingle("a    ");
    BlanksTrimmed();
    DeepPaths();
    SegmentsOfRender(["a", "b"]);
    SegmentsOfRender(["a", "b", "c"]);
  }

  lemma DeepPaths()
    ensures Render(["a", "b"]) == "/a/b" && Render(["a", "b", "c"]) == "/a/b/c"
  {
    RenderSingle("a");
    RenderChild(["a"], "b");
    RenderChild(["a", "b"], "c");
    assert ["a"] + ["b"] == ["a", "b"] && ["a", "b"] + ["c"] == ["a", "b", "c"];
    hide Render;
  }

  lemma BlanksTrimmed()
    ensures TrimSpace("/a    /") == "/" + ("a    " + "/") && TrimSpace("/a    ") == "/" + ("a" + "")
  {
    TrimRightAppend("/a", "    ");
    OnlySpaces("    ");
    assert "/a" + "    " == "/a    ";
  }

  lemma {:induction false} OnlySpaces(s: string)
    requires forall i :: 0 <= i < |s| ==> IsSpace(s[i])
    ensures TrimRight(s) == ""
  {
    if s != "" {
      OnlySpaces(s[..|s| - 1]);
    }
  }

  // findMountForSourcePath.
  method FindMountForSourcePath(mounts: seq<Mount>, sourcePath: string) returns (mount: Option<Mount>)
    ensures mount.Some? <==> exists m :: m in mounts && Covers(m.sourcePath, sourcePath)
    ensures mount.Some? ==> mount.value in mounts && Covers(mount.value.sourcePath, sourcePath)
    ensures mount.Some? ==> forall m :: m in mounts && Covers(m.sourcePath, sourcePath) ==>
              |Normalize(m.sourcePath)| <= |Normalize(mount.value.sourcePath)|
    ensures mount.Some? && Stable(mount.value.sourcePath) ==>
              forall m :: m in mounts && Covers(m.sourcePath, sourcePath) ==>
                Segments(Normalize(m.sourcePath)) <= Segments(Normalize(mount.value.sourcePath))
  {
    hide WithinRoot, Segments, Normalize;
    var roots := seq(|mounts|, i requires 0 <= i < |mounts| => mounts[i].sourcePath);
    var selected := LongestCoveringRoot(roots, sourcePath);
    assert forall i :: 0 <= i < |mounts| ==> roots[i] == mounts[i].sourcePath && mounts[i] in mounts;
    mount := if selected < 0 then None else Some(mounts[selected]);
  }

  // findMountForTargetPath.
  method FindMountForTargetPath(mounts: seq<Mount>, targetPath: string) returns (mount: Option<Mount>)
    ensures mount.Some? <==> exists m :: m in mounts && Covers(m.targetPath, Normalize(targetPath))
    ensures mount.Some? ==> mount.value in mounts && Covers(mount.value.targetPath, Normalize(targetPath))
    ensures mount.Some? ==> forall m :: m in mounts && Covers(m.targetPath, Normalize(targetPath)) ==>
              |Normalize(m.targetPath)| <= |Normalize(mount.value.targetPath)|
    ensures mount.Some? && Stable(mount.value.targetPath) ==>
              forall m :: m in mounts && Covers(m.targetPath, Normalize(targetPath)) ==>
                Segments(Normalize(m.targetPath)) <= Segments(Normalize(mount.value.targetPath))
  {
    hide WithinRoot, Segments, Normalize;
    var roots := seq(|mounts|, i requires 0 <= i < |mounts| => mounts[i].targetPath);
    var selected := LongestCoveringRoot(roots, Normalize(targetPath));
    assert forall i :: 0 <= i < |mounts| ==> roots[i] == mounts[i].targetPath && mounts[i] in mounts;
    mount := if selected < 0 then None else Some(mounts[selected]);
  }

  // ---- Translating paths ----

  // path.Join of a rooted path and a non-empty relative one.
  function PathJoin(base: string, rel: string): string {
    Render(CleanRooted(base + "/" + rel))
  }

  // sourcePathForMountTargetPath.
  function SourcePathForMountTargetPath(mount: Mount, targetPath: string): string {
    var normalizedTargetPath := Normalize(targetPath);
    var selectedTargetPath := Normalize(mount.targetPath);
    var relToMount :=
      if selectedTargetPath == "/" then TrimPrefix(normalizedTargetPath, "/")
      else TrimPrefix(TrimPrefix(normalizedTargetPath, selectedTargetPath), "/");
    if relToMount == "" then Normalize(mount.sourcePath)
    else Normalize(PathJoin(Normalize(mount.sourcePath), relToMount))
  }

  // validProviderOutputName, on a system whose separator is the slash.
  predicate ValidOutputName(name: string) {
    GoodSegment(name) && '\0' !in name && '\\' !in name
  }

  // A path all of whose names output names may hold.
  predicate AcceptedCharacters(path: string) {
    '\0' !in path && '\\' !in path
  }

  // The part of a normalised path below a normalised root, checked name by name.
  function CheckedBelow(normalizedPath: string, normalizedRoot: string): Result<seq<string>, PathError> {
    if !WithinRoot(normalizedPath, normalizedRoot) then Err(OutsideMount)
    else
      var relative := TrimPrefix(TrimPrefix(normalizedPath, normalizedRoot), "/");
      if relative == "" then Ok([])
      else
        var names := Split(relative, '/');
        if exists i :: 0 <= i < |names| && !ValidOutputName(names[i]) then Err(InvalidSegment) else Ok(names)
  }

  predicate HasDotSegment(rawPath: string) {
    var parts := Split(rawPath, '/');
    exists i :: 0 <= i < |parts| && (parts[i] == "." || parts[i] == "..")
  }

  // A path with an element of one dot or two is refused, wherever that is.
  lemma DotsAreRefused(x: string, dot: string, y: string, mountSource: string)
    requires dot == "." || dot == ".."
    requires TrimSpace(dot + "/" + y) == dot + "/" + y && TrimSpace(x + "/" + dot + "/" + y) == x + "/" + dot + "/" + y
    ensures OutputRelativePath(dot + "/" + y, mountSource).Err?
    ensures OutputRelativePath(x + "/" + dot + "/" + y, mountSource).Err?
  {
    SplitFree(dot, '/');
    SplitConcat(dot, y, '/');
    SplitConcat(x, dot + "/" + y, '/');
    assert x + "/" + dot + "/" + y == x + "/" + (dot + "/" + y);
    var rest, all := [dot] + Split(y, '/'), Split(x, '/') + ([dot] + Split(y, '/'));
    assert rest[0] == dot && all[|Split(x, '/')|] == dot;
    hide Split, TrimSpace, CheckedBelow, Normalize;
    assert HasDotSegment(dot + "/" + y) && HasDotSegment(x + "/" + dot + "/" + y);
  }

  // providerOutputRelativePath, as segments.
  function OutputRelativePath(providerPath: string, mountSourcePath: string): Result<seq<string>, PathError> {
    var rawPath := TrimSpace(providerPath);
    if '\0' in rawPath || '\\' in rawPath then Err(InvalidCharacter)
    else if HasDotSegment(rawPath) then Err(InvalidSegment)
    else CheckedBelow(Normalize(rawPath), Normalize(mountSourcePath))
  }

  // The '\\' to '/' replacement of normalizeMountTargetPath.
  function SlashesOnly(s: string): (r: string)
    ensures |r| == |s| && forall i :: 0 <= i < |s| ==> r[i] == if s[i] == '\\' then '/' else s[i]
    ensures '\\' !in s ==> r == s
  {
    if s == "" then "" else [if s[0] == '\\' then '/' else s[0]] + SlashesOnly(s[1..])
  }

  // normalizeMountTargetPath: the directory under the output root, as segments.
  function MountOutputRoot(mount: Mount): Result<seq<string>, PathError> {
    var value := TrimSpace(mount.targetPath);
    if value == "" || '\0' in value then Err(InvalidTarget)
    else
      var slashed := SlashesOnly(value);
      var parts := Split(slashed, '/');
      if exists i :: 0 <= i < |parts| &&
           (TrimSpace(parts[i]) == ".." || (parts[i] != "" && parts[i] != "." && !ValidOutputName(parts[i])))
      then Err(InvalidTarget)
      else
        var segs := CleanRooted(slashed);
        if segs != [] && |segs[0]| >= 2 && segs[0][1] == ':' then Err(InvalidTarget)
        else Ok(segs)
  }

  // mountTargetDirForProviderDir, as segments under the output root.
  function MountTargetDir(mount: Mount, providerDir: string): Result<seq<string>, PathError> {
    var relToMount := OutputRelativePath(providerDir, mount.sourcePath);
    if relToMount.Err? then relToMount
    else
      var targetRoot := MountOutputRoot(mount);
      if targetRoot.Err? then targetRoot else Ok(targetRoot.value + relToMount.value)
  }

  // ---- The round trip ----

  // Cutting the rendered root off a rendered path leaves the segments below it.
  lemma TrimRenderedRoot(root: seq<string>, rel: seq<string>)
    requires Good(root) && Good(rel)
    ensures TrimPrefix(TrimPrefix(Render(root + rel), Render(root)), "/")
         == if rel == [] then "" else Below(rel)[1..]
  {
    BelowAppend(root, rel);
    if rel == [] {
      assert root + rel == root;
      assert Render(root)[|Render(root)|..] == "";
    } else {
      assert Good(root + rel);
      var p := Render(root + rel);
      assert p == Below(root) + Below(rel);
      assert Below(rel)[..1] == "/";
      assert GoodSegment(rel[0]) && Below(rel)[1] == rel[0][0];
      if root == [] {
        assert p[..1] == "/" && p[1..] == Below(rel)[1..];
        assert Below(rel)[1..][..1] != "/" by { assert Below(rel)[1..][0] == rel[0][0]; }
      } else {
        assert p[..|Below(root)|] == Below(root);
        assert p[|Below(root)|..] == Below(rel);
      }
    }
  }

  lemma Regroup(x: string, y: string, z: string)
    ensures x + y + z == x + (y + z)
  {
  }

  lemma JoinedText(base: seq<string>, rel: seq<string>)
    requires rel != []
    ensures Render(base) + "/" + Below(rel)[1..] == if base == [] then "/" + Render(rel) else Render(base + rel)
  {
    BelowAppend(base, rel);
    var tail := Below(rel)[1..];
    assert Below(rel) == "/" + tail;
    Regroup(Render(base), "/", tail);
    hide Below;
  }

  lemma JoinRendered(base: seq<string>, rel: seq<string>)
    requires Good(base) && Good(rel) && rel != []
    ensures PathJoin(Render(base), Below(rel)[1..]) == Render(base + rel)
  {
    JoinedText(base, rel);
    CleanRendered(base + rel);
    if base == [] {
      assert base + rel == rel;
      CleanExtraSlash(Render(rel));
    }
    hide CleanRooted, Below, Render;
  }

  lemma {:induction false} LastCharacter(segs: seq<string>)
    requires Good(segs) && segs != []
    ensures Below(segs) != "" && Below(segs)[|Below(segs)| - 1] == segs[|segs| - 1][|segs[|segs| - 1]| - 1]
  {
    assert GoodSegment(segs[0]);
    if |segs| > 1 {
      LastCharacter(segs[1..]);
      assert segs[1..][|segs| - 2] == segs[|segs| - 1];
    } else {
      assert Below(segs) == "/" + segs[0];
    }
  }

  // The segments of the target path below the mount's target.
  function RelSegments(mount: Mount, target: string): (rel: seq<string>)
    requires WithinRoot(target, mount.targetPath)
    ensures Segments(mount.targetPath) + rel == Segments(target)
    ensures Good(rel)
  {
    WithinRootIsSegmentPrefix(target, mount.targetPath);
    Segments(target)[|Segments(mount.targetPath)|..]
  }

  // What is left of the normalised target once the mount's target is cut off.
  lemma TrimmedTarget(root: seq<string>, rel: seq<string>)
    requires Good(root) && Good(rel)
    ensures (if Render(root) == "/" then TrimPrefix(Render(root + rel), "/")
             else TrimPrefix(TrimPrefix(Render(root + rel), Render(root)), "/"))
         == if rel == [] then "" else Below(rel)[1..]
  {
    TrimRenderedRoot(root, rel);
    if Render(root) == "/" {
      RenderInjective(root, []);
      assert root + rel == rel;
      if rel != [] {
        assert Below(rel)[..1] == "/";
      }
    }
  }

  // The translated path, before its last normalisation.
  lemma TranslatedPath(mount: Mount, target: string)
    requires WithinRoot(target, mount.targetPath)
    ensures var base, rel := Segments(mount.sourcePath), RelSegments(mount, target);
            && Good(base + rel)
            && SourcePathForMountTargetPath(mount, target)
                 == if rel == [] then Render(base) else Normalize(Render(base + rel))
  {
    WithinRootIsSegmentPrefix(target, mount.targetPath);
    var base, root, rel := Segments(mount.sourcePath), Segments(mount.targetPath), RelSegments(mount, target);
    assert root + rel == Segments(target);
    TrimmedTarget(root, rel);
    hide WithinRoot, Segments, TrimPrefix, PathJoin, Render, Below;
    if rel != [] {
      JoinRendered(base, rel);
      SplitRelative(rel);
    }
  }

  // The translated path ends in a blank before its last normalisation: the mount's source
  // does, or the target path below the mount's target.
  predicate EndsInBlank(mount: Mount, target: string)
    requires WithinRoot(target, mount.targetPath)
  {
    EndsWithSpace(if RelSegments(mount, target) == [] then Normalize(mount.sourcePath) else Normalize(target))
  }

  lemma EndingOf(base: seq<string>, rel: seq<string>)
    requires Good(base) && Good(rel) && rel != []
    ensures EndsWithSpace(Render(base + rel)) <==> EndsWithSpace(rel[|rel| - 1])
  {
    LastCharacter(base + rel);
    assert GoodSegment(rel[|rel| - 1]);
    hide Below;
  }

  lemma EndsInBlankIs(mount: Mount, target: string)
    requires WithinRoot(target, mount.targetPath)
    ensures EndsInBlank(mount, target) <==> EndsWithSpace(Render(Segments(mount.sourcePath) + RelSegments(mount, target)))
  {
    WithinRootIsSegmentPrefix(target, mount.targetPath);
    var base, root, rel := Segments(mount.sourcePath), Segments(mount.targetPath), RelSegments(mount, target);
    assert root + rel == Segments(target);
    if rel == [] {
      assert base + rel == base;
    } else {
      EndingOf(base, rel);
      EndingOf(root, rel);
    }
    hide WithinRoot, Segments, EndsWithSpace;
  }

  // Normalising a rendered path that ends in a blank makes it shorter for good.
  lemma BlankIsLost(segs: seq<string>)
    requires Good(segs) && EndsWithSpace(Render(segs))
    ensures Segments(Render(segs)) != segs && Segments(Normalize(Render(segs))) != segs
  {
    NormalizeShrinks(Render(segs));
    NormalizeShrinks(Normalize(Render(segs)));
    hide Segments;
  }

  // A path within the mount's target is translated to the path with the same segments
  // below the mount's source, if and only if no blank is lost on the way.
  lemma TranslationLandsIff(mount: Mount, target: string)
    requires WithinRoot(target, mount.targetPath)
    ensures var source := SourcePathForMountTargetPath(mount, target);
            var whole := Segments(mount.sourcePath) + RelSegments(mount, target);
            && (Segments(source) == whole <==> !EndsInBlank(mount, target))
            && (!EndsInBlank(mount, target) ==> source == Render(whole) && WithinRoot(source, mount.sourcePath))
  {
    var base, rel := Segments(mount.sourcePath), RelSegments(mount, target);
    var source := SourcePathForMountTargetPath(mount, target);
    TranslatedPath(mount, target);
    EndsInBlankIs(mount, target);
    WithinRootIsSegmentPrefix(source, mount.sourcePath);
    hide WithinRoot, Segments, SourcePathForMountTargetPath, EndsInBlank, EndsWithSpace, RelSegments, Normalize, Render;
    if rel == [] {
      assert base + rel == base;
    }
    if EndsInBlank(mount, target) {
      BlankIsLost(base + rel);
    } else {
      NormalizeRender(base + rel);
    }
  }

  // A mount target without backslashes is read the same way on both sides.
  lemma MountOutputRootIsTarget(mount: Mount)
    requires '\\' !in mount.targetPath && MountOutputRoot(mount).Ok?
    ensures MountOutputRoot(mount).value == Segments(mount.targetPath)
  {
    TrimKeepsFree(mount.targetPath, '\\');
  }

  lemma {:induction false} TrimKeepsFree(s: string, c: char)
    requires c !in s
    ensures c !in TrimSpace(s)
    decreases |s|
  {
    if s != "" && IsSpace(s[0]) {
      TrimKeepsFree(s[1..], c);
    } else {
      assert TrimSpace(s) <= s;
    }
  }

  lemma {:induction false} FreeBelow(segs: seq<string>, c: char)
    requires c != '/'
    ensures c !in Below(segs) <==> forall i :: 0 <= i < |segs| ==> c !in segs[i]
  {
    if segs != [] {
      FreeBelow(segs[1..], c);
      assert c in Below(segs) <==> c in segs[0] || c in Below(segs[1..]);
      assert forall i :: 1 <= i < |segs| ==> segs[i] == segs[1..][i - 1];
    }
  }

  lemma SplitRelative(rel: seq<string>)
    requires Good(rel) && rel != []
    ensures Below(rel)[1..] != "" && Split(Below(rel)[1..], '/') == rel
  {
    assert Below(rel) == "/" + Below(rel)[1..];
    SplitBelow(rel);
    SplitLeadingSlash(Below(rel)[1..]);
    assert GoodSegment(rel[0]);
    hide Split, Below;
    assert Split(Below(rel)[1..], '/') == ([""] + Split(Below(rel)[1..], '/'))[1..] == ([""] + rel)[1..] == rel;
  }

  lemma ValidBelow(base: seq<string>, rel: seq<string>)
    requires Good(base) && Good(rel)
    requires '\0' !in Render(base + rel) && '\\' !in Render(base + rel)
    ensures forall i :: 0 <= i < |rel| ==> ValidOutputName(rel[i])
  {
    FreeBelow(base + rel, '\0');
    FreeBelow(base + rel, '\\');
    assert forall i :: 0 <= i < |rel| ==> rel[i] == (base + rel)[|base| + i];
  }

  lemma NoDotSegments(segs: seq<string>)
    requires Good(segs)
    ensures !HasDotSegment(Render(segs))
  {
    if segs == [] {
      SplitLeadingSlash("");
      assert "/" == "/" + "";
    } else {
      SplitBelow(segs);
      hide Split;
      assert forall i :: 0 <= i < |segs| ==> ([""] + segs)[i + 1] == segs[i];
    }
  }

  lemma NormalizeRender(segs: seq<string>)
    requires Good(segs) && !EndsWithSpace(Render(segs))
    ensures TrimSpace(Render(segs)) == Render(segs) && Normalize(Render(segs)) == Render(segs)
    ensures Segments(Render(segs)) == segs
  {
    SegmentsOfRender(segs);
  }

  // Rendered and read again a path has no more segments, and its last name at most is read
  // otherwise.
  lemma RenderedAgain(segs: seq<string>)
    requires Good(segs) && segs != []
    ensures var front, name := segs[..|segs| - 1], segs[|segs| - 1];
            && Good(front) && GoodSegment(name) && front + [name] == segs
            && Segments(Render(segs)) == ChildSegments(front, name)
            && |Segments(Render(segs))| <= |segs|
  {
    ChildPathIs(segs[..|segs| - 1], segs[|segs| - 1]);
    assert segs[..|segs| - 1] + [segs[|segs| - 1]] == segs;
    hide Segments, Render;
  }

  lemma NoLonger(segs: seq<string>)
    requires Good(segs)
    ensures |Segments(Render(segs))| <= |segs|
  {
    if segs == [] {
      RootIsRendered();
    } else {
      RenderedAgain(segs);
    }
  }

  lemma CheckedBelowRendered(base: seq<string>, rel: seq<string>)
    requires Good(base) && Good(rel) && !EndsWithSpace(Render(base + rel))
    requires '\0' !in Render(base + rel) && '\\' !in Render(base + rel)
    ensures CheckedBelow(Render(base + rel), Render(base))
              == if Segments(Render(base)) <= base then Ok(rel) else Err(OutsideMount)
  {
    NoLonger(base);
    NormalizeRender(base + rel);
    WithinRootIsSegmentPrefix(Render(base + rel), Render(base));
    TrimRenderedRoot(base, rel);
    ValidBelow(base, rel);
    hide WithinRoot, Segments, Split, TrimPrefix, Below, Render, Normalize, EndsWithSpace;
    assert Segments(Render(base)) <= base + rel <==> Segments(Render(base)) <= base;
    if rel != [] {
      SplitRelative(rel);
    }
  }

  // What providerOutputRelativePath does to a stable rendered path below the mount: it is
  // placed if the mount covers its own source, which it does but for a blank at its end.
  lemma RelativeOfRendered(mountSource: string, rel: seq<string>)
    requires Good(rel) && !EndsWithSpace(Render(Segments(mountSource) + rel))
    ensures var p := Render(Segments(mountSource) + rel);
            OutputRelativePath(p, mountSource)
              == if !AcceptedCharacters(p) then Err(InvalidCharacter)
                 else if Covers(mountSource, mountSource) then Ok(rel) else Err(OutsideMount)
    ensures Stable(mountSource) ==> Covers(mountSource, mountSource)
  {
    var base := Segments(mountSource);
    var p := Render(base + rel);
    assert Normalize(mountSource) == Render(base);
    WithinRootIsSegmentPrefix(mountSource, Render(base));
    if Stable(mountSource) {
      NormalizeRender(base);
    }
    NormalizeRender(base + rel);
    NoDotSegments(base + rel);
    hide CheckedBelow, Segments, Render, TrimSpace, HasDotSegment, Normalize, WithinRoot;
    if AcceptedCharacters(p) {
      CheckedBelowRendered(base, rel);
    }
  }

  lemma TrimmedName(name: string)
    requires GoodSegment(name) && EndsWithSpace(name)
    ensures TrimRight(name) < name && !EndsWithSpace(TrimRight(name)) && '/' !in TrimRight(name)
  {
  }

  lemma SpelledPrefix(root: seq<string>, segs: seq<string>)
    requires Good(segs) && root <= segs
    ensures Render(root) <= Render(segs)
  {
    if root != [] {
      RenderedAncestor(segs, root);
    }
  }

  lemma RootIsRendered()
    ensures Segments("/") == []
  {
    SegmentsOfRender([]);
  }

  lemma KeptChild(over: seq<string>, name: string)
    requires Good(over) && GoodSegment(name) && EndsWithSpace(name)
    ensures var t := TrimRight(name);
            if GoodSegment(t) then ChildSegments(over, name) == over + [t] && t != name
            else |Render(ChildSegments(over, name))| <= |Render(over)|
  {
    TrimmedName(name);
    var up := if over == [] then [] else over[..|over| - 1];
    DeeperIsLonger(up, over);
    hide Render, TrimRight, EndsWithSpace;
  }

  lemma RelativeText(relative: string, rel: seq<string>)
    requires Good(rel) && rel != [] && Split(relative, '/') == rel
    ensures relative == Below(rel)[1..]
  {
    SplitRelative(rel);
    JoinSplit(relative, '/');
    JoinSplit(Below(rel)[1..], '/');
  }

  lemma TrimmedLength(p: string, root: string)
    requires root <= p
    ensures |TrimPrefix(TrimPrefix(p, root), "/")| <= |p| - |root|
  {
  }

  lemma RenderedLength(base: seq<string>, rel: seq<string>)
    requires rel != []
    ensures Below(rel) != ""
    ensures |Render(base + rel)| == |Render(base)| + |Below(rel)| - if base == [] then 1 else 0
  {
    BelowAppend(base, rel);
  }

  lemma TrimmedTwice(p: string)
    requires p != "" && p[0] == '/'
    ensures TrimSpace(p) != "" && TrimSpace(TrimSpace(p)) == TrimSpace(p)
  {
    SlashStays(p);
    SlashSurvives(p);
    SlashStays(TrimRight(p));
  }

  // What providerOutputRelativePath checks of a rendered path is the path read again.
  lemma RelativeIsChecked(segs: seq<string>, mountSource: string)
    requires Good(segs)
    ensures var result := OutputRelativePath(Render(segs), mountSource);
            result.Err? || (&& !HasDotSegment(TrimSpace(Render(segs)))
                            && result == CheckedBelow(Render(Segments(Render(segs))), Normalize(mountSource)))
  {
    TrimmedTwice(Render(segs));
    hide TrimSpace, HasDotSegment, CheckedBelow, CleanRooted, Render;
  }

  // Without a dot segment only blanks are lost when a rendered path is read again.
  lemma WithoutDots(segs: seq<string>)
    requires Good(segs) && segs != [] && !HasDotSegment(TrimSpace(Render(segs)))
    ensures var front, t := segs[..|segs| - 1], TrimRight(segs[|segs| - 1]);
            Segments(Render(segs)) == if t == "" then front else front + [t]
  {
    var front, name := segs[..|segs| - 1], segs[|segs| - 1];
    var text := if front == [] then "" else Render(front);
    assert '/' !in TrimRight(name);
    hide *;
    RenderedAgain(segs);
    TrimmedChild(front, name);
    assert TrimSpace(Render(segs)) == text + "/" + TrimRight(name) by {
      if front == [] {
        assert "" + "/" == "/";
      }
    }
    DotAtEnd(text, TrimRight(name));
    ReadWithoutDots(front, name);
  }

  lemma ReadWithoutDots(front: seq<string>, name: string)
    requires Good(front) && GoodSegment(name) && TrimRight(name) != "." && TrimRight(name) != ".."
    ensures ChildSegments(front, name) == if TrimRight(name) == "" then front else front + [TrimRight(name)]
  {
    hide TrimRight;
  }

  lemma DotAtEnd(text: string, t: string)
    requires '/' !in t
    ensures t == "." || t == ".." ==> HasDotSegment(text + "/" + t)
  {
    SplitConcat(text, t, '/');
    SplitFree(t, '/');
    var parts := Split(text, '/') + [t];
    hide Split;
    assert parts[|parts| - 1] == t;
  }

  // A path is not mapped back that has lost the blank of a name.
  lemma BlankIsNotMappedBack(mountSource: string, rel: seq<string>)
    requires Good(rel) && rel != [] && EndsWithSpace(rel[|rel| - 1])
    ensures OutputRelativePath(Normalize(Render(Segments(mountSource) + rel)), mountSource) != Ok(rel)
  {
    var base := Segments(mountSource);
    var front, name := rel[..|rel| - 1], rel[|rel| - 1];
    assert Good(base) && Good(front) && GoodSegment(name) && base + rel == (base + front) + [name];
    assert Good(base + front);
    assert Normalize(Render(base + rel)) == Render(Segments(Render(base + rel)));
    hide *;
    ChildPathIs(base + front, name);
    if GoodSegment(TrimRight(name)) {
      KeptIsNotMappedBack(mountSource, rel);
    } else {
      GoneIsNotMappedBack(mountSource, rel);
    }
  }

  lemma KeptIsNotMappedBack(mountSource: string, rel: seq<string>)
    requires Good(rel) && rel != [] && EndsWithSpace(rel[|rel| - 1]) && GoodSegment(TrimRight(rel[|rel| - 1]))
    ensures Good(Segments(mountSource) + rel[..|rel| - 1])
    ensures var next := ChildSegments(Segments(mountSource) + rel[..|rel| - 1], rel[|rel| - 1]);
            OutputRelativePath(Render(next), mountSource) != Ok(rel)
  {
    var base, front := Segments(mountSource), rel[..|rel| - 1];
    var t := TrimRight(rel[|rel| - 1]);
    var kept := front + [t];
    TrimmedName(rel[|rel| - 1]);
    assert Good(base) && Good(kept) && kept[|kept| - 1] == t && kept != rel;
    assert base + kept == (base + front) + [t];
    hide Segments, Render, OutputRelativePath, TrimRight, EndsWithSpace, Covers;
    EndingOf(base, kept);
    RelativeOfRendered(mountSource, kept);
  }

  lemma GoneIsNotMappedBack(mountSource: string, rel: seq<string>)
    requires Good(rel) && rel != [] && EndsWithSpace(rel[|rel| - 1]) && !GoodSegment(TrimRight(rel[|rel| - 1]))
    ensures Good(Segments(mountSource) + rel[..|rel| - 1])
    ensures var next := ChildSegments(Segments(mountSource) + rel[..|rel| - 1], rel[|rel| - 1]);
            OutputRelativePath(Render(next), mountSource) != Ok(rel)
  {
    var base, front, name := Segments(mountSource), rel[..|rel| - 1], rel[|rel| - 1];
    assert Good(base) && Good(base + front) && base + rel == (base + front) + [name] && GoodSegment(name) && name != "";
    assert Normalize(mountSource) == Render(base);
    hide *;
    var next := ChildSegments(base + front, name);
    var again := Segments(Render(next));
    GoneAgain(base + front, name);
    LongerByName(base + front, name);
    RelativeIsChecked(next, mountSource);
    if CheckedBelow(Render(again), Render(base)) == Ok(rel) {
      TooShort(base, rel, again);
      if !HasDotSegment(TrimSpace(Render(next))) {
        NotCutOff(base, rel, next);
      }
    }
  }

  lemma GoneAgain(over: seq<string>, name: string)
    requires Good(over) && GoodSegment(name) && EndsWithSpace(name) && !GoodSegment(TrimRight(name))
    ensures var next := ChildSegments(over, name);
            next <= over && |Render(Segments(Render(next)))| <= |Render(over)|
  {
    var next := ChildSegments(over, name);
    assert Render(next)[0] == '/';
    assert Normalize(Render(next)) == Render(Segments(Render(next)));
    TrimmedName(name);
    hide Render, Segments, Normalize, TrimRight, EndsWithSpace;
    KeptChild(over, name);
    NormalizeShrinks(Render(next));
  }

  lemma LongerByName(segs: seq<string>, name: string)
    requires name != ""
    ensures |Render(segs + [name])| >= |Render(segs)| + if segs == [] then 1 else 2
  {
    RenderChild(segs, name);
    assert |Render([])| == 1;
    hide Render;
  }

  // Too short a path, from which the root is cut off, does not hold the whole of the
  // relative one; so if it holds it nothing is cut off.
  lemma TooShort(base: seq<string>, rel: seq<string>, segs: seq<string>)
    requires Good(base) && Good(rel) && rel != [] && Good(segs)
    requires |Render(segs)| + (if base == [] then 1 else 2) <= |Render(base + rel)|
    requires CheckedBelow(Render(segs), Render(base)) == Ok(rel)
    ensures segs == rel && !(Render(base) <= Render(rel)) && Segments(Render(base)) <= Segments(Render(rel))
  {
    var p, root := Render(segs), Render(base);
    var relative := TrimPrefix(TrimPrefix(p, root), "/");
    WithinRootIsSegmentPrefix(p, root);
    assert p[0] == '/' && Render(rel) == Below(rel);
    hide WithinRoot, Segments, Split, Below, Render, Good;
    RenderedLength(base, rel);
    RelativeText(relative, rel);
    if root <= p {
      TrimmedLength(p, root);
    } else {
      assert p[..1] == "/";
      RenderInjective(segs, rel);
    }
  }

  lemma NotCutOff(base: seq<string>, rel: seq<string>, next: seq<string>)
    requires Good(base) && Good(rel) && rel != [] && EndsWithSpace(rel[|rel| - 1])
    requires Good(next) && next <= base + rel[..|rel| - 1] && !HasDotSegment(TrimSpace(Render(next)))
    requires !(Render(base) <= Render(rel))
    requires Segments(Render(base)) <= Segments(Render(rel))
    ensures Segments(Render(next)) != rel
  {
    assert Render([]) == "/";
    hide Segments, Render, HasDotSegment, TrimSpace, EndsWithSpace, TrimRight;
    if Segments(Render(next)) == rel {
      if next == [] {
        RootIsRendered();
      }
      WithoutDots(next);
      var t := TrimRight(next[|next| - 1]);
      if t == "" {
        assert rel == next[..|next| - 1];
        if |rel| < |base| {
          KeptByBlank(base, next);
          NoLonger(rel);
          LastOf(rel);
          BlankIsLost(rel);
        } else {
          SpelledPrefix(base, rel);
        }
      } else {
        TrimmedEnd(next[|next| - 1]);
      }
    }
  }

  lemma TrimmedEnd(name: string)
    ensures !EndsWithSpace(TrimRight(name))
  {
  }

  lemma LastOf(rel: seq<string>)
    requires Good(rel) && rel != [] && EndsWithSpace(rel[|rel| - 1])
    ensures EndsWithSpace(Render(rel))
  {
    LastCharacter(rel);
    hide Below;
  }

  // What comes before a name of blanks alone is kept in each path that begins with it.
  lemma KeptByBlank(base: seq<string>, next: seq<string>)
    requires Good(base) && next != [] && next <= base && TrimRight(next[|next| - 1]) == ""
    ensures next[..|next| - 1] <= Segments(Render(base))
  {
    RenderedAgain(base);
    hide Segments, Render, TrimRight;
  }

  // A mount's source that ends in a blank is mapped back to the mount's target only if
  // nothing but blanks is in it.
  lemma BlankSource(mountSource: string)
    requires !Stable(mountSource)
    ensures TrimSpace(Normalize(mountSource)) == "/" <==>
              OutputRelativePath(Normalize(mountSource), mountSource) == Ok([])
  {
    var base := Segments(mountSource);
    assert Render(base) == Normalize(mountSource) && base != [];
    if TrimSpace(Render(base)) == "/" {
      OnlyBlanks(mountSource);
    } else {
      RelativeIsChecked(base, mountSource);
      hide OutputRelativePath, Normalize, Segments, TrimSpace, HasDotSegment, CheckedBelow;
      if !HasDotSegment(TrimSpace(Render(base))) {
        NotTheRoot(base);
      }
    }
  }

  lemma OnlyBlanks(mountSource: string)
    requires !Stable(mountSource) && TrimSpace(Normalize(mountSource)) == "/"
    ensures OutputRelativePath(Normalize(mountSource), mountSource) == Ok([])
  {
    var root := Normalize(mountSource);
    RootIsRendered();
    NoDotSegments([]);
    assert Segments(root) == Segments("/") == [] && Normalize("/") == "/";
    WithinRootIsSegmentPrefix("/", root);
    hide Normalize, Segments, WithinRoot, TrimSpace, HasDotSegment;
    assert root != "/";
  }

  lemma NotTheRoot(base: seq<string>)
    requires Good(base) && base != [] && EndsWithSpace(Render(base))
    requires !HasDotSegment(TrimSpace(Render(base))) && TrimSpace(Render(base)) != "/"
    ensures CheckedBelow(Render(Segments(Render(base))), Render(base)) != Ok([])
  {
    var again := Segments(Render(base));
    RenderedAgain(base);
    WithoutDots(base);
    TrimmedChild(base[..|base| - 1], base[|base| - 1]);
    NormalizeShrinks(Render(base));
    assert Normalize(Render(base)) == Render(again);
    hide Segments, HasDotSegment, TrimSpace, EndsWithSpace, WithinRoot, Normalize, TrimRight;
    assert again != [];
    var p := Render(again);
    assert p[0] == '/' && |p| > 1 && !(Render(base) <= p);
    hide Render;
    assert TrimPrefix(p, Render(base)) == p && TrimPrefix(p, "/") == p[1..] != "";
  }

  lemma {:induction false} TrimKeepsIn(s: string, c: char)
    requires c in s && !IsSpace(c)
    ensures c in TrimLeft(s) && c in TrimSpace(s)
  {
    if IsSpace(s[0]) {
      TrimKeepsIn(s[1..], c);
    } else {
      TrimRightKeepsIn(s, c);
    }
  }

  lemma {:induction false} TrimRightKeepsIn(s: string, c: char)
    requires c in s && !IsSpace(c)
    ensures c in TrimRight(s)
  {
    if IsSpace(s[|s| - 1]) {
      assert s == s[..|s| - 1] + [s[|s| - 1]];
      TrimRightKeepsIn(s[..|s| - 1], c);
    }
  }

  lemma {:induction false} InSomePart(s: string, c: char)
    requires c in s && c != '/'
    ensures exists i :: 0 <= i < |Split(s, '/')| && c in Split(s, '/')[i]
  {
    var rest := Split(s[1..], '/');
    if s[0] == c {
      assert c in Split(s, '/')[0];
    } else {
      InSomePart(s[1..], c);
      var i :| 0 <= i < |rest| && c in rest[i];
      assert c in Split(s, '/')[if s[0] == '/' then i + 1 else i];
    }
  }

  // Turning backslashes into slashes leaves the parts without them where they are.
  lemma {:induction false} SlashedParts(s: string)
    ensures var parts, slashed := Split(s, '/'), Split(SlashesOnly(s), '/');
            && ('\\' !in parts[0] ==> slashed[0] == parts[0])
            && forall i :: 1 <= i < |parts| && '\\' !in parts[i] ==> parts[i] in slashed[1..]
  {
    if s != "" {
      SlashedParts(s[1..]);
      assert SlashesOnly(s)[1..] == SlashesOnly(s[1..]);
      var parts, slashed := Split(s, '/'), Split(SlashesOnly(s), '/');
      var p, q := Split(s[1..], '/'), Split(SlashesOnly(s[1..]), '/');
      hide Split, SlashesOnly;
      if s[0] == '/' {
        assert parts == [""] + p && slashed == [""] + q && slashed[1..] == q;
      } else if s[0] == '\\' {
        assert parts == [['\\'] + p[0]] + p[1..] && slashed == [""] + q && slashed[1..] == q;
        assert '\\' in parts[0];
      } else {
        assert parts == [[s[0]] + p[0]] + p[1..] && slashed == [[s[0]] + q[0]] + q[1..] && slashed[1..] == q[1..];
      }
    }
  }

  // Without two dots among them, all names are kept.
  lemma {:induction false} CleanKeeps(parts: seq<string>, stack: seq<string>, name: string)
    requires AllFree(parts, '/') && Good(stack) && ".." !in parts
    requires name in stack || (name in parts && name != "" && name != ".")
    ensures name in CleanSegments(parts, stack)
    decreases |parts|
  {
    if parts != [] {
      CleanKeeps(parts[1..], if parts[0] == "" || parts[0] == "." then stack else stack + [parts[0]], name);
    }
  }

  lemma {:induction false} CleanAdds(parts: seq<string>, stack: seq<string>, c: char)
    requires AllFree(parts, '/') && Good(stack)
    requires forall i :: 0 <= i < |parts| ==> c !in parts[i]
    requires forall i :: 0 <= i < |stack| ==> c !in stack[i]
    ensures forall i :: 0 <= i < |CleanSegments(parts, stack)| ==> c !in CleanSegments(parts, stack)[i]
    decreases |parts|
  {
    if parts != [] {
      var next := if parts[0] == "" || parts[0] == "." then stack
                  else if parts[0] == ".." then (if stack == [] then [] else stack[..|stack| - 1])
                  else stack + [parts[0]];
      CleanAdds(parts[1..], next, c);
    }
  }

  lemma {:induction false} NoBackslash(s: string)
    ensures '\\' !in SlashesOnly(s)
  {
    if s != "" {
      NoBackslash(s[1..]);
    }
  }

  lemma {:induction false} FreeParts(s: string, c: char)
    requires c !in s
    ensures forall i :: 0 <= i < |Split(s, '/')| ==> c !in Split(s, '/')[i]
  {
    if s != "" {
      FreeParts(s[1..], c);
    }
  }

  // The output root has no name with a backslash.
  lemma OutputRootIsFree(mount: Mount)
    requires MountOutputRoot(mount).Ok?
    ensures forall i :: 0 <= i < |MountOutputRoot(mount).value| ==> '\\' !in MountOutputRoot(mount).value[i]
  {
    var slashed := SlashesOnly(TrimSpace(mount.targetPath));
    NoBackslash(TrimSpace(mount.targetPath));
    assert '\\' !in "/" + slashed;
    FreeParts("/" + slashed, '\\');
    CleanAdds(Split("/" + slashed, '/'), [], '\\');
    hide Split, CleanSegments, TrimSpace, SlashesOnly;
  }

  // The target as a path has one if the target has: no part of it is two dots.
  lemma TargetHasBackslash(mount: Mount)
    requires MountOutputRoot(mount).Ok? && '\\' in mount.targetPath
    ensures exists i :: 0 <= i < |Segments(mount.targetPath)| && '\\' in Segments(mount.targetPath)[i]
  {
    var value := TrimSpace(mount.targetPath);
    TrimKeepsIn(mount.targetPath, '\\');
    InSomePart(value, '\\');
    NoTwoDots(mount);
    SplitLeadingSlash(value);
    var parts := Split(value, '/');
    var i :| 0 <= i < |parts| && '\\' in parts[i];
    hide TrimSpace, Split;
    assert parts[i] in [""] + parts && parts[i] != "" && parts[i] != ".";
    CleanKeeps([""] + parts, [], parts[i]);
    var j :| 0 <= j < |Segments(mount.targetPath)| && Segments(mount.targetPath)[j] == parts[i];
  }

  // A mount's target is accepted if and only if, blanks around it aside, it is not empty,
  // holds no NUL and no element that is two dots, and does not begin with a drive letter.
  lemma MountOutputRootIff(mount: Mount)
    ensures var slashed := SlashesOnly(TrimSpace(mount.targetPath));
            var root := CleanRooted(slashed);
            MountOutputRoot(mount).Ok? <==>
              && slashed != "" && '\0' !in slashed
              && (forall part :: part in Split(slashed, '/') ==> TrimSpace(part) != "..")
              && !(root != [] && |root[0]| >= 2 && root[0][1] == ':')
    ensures MountOutputRoot(mount).Ok? ==> MountOutputRoot(mount).value == CleanRooted(SlashesOnly(TrimSpace(mount.targetPath)))
  {
    var value := TrimSpace(mount.targetPath);
    var slashed := SlashesOnly(value);
    SlashedKeeps(value, '\0');
    NoBackslash(value);
    hide TrimSpace, SlashesOnly, Split, CleanRooted, ValidOutputName;
    if '\0' !in slashed {
      NamesAreValid(slashed);
    }
  }

  // Of the elements of a text without NUL and backslashes only two dots are refused.
  lemma NamesAreValid(slashed: string)
    requires '\0' !in slashed && '\\' !in slashed
    ensures forall part :: part in Split(slashed, '/') && TrimSpace(part) != ".." && part != "" && part != "." ==>
              ValidOutputName(part)
  {
    FreeParts(slashed, '\0');
    FreeParts(slashed, '\\');
    TwoDotsStay();
    var parts := Split(slashed, '/');
    hide TrimSpace, Split;
    forall part | part in parts && TrimSpace(part) != ".." && part != "" && part != "." ensures ValidOutputName(part) {
      var i :| 0 <= i < |parts| && parts[i] == part;
    }
  }

  lemma SlashedKeeps(s: string, c: char)
    requires c != '\\' && c != '/'
    ensures c in s <==> c in SlashesOnly(s)
  {
    var r := SlashesOnly(s);
    if c in s {
      var i :| 0 <= i < |s| && s[i] == c;
      assert r[i] == c;
    }
    hide SlashesOnly;
  }

  lemma TwoDotsStay()
    ensures TrimSpace("..") == ".."
  {
  }

  lemma NoTwoDots(mount: Mount)
    requires MountOutputRoot(mount).Ok?
    ensures ".." !in [""] + Split(TrimSpace(mount.targetPath), '/')
  {
    var value := TrimSpace(mount.targetPath);
    var slashed := Split(SlashesOnly(value), '/');
    SlashedParts(value);
    TwoDotsStay();
    hide Split, SlashesOnly, TrimSpace;
    assert ".." !in slashed;
    hide MountOutputRoot;
    assert forall p :: p in slashed[1..] ==> p in slashed;
  }

  // With a backslash in the mount's target nothing is mapped below it as it is spelled.
  lemma BackslashIsNotMapped(mount: Mount, providerDir: string, rel: seq<string>)
    requires MountOutputRoot(mount).Ok? && '\\' in mount.targetPath
    ensures MountTargetDir(mount, providerDir) != Ok(Segments(mount.targetPath) + rel)
  {
    OutputRootIsFree(mount);
    TargetHasBackslash(mount);
    RelativeIsFree(providerDir, mount.sourcePath);
    hide MountOutputRoot, OutputRelativePath, Segments;
    var target := Segments(mount.targetPath);
    var i :| 0 <= i < |target| && '\\' in target[i];
    assert (target + rel)[i] == target[i];
  }

  lemma RelativeIsFree(providerPath: string, source: string)
    ensures var names := OutputRelativePath(providerPath, source);
            names.Ok? ==> forall i :: 0 <= i < |names.value| ==> '\\' !in names.value[i]
  {
    hide WithinRoot, Normalize, TrimSpace, HasDotSegment, Split;
  }

  // ---- The round trip, exactly ----

  // What is there of a path under the mount's target comes back: of the target itself, if
  // the mount's source does not end in a blank or is nothing but blanks; of a path below it,
  // if that does not end in a blank and the mount covers its own source.
  predicate ComesBack(mount: Mount, target: string) {
    if Normalize(target) == Normalize(mount.targetPath) then
      Stable(mount.sourcePath) || TrimSpace(Normalize(mount.sourcePath)) == "/"
    else
      Stable(target) && Covers(mount.sourcePath, mount.sourcePath)
  }

  // The round trip: the source path a target path is translated into maps back to the
  // directory of that very target path if and only if the mount's target is accepted and
  // holds no backslash, neither the mount's source nor the target path holds a character
  // that output names refuse, and no blank is in the way.
  lemma MountRoundTripIff(mount: Mount, target: string)
    requires WithinRoot(target, mount.targetPath)
    ensures var back := MountTargetDir(mount, SourcePathForMountTargetPath(mount, target));
            var readable := MountOutputRoot(mount).Ok? && '\\' !in mount.targetPath;
            var accepted := AcceptedCharacters(Normalize(mount.sourcePath)) && AcceptedCharacters(Normalize(target));
            && (back == Ok(Segments(target)) <==> readable && accepted && ComesBack(mount, target))
            && (readable && !EndsInBlank(mount, target) && !accepted ==> back == Err(InvalidCharacter))
            && (readable && !EndsInBlank(mount, target) && accepted && !ComesBack(mount, target) ==>
                  back == Err(OutsideMount))
  {
    var rel := RelSegments(mount, target);
    assert Segments(mount.targetPath) + rel == Segments(target);
    if MountOutputRoot(mount).Ok? {
      if '\\' in mount.targetPath {
        BackslashIsNotMapped(mount, SourcePathForMountTargetPath(mount, target), rel);
      } else {
        PlainRoundTrip(mount, target);
      }
    } else {
      hide OutputRelativePath, MountOutputRoot, Segments, SourcePathForMountTargetPath, EndsInBlank, AcceptedCharacters;
      hide ComesBack;
    }
  }

  lemma SameTargetIff(mount: Mount, target: string)
    requires WithinRoot(target, mount.targetPath)
    ensures Normalize(target) == Normalize(mount.targetPath) <==> RelSegments(mount, target) == []
  {
    var root, segs, rel := Segments(mount.targetPath), Segments(target), RelSegments(mount, target);
    assert root + rel == segs && Render(root) == Normalize(mount.targetPath) && Render(segs) == Normalize(target);
    hide *;
    if rel == [] {
      assert root + rel == root;
    }
    if Render(root) == Render(segs) {
      RenderInjective(segs, root);
      assert |root| + |rel| == |segs|;
    }
  }

  lemma PlainRoundTrip(mount: Mount, target: string)
    requires WithinRoot(target, mount.targetPath)
    requires '\\' !in mount.targetPath && MountOutputRoot(mount).Ok?
    ensures var back := MountTargetDir(mount, SourcePathForMountTargetPath(mount, target));
            var accepted := AcceptedCharacters(Normalize(mount.sourcePath)) && AcceptedCharacters(Normalize(target));
            && (back == Ok(Segments(target)) <==> accepted && ComesBack(mount, target))
            && (!EndsInBlank(mount, target) && !accepted ==> back == Err(InvalidCharacter))
            && (!EndsInBlank(mount, target) && accepted && !ComesBack(mount, target) ==> back == Err(OutsideMount))
  {
    var source, rel := SourcePathForMountTargetPath(mount, target), RelSegments(mount, target);
    var root := Segments(mount.targetPath);
    MountOutputRootIsTarget(mount);
    SameTargetIff(mount, target);
    assert root + rel == Segments(target);
    hide SourcePathForMountTargetPath, Segments, Normalize, OutputRelativePath, WithinRoot, MountOutputRoot, RelSegments;
    hide AcceptedCharacters, EndsWithSpace, Covers, TrimSpace;
    if !EndsInBlank(mount, target) {
      TranslationLandsIff(mount, target);
      EndsInBlankIs(mount, target);
      AcceptedParts(mount, target);
      hide Render;
      RelativeOfRendered(mount.sourcePath, rel);
    } else if rel != [] {
      LostBelow(mount, target);
    } else {
      LostSource(mount, target);
    }
  }

  lemma LostBelow(mount: Mount, target: string)
    requires WithinRoot(target, mount.targetPath) && EndsInBlank(mount, target) && RelSegments(mount, target) != []
    ensures OutputRelativePath(SourcePathForMountTargetPath(mount, target), mount.sourcePath)
              != Ok(RelSegments(mount, target))
  {
    var rel := RelSegments(mount, target);
    EndsInBlankIs(mount, target);
    TranslatedPath(mount, target);
    hide *;
    assert Good(Segments(mount.sourcePath));
    EndingOf(Segments(mount.sourcePath), rel);
    BlankIsNotMappedBack(mount.sourcePath, rel);
  }

  lemma LostSource(mount: Mount, target: string)
    requires WithinRoot(target, mount.targetPath) && EndsInBlank(mount, target) && RelSegments(mount, target) == []
    requires '\\' !in mount.targetPath && MountOutputRoot(mount).Ok?
    ensures !Stable(mount.sourcePath)
    ensures TrimSpace(Normalize(mount.sourcePath)) == "/" <==>
              OutputRelativePath(SourcePathForMountTargetPath(mount, target), mount.sourcePath) == Ok([])
    ensures TrimSpace(Normalize(mount.sourcePath)) == "/" ==>
              AcceptedCharacters(Normalize(mount.sourcePath)) && AcceptedCharacters(Normalize(target))
  {
    var base, source := Segments(mount.sourcePath), Normalize(mount.sourcePath);
    assert source == Render(base) && base + [] == base;
    hide *;
    TranslatedPath(mount, target);
    AcceptedParts(mount, target);
    SourceIsBlank(mount, target);
    BlankSource(mount.sourcePath);
    if TrimSpace(source) == "/" {
      AcceptedBlank(source);
    }
  }

  lemma SourceIsBlank(mount: Mount, target: string)
    requires WithinRoot(target, mount.targetPath) && EndsInBlank(mount, target) && RelSegments(mount, target) == []
    ensures !Stable(mount.sourcePath)
  {
    hide WithinRoot, Normalize;
  }

  lemma AcceptedBlank(path: string)
    requires TrimSpace(path) == "/"
    ensures AcceptedCharacters(path)
  {
    forall c | c in path && !IsSpace(c) ensures c == '/' {
      TrimKeepsIn(path, c);
    }
    hide TrimSpace;
  }

  lemma FreeRender(a: seq<string>, b: seq<string>, c: char)
    requires c != '/'
    ensures c !in Render(a + b) <==> c !in Render(a) && c !in Render(b)
  {
    FreeBelow(a, c);
    FreeBelow(b, c);
    FreeBelow(a + b, c);
    BelowAppend(a, b);
  }

  // The mount's target holds none of the characters, so the target path does where its
  // part below the mount's target does.
  lemma AcceptedParts(mount: Mount, target: string)
    requires WithinRoot(target, mount.targetPath) && '\\' !in mount.targetPath && MountOutputRoot(mount).Ok?
    ensures AcceptedCharacters(Render(Segments(mount.sourcePath) + RelSegments(mount, target))) <==>
              AcceptedCharacters(Normalize(mount.sourcePath)) && AcceptedCharacters(Normalize(target))
  {
    var base, root, rel := Segments(mount.sourcePath), Segments(mount.targetPath), RelSegments(mount, target);
    assert root + rel == Segments(target);
    TargetIsAccepted(mount);
    hide Segments, MountOutputRoot, WithinRoot, RelSegments, Render;
    forall c | c != '/' ensures c !in Render(base + rel) <==> c !in Render(base) && c !in Render(rel)
             ensures c !in Render(root + rel) <==> c !in Render(root) && c !in Render(rel)
    {
      FreeRender(base, rel, c);
      FreeRender(root, rel, c);
    }
  }

  lemma TargetIsAccepted(mount: Mount)
    requires '\\' !in mount.targetPath && MountOutputRoot(mount).Ok?
    ensures AcceptedCharacters(Render(Segments(mount.targetPath)))
  {
    var value := TrimSpace(mount.targetPath);
    TrimKeepsFree(mount.targetPath, '\\');
    assert '\0' !in "/" + value && '\\' !in "/" + value;
    FreeParts("/" + value, '\0');
    FreeParts("/" + value, '\\');
    CleanAdds(Split("/" + value, '/'), [], '\0');
    CleanAdds(Split("/" + value, '/'), [], '\\');
    var segs := Segments(mount.targetPath);
    hide Split, CleanSegments, TrimSpace, SlashesOnly;
    FreeBelow(segs, '\0');
    FreeBelow(segs, '\\');
  }

  // A mount of the root at the root translates the path "/a /", which normalises to "/a ",
  // to a source path without the blank.
  lemma BlankLostInTranslation(id: string, providerId: string)
    ensures var mount := Mount(id, providerId, "/", "/");
            WithinRoot("/a /", "/") && Segments(SourcePathForMountTargetPath(mount, "/a /")) != Segments("/a /")
  {
    var mount := Mount(id, providerId, "/", "/");
    RootIsRendered();
    WithinRootIsSegmentPrefix("/a /", "/");
    NormalizeNotIdempotent();
    NormalizeIdempotentIff("/a /");
    assert Normalize("/a /") != "/";
    hide SourcePathForMountTargetPath, WithinRoot, CleanRooted;
    assert [] + RelSegments(mount, "/a /") == RelSegments(mount, "/a /");
    TranslationLandsIff(mount, "/a /");
  }

  // A source "/a /" normalises to "/a ", which the mount search reads as "/a" and so finds
  // outside of itself; nothing below the mount's target comes back.
  lemma BlankSourceIsOutside(id: string, providerId: string)
    ensures var mount := Mount(id, providerId, "/a /", "/");
            WithinRoot("/f", "/") && MountTargetDir(mount, SourcePathForMountTargetPath(mount, "/f")) == Err(OutsideMount)
  {
    var mount := Mount(id, providerId, "/a /", "/");
    PlainFile();
    RootAccepted(id, providerId);
    NormalizeNotIdempotent();
    SourceNotCovered();
    assert WithinRoot("/f", "/") && ComesBack(mount, "/f") == false;
    hide *;
    MountRoundTripIff(mount, "/f");
    SameTargetIff(mount, "/f");
    EndsInBlankOf(mount, "/f");
  }

  lemma EndsInBlankOf(mount: Mount, target: string)
    requires WithinRoot(target, mount.targetPath) && RelSegments(mount, target) != []
    ensures EndsInBlank(mount, target) <==> !Stable(target)
  {
  }

  lemma PlainFile()
    ensures Normalize("/f") == "/f" && Stable("/f")
    ensures AcceptedCharacters("/f") && AcceptedCharacters("/a ")
  {
    RenderSingle("f");
    assert "/" + "f" == "/f";
    NormalizeRender(["f"]);
    hide Render, Segments;
  }

  lemma RootAccepted(id: string, providerId: string)
    ensures Normalize("/") == "/" && MountOutputRoot(Mount(id, providerId, "/a /", "/")).Ok?
  {
    RootIsRendered();
    var parts := Split("/", '/');
    assert parts == ["", ""];
    assert SlashesOnly("/") == "/";
  }

  lemma SourceNotCovered()
    ensures !Covers("/a /", "/a /")
  {
    NormalizeNotIdempotent();
    hide Normalize;
    assert Normalize("/a /") == "/a " && Normalize("/a ") == "/a";
    assert "/a "[2] == ' ' && ("/a" + "/")[2] == '/';
  }
}
