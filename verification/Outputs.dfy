/** The output side of a scan: what scanMount writes below the mount's target, and the
  * cleanup that deletes everything else there. Output files are keyed by their segments
  * below the output root. */
module Outputs {
  import opened Wrappers
  import opened Strings
  import opened Paths
  import opened Mounts
  import opened Percent

  type Path = seq<string>
  type Files = map<Path, string>

  // One row of the index below the scanned path.
  datatype Item = Item(path: string, parent: string, name: string, isDir: bool)

  // The name tables that classify media files, directory-level files and sidecars.
  datatype Rules = Rules(
    isMedia: string -> bool, directoryFile: string -> bool, sidecar: (string, string) -> bool, strm: bool)

  // What downloading a provider file comes to.
  datatype Download = Content(text: string) | Failed | Cancelled

  datatype Config = Config(mount: Mount, rules: Rules, cloud: string -> Download, streamBase: string, overwrite: bool)

  datatype Job = Job(source: string, target: Path)

  datatype Strm = Strm(target: Path, url: string)

  datatype MediaPaths = MediaPaths(targetDir: Path, baseName: string)

  // strings.TrimSuffix(name, filepath.Ext(name)): the name up to its last dot.
  function WithoutExtension(name: string): string {
    if name == "" then ""
    else if '.' in name[1..] then [name[0]] + WithoutExtension(name[1..])
    else if name[0] == '.' then ""
    else name
  }

  // mediaOutputPaths.
  function MediaOutputPaths(mount: Mount, providerPath: string): Result<MediaPaths, PathError> {
    var relToMount := OutputRelativePath(providerPath, mount.sourcePath);
    if relToMount.Err? then Err(relToMount.error)
    else if relToMount.value == [] then Err(OutsideMount)
    else
      var targetRoot := MountOutputRoot(mount);
      if targetRoot.Err? then Err(targetRoot.error)
      else
        var last := |relToMount.value| - 1;
        Ok(MediaPaths(targetRoot.value + relToMount.value[..last], WithoutExtension(relToMount.value[last])))
  }

  // ---- What a scan is expected to produce ----

  predicate IsMediaItem(c: Config, m: Item) {
    !m.isDir && c.rules.isMedia(m.name)
  }

  // The .strm file of a media item.
  function StrmOf(c: Config, m: Item): Option<Strm> {
    var paths := MediaOutputPaths(c.mount, m.path);
    if c.rules.strm && IsMediaItem(c, m) && paths.Ok?
    then Some(Strm(paths.value.targetDir + [paths.value.baseName + ".strm"], c.streamBase + EscapeProviderPath(m.path)))
    else None
  }

  // classifyDirectoryOutputSyncJob.
  function DirectoryJob(c: Config, x: Item): Option<Job> {
    var targetDir := MountTargetDir(c.mount, x.parent);
    if !x.isDir && targetDir.Ok? && ValidOutputName(x.name) && c.rules.directoryFile(x.name)
    then Some(Job(x.path, targetDir.value + [x.name]))
    else None
  }

  // classifyOutputSyncJob, for a file next to a media item.
  function SidecarJob(c: Config, m: Item, x: Item): Option<Job> {
    var paths := MediaOutputPaths(c.mount, m.path);
    if IsMediaItem(c, m) && paths.Ok? && !x.isDir && x.parent == m.parent && x.path != m.path
       && ValidOutputName(x.name) && c.rules.sidecar(paths.value.baseName, x.name)
    then Some(Job(x.path, paths.value.targetDir + [x.name]))
    else None
  }

  predicate IsJob(c: Config, items: seq<Item>, j: Job) {
    || (exists x :: x in items && DirectoryJob(c, x) == Some(j))
    || (exists m, x :: m in items && x in items && SidecarJob(c, m, x) == Some(j))
  }

  predicate IsStrm(c: Config, items: seq<Item>, s: Strm) {
    exists m :: m in items && StrmOf(c, m) == Some(s)
  }

  ghost predicate ExpectedAt(c: Config, items: seq<Item>, p: Path) {
    || (exists j :: IsJob(c, items, j) && j.target == p)
    || (exists s :: IsStrm(c, items, s) && s.target == p)
  }

  // The text is what a stream file or a downloaded file expected at p holds.
  ghost predicate Produced(c: Config, items: seq<Item>, p: Path, text: string) {
    || (exists j :: IsJob(c, items, j) && j.target == p && c.cloud(j.source) == Content(text))
    || (exists s :: IsStrm(c, items, s) && s == Strm(p, text))
  }

  predicate Same(a: Files, b: Files, p: Path) {
    (p in a <==> p in b) && (p in a && p in b ==> a[p] == b[p])
  }

  // ---- Everything expected lies below the target of the scanned path ----

  predicate Canonical(p: string) {
    Normalize(p) == p
  }

  // Rows of the index strictly below the scanned path, with their parent and name.
  ghost predicate ItemBelow(scanPath: string, x: Item) {
    && Canonical(x.path) && Canonical(x.parent)
    && Segments(x.path) == Segments(x.parent) + [x.name]
    && Segments(scanPath) <= Segments(x.parent)
  }

  ghost predicate Scope(c: Config, scanPath: string, items: seq<Item>) {
    && Stable(c.mount.sourcePath)
    && Canonical(scanPath)
    && MountTargetDir(c.mount, scanPath).Ok?
    && forall x :: x in items && !x.isDir ==> ItemBelow(scanPath, x)
  }

  lemma CanonicalIsStable(p: string)
    requires Canonical(p)
    ensures p == Render(Segments(p)) && !EndsWithSpace(p)
  {
    NormalizeIdempotentIff(p);
  }

  lemma CanonicalIsTrimmed(p: string)
    requires Canonical(p)
    ensures TrimSpace(p) == p
  {
    CanonicalIsStable(p);
    hide Segments, Canonical;
    NormalizeRender(Segments(p));
  }

  lemma AcceptedIsWithin(p: string, source: string)
    requires Canonical(p) && OutputRelativePath(p, source).Ok?
    ensures WithinRoot(p, Normalize(source))
  {
    CanonicalIsTrimmed(p);
    hide TrimSpace, Normalize, HasDotSegment, WithinRoot;
  }

  // The relative path of an accepted canonical path is what its segments have below the mount.
  lemma RelativeSegments(p: string, source: string)
    requires Canonical(p) && Stable(source) && OutputRelativePath(p, source).Ok?
    ensures Segments(source) <= Segments(p)
    ensures OutputRelativePath(p, source).value == Segments(p)[|Segments(source)|..]
  {
    AcceptedIsWithin(p, source);
    NormalizeRender(Segments(source));
    CanonicalIsStable(p);
    hide Segments, Normalize, OutputRelativePath, WithinRoot, Render, Stable, Canonical;
    WithinRootIsSegmentPrefix(p, Normalize(source));
    var rel := Segments(p)[|Segments(source)|..];
    assert Segments(source) + rel == Segments(p);
    RelativeOfRendered(source, rel);
  }

  lemma TargetDirIs(mount: Mount, d: string)
    requires Canonical(d) && Stable(mount.sourcePath) && MountTargetDir(mount, d).Ok?
    ensures MountOutputRoot(mount).Ok? && Segments(mount.sourcePath) <= Segments(d)
    ensures MountTargetDir(mount, d).value == MountOutputRoot(mount).value + Segments(d)[|Segments(mount.sourcePath)|..]
  {
    hide OutputRelativePath, MountOutputRoot, Segments, Canonical, Stable;
    RelativeSegments(d, mount.sourcePath);
  }

  lemma DropPrefix(base: Path, a: Path, b: Path)
    requires base <= a <= b
    ensures a[|base|..] <= b[|base|..]
  {
  }

  lemma TargetDirBelow(mount: Mount, scanPath: string, d: string)
    requires Canonical(scanPath) && Canonical(d) && Stable(mount.sourcePath) && Segments(scanPath) <= Segments(d)
    requires MountTargetDir(mount, scanPath).Ok? && MountTargetDir(mount, d).Ok?
    ensures MountTargetDir(mount, scanPath).value <= MountTargetDir(mount, d).value
  {
    hide MountTargetDir, MountOutputRoot, Segments, Canonical, Stable;
    TargetDirIs(mount, scanPath);
    TargetDirIs(mount, d);
    DropPrefix(Segments(mount.sourcePath), Segments(scanPath), Segments(d));
  }

  // A media file's outputs go to the directory of its parent.
  lemma MediaTargetBelow(mount: Mount, scanPath: string, m: Item)
    requires Canonical(scanPath) && Stable(mount.sourcePath) && MountTargetDir(mount, scanPath).Ok?
    requires ItemBelow(scanPath, m) && MediaOutputPaths(mount, m.path).Ok?
    ensures MountTargetDir(mount, scanPath).value <= MediaOutputPaths(mount, m.path).value.targetDir
  {
    hide OutputRelativePath, MountOutputRoot, Segments, Canonical, Stable, MountTargetDir, WithoutExtension;
    TargetDirIs(mount, scanPath);
    RelativeSegments(m.path, mount.sourcePath);
    var base := Segments(mount.sourcePath);
    assert Segments(m.path)[..|Segments(m.parent)|] == Segments(m.parent);
    var rel := Segments(m.path)[|base|..];
    assert rel[..|rel| - 1] == Segments(m.parent)[|base|..];
    DropPrefix(base, Segments(scanPath), Segments(m.parent));
  }

  lemma {:induction false} WithoutExtensionIs(base: string, extension: string)
    requires '.' !in extension
    ensures WithoutExtension(base + "." + extension) == base
  {
    var name := base + "." + extension;
    if base == "" {
      assert name[1..] == extension;
    } else {
      assert name[1..] == base[1..] + "." + extension;
      assert name[1..][|base| - 1] == '.';
      WithoutExtensionIs(base[1..], extension);
      assert [base[0]] + base[1..] == base;
    }
  }

  // A name without a dot is kept whole.
  lemma {:induction false} WithoutDotIs(name: string)
    requires '.' !in name
    ensures WithoutExtension(name) == name
  {
    if name != "" {
      assert '.' !in name[1..];
    }
  }

  // The stream file of a media file goes where its directory is mapped to, under its
  // name with another extension.
  lemma StreamFilePlace(c: Config, m: Item, base: string, extension: string)
    requires Canonical(m.path) && Canonical(m.parent) && Stable(c.mount.sourcePath)
    requires Segments(m.path) == Segments(m.parent) + [m.name] && m.name == base + "." + extension && '.' !in extension
    requires StrmOf(c, m).Some? && MountTargetDir(c.mount, m.parent).Ok?
    ensures StrmOf(c, m).value.target == MountTargetDir(c.mount, m.parent).value + [base + ".strm"]
  {
    hide MediaOutputPaths, EscapeProviderPath, WithoutExtension, Segments, Canonical, Stable, MountTargetDir;
    WithoutExtensionIs(base, extension);
    MediaTargetIs(c.mount, m);
  }

  lemma MediaTargetIs(mount: Mount, m: Item)
    requires Canonical(m.path) && Canonical(m.parent) && Stable(mount.sourcePath)
    requires Segments(m.path) == Segments(m.parent) + [m.name]
    requires MediaOutputPaths(mount, m.path).Ok? && MountTargetDir(mount, m.parent).Ok?
    ensures MediaOutputPaths(mount, m.path).value
         == MediaPaths(MountTargetDir(mount, m.parent).value, WithoutExtension(m.name))
  {
    hide OutputRelativePath, MountOutputRoot, Segments, Canonical, Stable, MountTargetDir, WithoutExtension;
    TargetDirIs(mount, m.parent);
    RelativeSegments(m.path, mount.sourcePath);
    var above := |Segments(mount.sourcePath)|;
    assert Segments(m.path)[above..] == Segments(m.parent)[above..] + [m.name];
  }

  // ---- Which paths have a place, and where ----

  // A canonical path at or below the mount's source has a place among the outputs if and
  // only if the mount's target is accepted and no name holds a backslash or a NUL; it is the
  // place of the same names below the mount.
  lemma PlacedIff(mount: Mount, p: string)
    requires Canonical(p) && Stable(mount.sourcePath) && Segments(mount.sourcePath) <= Segments(p)
    ensures MountTargetDir(mount, p)
         == if !AcceptedCharacters(p) then Err(InvalidCharacter)
            else if MountOutputRoot(mount).Err? then MountOutputRoot(mount)
            else Ok(MountOutputRoot(mount).value + Segments(p)[|Segments(mount.sourcePath)|..])
  {
    CanonicalIsStable(p);
    hide Segments, Canonical, OutputRelativePath, MountOutputRoot, Render, EndsWithSpace, AcceptedCharacters;
    var rel := Segments(p)[|Segments(mount.sourcePath)|..];
    assert Segments(mount.sourcePath) + rel == Segments(p);
    RelativeOfRendered(mount.sourcePath, rel);
  }

  lemma MediaPlacedIff(mount: Mount, m: Item)
    requires Canonical(m.path) && Stable(mount.sourcePath) && Segments(m.path) == Segments(m.parent) + [m.name]
    requires Segments(mount.sourcePath) <= Segments(m.parent) && MountOutputRoot(mount).Ok?
    ensures MediaOutputPaths(mount, m.path).Ok? <==> AcceptedCharacters(m.path)
  {
    assert Segments(mount.sourcePath) <= Segments(m.path);
    hide Segments, Canonical, OutputRelativePath, MountOutputRoot, AcceptedCharacters, WithoutExtension;
    PlacedIff(mount, m.path);
    if OutputRelativePath(m.path, mount.sourcePath).Ok? {
      RelativeSegments(m.path, mount.sourcePath);
    }
  }

  // The names of a file are those of its directory and its own.
  lemma AcceptedChild(x: Item)
    requires Canonical(x.path) && Canonical(x.parent) && Segments(x.path) == Segments(x.parent) + [x.name]
    ensures AcceptedCharacters(x.path) <==> AcceptedCharacters(x.parent) && ValidOutputName(x.name)
  {
    CanonicalIsStable(x.path);
    CanonicalIsStable(x.parent);
    assert GoodSegment(x.name) by { assert Segments(x.path)[|Segments(x.parent)|] == x.name; }
    assert [x.name][1..] == [] && Below([x.name]) == "/" + x.name + "";
    hide Segments, Canonical, EndsWithSpace;
    FreeRender(Segments(x.parent), [x.name], '\0');
    FreeRender(Segments(x.parent), [x.name], '\\');
  }

  lemma Regrouped(a: Path, b: Path, d: Path)
    ensures a + (b + d) == a + b + d
  {
  }

  // A file keeps its name where its directory goes, if the name is accepted.
  lemma CopiedIff(mount: Mount, x: Item)
    requires Canonical(x.path) && Canonical(x.parent) && Stable(mount.sourcePath)
    requires Segments(x.path) == Segments(x.parent) + [x.name] && Segments(mount.sourcePath) <= Segments(x.parent)
    ensures MountTargetDir(mount, x.path).Ok? <==> MountTargetDir(mount, x.parent).Ok? && ValidOutputName(x.name)
    ensures MountTargetDir(mount, x.path).Ok? ==>
              MountTargetDir(mount, x.path).value == MountTargetDir(mount, x.parent).value + [x.name]
  {
    hide *;
    AcceptedChild(x);
    var source, parent := Segments(mount.sourcePath), Segments(x.parent);
    assert source <= parent + [x.name] && (parent + [x.name])[|source|..] == parent[|source|..] + [x.name];
    PlacedIff(mount, x.path);
    PlacedIff(mount, x.parent);
    if MountOutputRoot(mount).Ok? {
      Regrouped(MountOutputRoot(mount).value, parent[|source|..], [x.name]);
    }
  }

  lemma ScopeIsWithinMount(c: Config, scanPath: string, items: seq<Item>, x: Item)
    requires Scope(c, scanPath, items) && x in items && !x.isDir
    ensures MountOutputRoot(c.mount).Ok? && Segments(c.mount.sourcePath) <= Segments(x.parent)
  {
    hide MountTargetDir, MountOutputRoot, Segments, Canonical, Stable;
    TargetDirIs(c.mount, scanPath);
  }

  // Within the scope of a scan a file is in the way exactly if its path or that of its
  // directory holds a character that output names refuse.
  lemma PlaceableIff(c: Config, scanPath: string, items: seq<Item>, x: Item)
    requires Scope(c, scanPath, items) && x in items && !x.isDir
    ensures Placeable(c, x)
       <==> AcceptedCharacters(x.parent) && (IsMediaItem(c, x) ==> AcceptedCharacters(x.path))
  {
    hide MountTargetDir, MountOutputRoot, MediaOutputPaths, Segments, Canonical, Stable, AcceptedCharacters;
    ScopeIsWithinMount(c, scanPath, items, x);
    PlacedIff(c.mount, x.parent);
    MediaPlacedIff(c.mount, x);
  }

  // Each download keeps the place of the file it comes from.
  lemma JobIsCopy(c: Config, scanPath: string, items: seq<Item>, j: Job)
    requires Scope(c, scanPath, items) && IsJob(c, items, j)
    ensures exists x :: x in items && !x.isDir && x.path == j.source && MountTargetDir(c.mount, x.path) == Ok(j.target)
  {
    hide MountTargetDir, MountOutputRoot, MediaOutputPaths, Segments, Canonical, Stable, ValidOutputName;
    if x :| x in items && DirectoryJob(c, x) == Some(j) {
      ScopeIsWithinMount(c, scanPath, items, x);
      CopiedIff(c.mount, x);
    } else {
      var m, x :| m in items && x in items && SidecarJob(c, m, x) == Some(j);
      ScopeIsWithinMount(c, scanPath, items, x);
      SidecarIsCopy(c, m, x);
    }
  }

  lemma SidecarIsCopy(c: Config, m: Item, x: Item)
    requires Canonical(m.path) && Canonical(m.parent) && Segments(m.path) == Segments(m.parent) + [m.name]
    requires Canonical(x.path) && Canonical(x.parent) && Segments(x.path) == Segments(x.parent) + [x.name]
    requires Stable(c.mount.sourcePath) && Segments(c.mount.sourcePath) <= Segments(x.parent)
    requires SidecarJob(c, m, x).Some?
    ensures SidecarJob(c, m, x).value.source == x.path
    ensures MountTargetDir(c.mount, x.path) == Ok(SidecarJob(c, m, x).value.target)
  {
    MediaTargetSegments(c.mount, m);
    hide MountTargetDir, MountOutputRoot, MediaOutputPaths, Segments, Canonical, Stable, ValidOutputName, WithoutExtension;
    MediaPlacedIff(c.mount, m);
    AcceptedChild(m);
    PlacedIff(c.mount, m.parent);
    CopiedIff(c.mount, x);
    MediaTargetIs(c.mount, m);
  }

  // What the rules say of a file, whatever directory it goes to: it is a directory-level
  // file, or a sidecar of some media file next to it.
  ghost predicate Wanted(c: Config, items: seq<Item>, x: Item) {
    || c.rules.directoryFile(x.name)
    || exists m :: m in items && IsMediaItem(c, m) && m.parent == x.parent && m.path != x.path
                   && AcceptedCharacters(m.path) && c.rules.sidecar(WithoutExtension(m.name), x.name)
  }

  lemma SamePathSameItem(scanPath: string, x: Item, y: Item)
    requires ItemBelow(scanPath, x) && ItemBelow(scanPath, y) && x.path == y.path && x.isDir == y.isDir
    ensures x == y
  {
    CanonicalIsStable(x.parent);
    CanonicalIsStable(y.parent);
    hide Segments, Render, EndsWithSpace;
    assert (Segments(x.parent) + [x.name])[..|Segments(x.parent)|] == Segments(x.parent);
    assert (Segments(y.parent) + [y.name])[..|Segments(y.parent)|] == Segments(y.parent);
    assert |Segments(x.parent)| == |Segments(y.parent)|;
    assert (Segments(x.parent) + [x.name])[|Segments(x.parent)|] == x.name;
  }

  // A file that has a place is downloaded if and only if the rules want it.
  lemma DownloadedIff(c: Config, scanPath: string, items: seq<Item>, x: Item)
    requires Scope(c, scanPath, items) && x in items && !x.isDir && MountTargetDir(c.mount, x.path).Ok?
    ensures (exists j :: IsJob(c, items, j) && j.source == x.path) <==> Wanted(c, items, x)
  {
    hide MountTargetDir, MountOutputRoot, Segments, Canonical, Stable, ValidOutputName, MediaOutputPaths, WithoutExtension;
    hide ItemBelow;
    JobsOf(c, scanPath, items, x);
    if j :| IsJob(c, items, j) && j.source == x.path {
      if y :| y in items && DirectoryJob(c, y) == Some(j) {
        SamePathSameItem(scanPath, x, y);
      } else {
        var m, y :| m in items && y in items && SidecarJob(c, m, y) == Some(j);
        SamePathSameItem(scanPath, x, y);
      }
    }
    hide Wanted, DirectoryJob, SidecarJob;
  }

  lemma JobsOf(c: Config, scanPath: string, items: seq<Item>, x: Item)
    requires Scope(c, scanPath, items) && x in items && !x.isDir && MountTargetDir(c.mount, x.path).Ok?
    ensures Wanted(c, items, x) <==> DirectoryJob(c, x).Some? || exists m :: m in items && SidecarJob(c, m, x).Some?
    ensures DirectoryJob(c, x).Some? ==> DirectoryJob(c, x).value.source == x.path
    ensures forall m :: m in items && SidecarJob(c, m, x).Some? ==> SidecarJob(c, m, x).value.source == x.path
  {
    hide MountTargetDir, MountOutputRoot, Segments, Canonical, Stable, ValidOutputName, MediaOutputPaths, WithoutExtension;
    ScopeIsWithinMount(c, scanPath, items, x);
    CopiedIff(c.mount, x);
    forall m | m in items && IsMediaItem(c, m) && m.parent == x.parent && m.path != x.path
      ensures SidecarJob(c, m, x).Some? <==>
                AcceptedCharacters(m.path) && c.rules.sidecar(WithoutExtension(m.name), x.name)
    {
      MediaPlacedIff(c.mount, m);
      if MediaOutputPaths(c.mount, m.path).Ok? {
        MediaTargetIs(c.mount, m);
      }
    }
    hide AcceptedCharacters;
  }

  lemma ExpectedBelowTarget(c: Config, scanPath: string, items: seq<Item>, p: Path)
    requires Scope(c, scanPath, items) && ExpectedAt(c, items, p)
    ensures MountTargetDir(c.mount, scanPath).value < p
  {
    hide MediaOutputPaths, MountTargetDir, Canonical, Stable, EscapeProviderPath, ValidOutputName;
    var root := MountTargetDir(c.mount, scanPath).value;
    if j :| IsJob(c, items, j) && j.target == p {
      if x :| x in items && DirectoryJob(c, x) == Some(j) {
        TargetDirBelow(c.mount, scanPath, x.parent);
      } else {
        var m, x :| m in items && x in items && SidecarJob(c, m, x) == Some(j);
        MediaTargetBelow(c.mount, scanPath, m);
      }
    } else {
      var s :| IsStrm(c, items, s) && s.target == p;
      var m :| m in items && StrmOf(c, m) == Some(s);
      MediaTargetBelow(c.mount, scanPath, m);
    }
  }

  // ---- What every write keeps ----

  ghost predicate Progress(
    c: Config, items: seq<Item>, before: Files, files: Files, expected: set<Path>, synced: set<Path>)
  {
    && (forall p :: p in synced ==> p in expected && Written(c, items, files, p))
    && (forall p :: p in expected ==> ExpectedAt(c, items, p))
    && (forall p :: p !in expected ==> Same(before, files, p))
    && (forall p :: p in before ==> p in files && (!c.overwrite ==> files[p] == before[p]))
    && (forall p :: p in files ==> (p in before && files[p] == before[p]) || Produced(c, items, p, files[p]))
  }

  // A file is there, with the text of this scan when files are overwritten.
  ghost predicate Written(c: Config, items: seq<Item>, files: Files, p: Path) {
    p in files && (c.overwrite ==> Produced(c, items, p, files[p]))
  }

  lemma Expecting(c: Config, items: seq<Item>, before: Files, files: Files, expected: set<Path>, synced: set<Path>, p: Path)
    requires Progress(c, items, before, files, expected, synced) && ExpectedAt(c, items, p)
    ensures Progress(c, items, before, files, expected + {p}, synced)
    ensures Written(c, items, files, p) ==> Progress(c, items, before, files, expected + {p}, synced + {p})
  {
    hide ExpectedAt, Produced;
  }

  lemma Writing(
    c: Config, items: seq<Item>, before: Files, files: Files, expected: set<Path>, synced: set<Path>, p: Path, text: string)
    requires Progress(c, items, before, files, expected, synced) && p in expected
    requires Produced(c, items, p, text) && (c.overwrite || p !in files)
    ensures Progress(c, items, before, files[p := text], expected, synced)
    ensures Written(c, items, files[p := text], p)
    ensures forall q :: Written(c, items, files, q) ==> Written(c, items, files[p := text], q)
  {
    hide ExpectedAt, Produced;
  }

  lemma JobProduces(c: Config, items: seq<Item>, j: Job, text: string)
    requires IsJob(c, items, j) && c.cloud(j.source) == Content(text)
    ensures Produced(c, items, j.target, text)
  {
  }

  lemma StrmProduces(c: Config, items: seq<Item>, m: Item)
    requires m in items && StrmOf(c, m).Some?
    ensures var s := StrmOf(c, m).value; Produced(c, items, s.target, s.url) && ExpectedAt(c, items, s.target)
  {
    assert IsStrm(c, items, StrmOf(c, m).value);
  }

  // Nothing already expected or written is lost.
  ghost predicate Grows(
    c: Config, items: seq<Item>, files: Files, expected: set<Path>, files': Files, expected': set<Path>)
  {
    expected <= expected' && forall q :: Written(c, items, files, q) ==> Written(c, items, files', q)
  }

  // The target of a job is expected, and is there unless its download failed.
  ghost predicate JobDone(c: Config, items: seq<Item>, j: Job, files: Files, expected: set<Path>) {
    j.target in expected && (Written(c, items, files, j.target) || c.cloud(j.source).Failed?)
  }

  ghost predicate DirectoryDone(c: Config, items: seq<Item>, d: string, files: Files, expected: set<Path>) {
    forall x :: x in items && x.parent == d && DirectoryJob(c, x).Some? ==>
      JobDone(c, items, DirectoryJob(c, x).value, files, expected)
  }

  ghost predicate SidecarsDone(c: Config, items: seq<Item>, m: Item, files: Files, expected: set<Path>) {
    forall x :: x in items && SidecarJob(c, m, x).Some? ==> JobDone(c, items, SidecarJob(c, m, x).value, files, expected)
  }

  ghost predicate StrmDone(c: Config, items: seq<Item>, m: Item, files: Files, expected: set<Path>) {
    && (c.rules.strm && IsMediaItem(c, m) ==> StrmOf(c, m).Some?)
    && (StrmOf(c, m).Some? ==> StrmOf(c, m).value.target in expected && Written(c, items, files, StrmOf(c, m).value.target))
  }

  // Every directory and every media item has had its turn.
  ghost predicate AllDone(c: Config, items: seq<Item>, files: Files, expected: set<Path>) {
    && (forall d :: DirectoryDone(c, items, d, files, expected))
    && (forall m :: m in items ==> SidecarsDone(c, items, m, files, expected) && StrmDone(c, items, m, files, expected))
  }

  // ---- When a scan of a mount succeeds ----

  // Its file and the directory it lies in have a place among the outputs.
  predicate Placeable(c: Config, x: Item) {
    !x.isDir ==> MountTargetDir(c.mount, x.parent).Ok? && (IsMediaItem(c, x) ==> MediaOutputPaths(c.mount, x.path).Ok?)
  }

  ghost predicate AllPlaceable(c: Config, items: seq<Item>) {
    forall x :: x in items ==> Placeable(c, x)
  }

  // Some download is cancelled if it is asked for.
  ghost predicate MayBeCancelled(c: Config, items: seq<Item>) {
    exists j :: IsJob(c, items, j) && c.cloud(j.source).Cancelled?
  }

  // The output tree of each ignored directory may be removed: it is not the output root.
  ghost predicate Removable(mount: Mount, ignored: seq<string>) {
    forall d :: d in ignored ==> MountTargetDir(mount, d).Ok? && MountTargetDir(mount, d).value != []
  }

  lemma AllDoneIsComplete(c: Config, items: seq<Item>, files: Files, expected: set<Path>, p: Path)
    requires AllDone(c, items, files, expected) && ExpectedAt(c, items, p)
    ensures p in expected
  {
    hide DirectoryJob, SidecarJob, StrmOf, Written;
    if j :| IsJob(c, items, j) && j.target == p {
      if x :| x in items && DirectoryJob(c, x) == Some(j) {
        assert DirectoryDone(c, items, x.parent, files, expected);
      } else {
        var m, x :| m in items && x in items && SidecarJob(c, m, x) == Some(j);
        assert SidecarsDone(c, items, m, files, expected);
      }
    } else {
      var s :| IsStrm(c, items, s) && s.target == p;
      var m :| m in items && StrmOf(c, m) == Some(s);
      assert StrmDone(c, items, m, files, expected);
    }
  }

  // cleanupIgnoredOutputDir and the deletions of cleanupStaleOutputs, on files.
  function WithoutTree(files: Files, dir: Path): Files {
    map p | p in files && !(dir <= p) :: files[p]
  }

  function OnlyExpected(files: Files, targetRoot: Path, expected: set<Path>): Files {
    map p | p in files && (targetRoot <= p ==> p in expected) :: files[p]
  }

  ghost predicate UnderIgnored(mount: Mount, ignored: seq<string>, p: Path) {
    exists d :: d in ignored && MountTargetDir(mount, d).Ok? && MountTargetDir(mount, d).value <= p
  }

  // The output p went with the output tree of an ignored directory: it has the path of that
  // tree itself, or a file below the directory is indexed all the same.
  ghost predicate TakenByIgnored(mount: Mount, items: seq<Item>, ignored: seq<string>, p: Path) {
    exists d :: d in ignored && MountTargetDir(mount, d).Ok? && TakenBy(mount, items, d, p)
  }

  ghost predicate TakenBy(mount: Mount, items: seq<Item>, d: string, p: Path)
    requires MountTargetDir(mount, d).Ok?
  {
    || MountTargetDir(mount, d).value == p
    || (MountTargetDir(mount, d).value < p && exists x :: x in items && !x.isDir && Segments(d) <= Segments(x.parent))
  }

  // An output that lies below the output of a directory comes from a file below it.
  lemma OutputBelow(root: Path, above: Path, d: Path, parent: Path, name: string)
    requires above <= d && above <= parent && root + d[|above|..] < root + parent[|above|..] + [name]
    ensures d <= parent
  {
    var r, q := root + d[|above|..], root + parent[|above|..];
    assert r <= q by { assert (q + [name])[..|q|] == q; }
    assert r[|root|..] == d[|above|..] && q[|root|..] == parent[|above|..];
    assert d == above + d[|above|..] && parent == above + parent[|above|..];
  }

  lemma ExpectedBelowDirectory(c: Config, scanPath: string, items: seq<Item>, d: string, p: Path)
    requires Scope(c, scanPath, items) && ExpectedAt(c, items, p)
    requires Canonical(d) && MountTargetDir(c.mount, d).Ok? && MountTargetDir(c.mount, d).value <= p
    ensures TakenBy(c.mount, items, d, p)
  {
    hide MediaOutputPaths, MountTargetDir, MountOutputRoot, Canonical, Stable, EscapeProviderPath, ValidOutputName, Segments;
    TargetDirIs(c.mount, d);
    var root, above := MountOutputRoot(c.mount).value, Segments(c.mount.sourcePath);
    if MountTargetDir(c.mount, d).value < p {
      var x := ExpectedFrom(c, scanPath, items, p);
      OutputBelow(root, above, Segments(d), Segments(x.parent), p[|p| - 1]);
    }
  }

  lemma ExpectedUnderIgnored(c: Config, scanPath: string, items: seq<Item>, ignored: seq<string>, p: Path)
    requires Scope(c, scanPath, items) && ExpectedAt(c, items, p) && (forall d :: d in ignored ==> Canonical(d))
    ensures UnderIgnored(c.mount, ignored, p) ==> TakenByIgnored(c.mount, items, ignored, p)
  {
    hide MountTargetDir, ExpectedAt, Scope, Canonical, TakenBy;
    if d :| d in ignored && MountTargetDir(c.mount, d).Ok? && MountTargetDir(c.mount, d).value <= p {
      ExpectedBelowDirectory(c, scanPath, items, d, p);
    }
  }

  // The indexed file whose directory decides where an expected output lies.
  lemma ExpectedFrom(c: Config, scanPath: string, items: seq<Item>, p: Path) returns (x: Item)
    requires Scope(c, scanPath, items) && ExpectedAt(c, items, p)
    ensures x in items && !x.isDir && MountOutputRoot(c.mount).Ok? && Segments(c.mount.sourcePath) <= Segments(x.parent)
    ensures p != []
    ensures p == MountOutputRoot(c.mount).value + Segments(x.parent)[|Segments(c.mount.sourcePath)|..] + [p[|p| - 1]]
  {
    hide MediaOutputPaths, MountTargetDir, MountOutputRoot, Canonical, Stable, EscapeProviderPath, ValidOutputName, Segments;
    if j :| IsJob(c, items, j) && j.target == p {
      if y :| y in items && DirectoryJob(c, y) == Some(j) {
        x := y;
        TargetDirIs(c.mount, x.parent);
      } else {
        var m, y :| m in items && y in items && SidecarJob(c, m, y) == Some(j);
        x := m;
        MediaTargetSegments(c.mount, m);
      }
    } else {
      var s :| IsStrm(c, items, s) && s.target == p;
      var m :| m in items && StrmOf(c, m) == Some(s);
      x := m;
      MediaTargetSegments(c.mount, m);
    }
  }

  // Every indexed media file has its stream file, rewritten when files are overwritten.
  ghost predicate StreamsWritten(c: Config, items: seq<Item>, after: Files) {
    c.rules.strm ==> forall m :: m in items && IsMediaItem(c, m) ==>
      StrmOf(c, m).Some? && Written(c, items, after, StrmOf(c, m).value.target)
  }

  // Every file to be downloaded is there, downloaded anew when files are overwritten, unless
  // its download failed.
  ghost predicate DownloadsWritten(c: Config, items: seq<Item>, after: Files) {
    forall j :: IsJob(c, items, j) ==> Written(c, items, after, j.target) || c.cloud(j.source).Failed?
  }

  // Expected files that were there stay, even if their download fails, and without overwrite
  // they are as they were.
  ghost predicate ExpectedKept(c: Config, items: seq<Item>, ignored: seq<string>, before: Files, after: Files) {
    forall p :: p in before && ExpectedAt(c, items, p) && !TakenByIgnored(c.mount, items, ignored, p) ==>
      p in after && (!c.overwrite ==> Same(before, after, p))
  }

  // What a successful scan of one mount and path leaves behind below its target: expected
  // outputs alone, and no text but those of before, of the stream files and of the downloads.
  ghost predicate Reconciled(
    c: Config, items: seq<Item>, targetRoot: Path, ignored: seq<string>, before: Files, after: Files)
  {
    && (forall p :: p in after && targetRoot <= p ==> ExpectedAt(c, items, p))
    && (forall p :: p in after && targetRoot <= p ==>
          (p in before && after[p] == before[p]) || Produced(c, items, p, after[p]))
    && StreamsWritten(c, items, after)
    && DownloadsWritten(c, items, after)
    && ExpectedKept(c, items, ignored, before, after)
  }

  // The files after the output trees of ignored directories are gone.
  ghost predicate Cleared(mount: Mount, ignored: seq<string>, before: Files, files: Files) {
    forall p :: (p in files <==> p in before && !UnderIgnored(mount, ignored, p))
                && (p in files && p in before ==> files[p] == before[p])
  }

  lemma ClearedNext(mount: Mount, ignored: seq<string>, i: nat, before: Files, files: Files)
    requires i < |ignored| && MountTargetDir(mount, ignored[i]).Ok?
    requires Cleared(mount, ignored[..i], before, files)
    ensures Cleared(mount, ignored[..i + 1], before, WithoutTree(files, MountTargetDir(mount, ignored[i]).value))
  {
    hide MountTargetDir;
    assert ignored[..i + 1] == ignored[..i] + [ignored[i]];
    forall p ensures UnderIgnored(mount, ignored[..i + 1], p) <==>
                       UnderIgnored(mount, ignored[..i], p) || MountTargetDir(mount, ignored[i]).value <= p
    {
      assert forall d :: d in ignored[..i + 1] <==> d in ignored[..i] || d == ignored[i];
    }
  }

  ghost predicate SameOutside(a: Files, b: Files, root: Path) {
    forall p :: !(root <= p) ==> Same(a, b, p)
  }

  // Files are only missing below the output directory of an ignored one.
  ghost predicate KeptButIgnored(c: Config, ignored: seq<string>, before: Files, files: Files) {
    forall p :: p in before && !UnderIgnored(c.mount, ignored, p) ==> p in files
  }

  lemma SameOutsideTransitive(a: Files, b: Files, d: Files, root: Path)
    requires SameOutside(a, b, root) && SameOutside(b, d, root)
    ensures SameOutside(a, d, root)
  {
    forall p | !(root <= p) ensures Same(a, d, p) {
      assert Same(a, b, p) && Same(b, d, p);
    }
  }

  lemma NothingCleared(mount: Mount, files: Files)
    ensures Cleared(mount, [], files, files)
  {
  }

  // Ignored directories lie below the scanned path, so clearing touches only its target.
  lemma ClearedKeeps(
    c: Config, scanPath: string, items: seq<Item>, ignored: seq<string>, i: nat, before: Files, files: Files)
    requires i <= |ignored| && Scope(c, scanPath, items) && Cleared(c.mount, ignored[..i], before, files)
    requires forall d :: d in ignored ==> Canonical(d) && Segments(scanPath) <= Segments(d)
    ensures KeptButIgnored(c, ignored, before, files)
    ensures SameOutside(before, files, MountTargetDir(c.mount, scanPath).value)
  {
    hide Canonical, MountTargetDir, Segments, Stable, ItemBelow;
    var root := MountTargetDir(c.mount, scanPath).value;
    forall p ensures UnderIgnored(c.mount, ignored[..i], p) ==> UnderIgnored(c.mount, ignored, p) && root <= p {
      if d :| d in ignored[..i] && MountTargetDir(c.mount, d).Ok? && MountTargetDir(c.mount, d).value <= p {
        TargetDirBelow(c.mount, scanPath, d);
      }
    }
  }

  lemma NoProgress(c: Config, items: seq<Item>, files: Files)
    ensures Progress(c, items, files, files, {}, {})
  {
    hide ExpectedAt, Produced;
  }

  lemma ProgressKeeps(
    c: Config, scanPath: string, items: seq<Item>, before: Files, files: Files, expected: set<Path>, synced: set<Path>)
    requires Scope(c, scanPath, items) && Progress(c, items, before, files, expected, synced)
    ensures forall p :: p in before ==> p in files
    ensures SameOutside(before, files, MountTargetDir(c.mount, scanPath).value)
  {
    var root := MountTargetDir(c.mount, scanPath).value;
    forall p | p in expected ensures root <= p {
      ExpectedBelowTarget(c, scanPath, items, p);
    }
    hide ExpectedAt, Produced, Scope, MountTargetDir;
  }

  lemma OutsideKept(files: Files, targetRoot: Path, expected: set<Path>)
    ensures SameOutside(files, OnlyExpected(files, targetRoot, expected), targetRoot)
  {
  }

  // Writing every output and then deleting the rest below the target reconciles the files.
  lemma CleanupReconciles(
    c: Config, scanPath: string, items: seq<Item>, targetRoot: Path, ignored: seq<string>, before: Files, cleared: Files,
    files: Files, expected: set<Path>, synced: set<Path>)
    requires Scope(c, scanPath, items) && (forall d :: d in ignored ==> Canonical(d))
    requires Cleared(c.mount, ignored, before, cleared)
    requires Progress(c, items, cleared, files, expected, synced)
    requires AllDone(c, items, files, expected)
    ensures Reconciled(c, items, targetRoot, ignored, before, OnlyExpected(files, targetRoot, expected))
  {
    hide UnderIgnored, Produced, Scope, Canonical, ExpectedAt, StreamsWritten, DownloadsWritten, ExpectedKept, AllDone;
    StreamsAreWritten(c, items, targetRoot, files, expected);
    DownloadsAreWritten(c, items, targetRoot, files, expected);
    ExpectedIsKept(c, scanPath, items, targetRoot, ignored, before, cleared, files, expected, synced);
  }

  lemma StreamsAreWritten(c: Config, items: seq<Item>, targetRoot: Path, files: Files, expected: set<Path>)
    requires AllDone(c, items, files, expected)
    ensures StreamsWritten(c, items, OnlyExpected(files, targetRoot, expected))
  {
    hide Produced, SidecarsDone, DirectoryDone;
    forall m | m in items && IsMediaItem(c, m) && c.rules.strm
      ensures StrmOf(c, m).Some? && Written(c, items, OnlyExpected(files, targetRoot, expected), StrmOf(c, m).value.target)
    {
      assert StrmDone(c, items, m, files, expected);
      hide StrmOf;
    }
  }

  lemma DownloadsAreWritten(c: Config, items: seq<Item>, targetRoot: Path, files: Files, expected: set<Path>)
    requires AllDone(c, items, files, expected)
    ensures DownloadsWritten(c, items, OnlyExpected(files, targetRoot, expected))
  {
    hide Produced, DirectoryJob, SidecarJob, StrmDone;
    forall j | IsJob(c, items, j) ensures JobDone(c, items, j, files, expected) {
      if x :| x in items && DirectoryJob(c, x) == Some(j) {
        assert DirectoryDone(c, items, x.parent, files, expected);
      } else {
        var m, x :| m in items && x in items && SidecarJob(c, m, x) == Some(j);
        assert SidecarsDone(c, items, m, files, expected);
      }
    }
    hide IsJob;
  }

  lemma ExpectedIsKept(
    c: Config, scanPath: string, items: seq<Item>, targetRoot: Path, ignored: seq<string>, before: Files, cleared: Files,
    files: Files, expected: set<Path>, synced: set<Path>)
    requires Scope(c, scanPath, items) && (forall d :: d in ignored ==> Canonical(d))
    requires Cleared(c.mount, ignored, before, cleared)
    requires Progress(c, items, cleared, files, expected, synced)
    requires AllDone(c, items, files, expected)
    ensures ExpectedKept(c, items, ignored, before, OnlyExpected(files, targetRoot, expected))
  {
    hide UnderIgnored, TakenByIgnored, Produced, Scope, Canonical, ExpectedAt, AllDone;
    var after := OnlyExpected(files, targetRoot, expected);
    forall p | p in before && ExpectedAt(c, items, p) && !TakenByIgnored(c.mount, items, ignored, p)
      ensures p in after && (!c.overwrite ==> Same(before, after, p))
    {
      ExpectedUnderIgnored(c, scanPath, items, ignored, p);
      AllDoneIsComplete(c, items, files, expected, p);
      assert p in cleared;
    }
  }

  // validateMountOutputIsolation between two mounts: neither output root is below the other.
  predicate Isolated(mount: Mount, other: Mount) {
    var root, otherRoot := MountOutputRoot(mount), MountOutputRoot(other);
    root.Ok? && otherRoot.Ok? && !(root.value <= otherRoot.value) && !(otherRoot.value <= root.value)
  }

  // Two mounts are isolated if and only if both targets are accepted and no file lies below
  // both output roots.
  lemma IsolatedIff(mount: Mount, other: Mount)
    ensures Isolated(mount, other) <==>
              && MountOutputRoot(mount).Ok? && MountOutputRoot(other).Ok?
              && forall p :: !UnderBoth(MountOutputRoot(mount).value, MountOutputRoot(other).value, p)
  {
    hide MountOutputRoot;
    if MountOutputRoot(mount).Ok? && MountOutputRoot(other).Ok? {
      var root, otherRoot := MountOutputRoot(mount).value, MountOutputRoot(other).value;
      forall p ensures UnderBoth(root, otherRoot, p) ==> root <= otherRoot || otherRoot <= root {
        ComparablePrefixes(root, otherRoot, p);
      }
      assert root <= otherRoot ==> UnderBoth(root, otherRoot, otherRoot);
      assert otherRoot <= root ==> UnderBoth(root, otherRoot, root);
    }
  }

  predicate UnderBoth(a: Path, b: Path, p: Path) {
    a <= p && b <= p
  }

  // A scan changes no file of a mount it is isolated from.
  lemma OtherMountsUntouched(c: Config, scanPath: string, other: Mount, before: Files, after: Files, p: Path)
    requires Canonical(scanPath) && Stable(c.mount.sourcePath) && MountTargetDir(c.mount, scanPath).Ok?
    requires SameOutside(before, after, MountTargetDir(c.mount, scanPath).value)
    requires Isolated(c.mount, other) && MountOutputRoot(other).value <= p
    ensures Same(before, after, p)
  {
    hide MountOutputRoot, MountTargetDir, Canonical, Stable, Same;
    TargetDirIs(c.mount, scanPath);
    var root, otherRoot := MountOutputRoot(c.mount).value, MountOutputRoot(other).value;
    var target := MountTargetDir(c.mount, scanPath).value;
    assert root <= target;
    ComparablePrefixes(root, otherRoot, p);
  }

  lemma ComparablePrefixes(a: Path, b: Path, p: Path)
    ensures a <= p && b <= p ==> a <= b || b <= a
  {
  }

  // The output of a media file: below the output root, its parent below the mount's source.
  lemma MediaTargetSegments(mount: Mount, m: Item)
    requires Canonical(m.path) && Stable(mount.sourcePath) && Segments(m.path) == Segments(m.parent) + [m.name]
    requires MediaOutputPaths(mount, m.path).Ok?
    ensures MountOutputRoot(mount).Ok? && Segments(mount.sourcePath) <= Segments(m.parent)
    ensures MediaOutputPaths(mount, m.path).value
         == MediaPaths(MountOutputRoot(mount).value + Segments(m.parent)[|Segments(mount.sourcePath)|..],
                       WithoutExtension(m.name))
  {
    hide OutputRelativePath, MountOutputRoot, Segments, Canonical, Stable, WithoutExtension;
    RelativeSegments(m.path, mount.sourcePath);
    var above := |Segments(mount.sourcePath)|;
    assert OutputRelativePath(m.path, mount.sourcePath).value != [];
    assert Segments(m.path)[..|Segments(m.parent)|] == Segments(m.parent);
    assert Segments(m.path)[above..] == Segments(m.parent)[above..] + [m.name];
  }

  lemma SameTargetIff(root: Path, above: Path, a: Path, b: Path, x: string, y: string)
    requires above <= a && above <= b
    ensures root + a[|above|..] + [x + ".strm"] == root + b[|above|..] + [y + ".strm"] <==> a == b && x == y
  {
    var p, q := root + a[|above|..] + [x + ".strm"], root + b[|above|..] + [y + ".strm"];
    if p == q {
      assert p[|p| - 1] == x + ".strm" && q[|q| - 1] == y + ".strm";
      assert (x + ".strm")[..|x|] == x && (y + ".strm")[..|y|] == y;
      assert p[|root|..|p| - 1] == a[|above|..] && q[|root|..|q| - 1] == b[|above|..];
      assert a == above + a[|above|..] && b == above + b[|above|..];
    }
  }

  // Two media files share a stream file if and only if they lie in one directory and
  // their names differ at most in the extension. So the map from media to outputs is not
  // injective.
  lemma SharedStreamFileIff(c: Config, m: Item, n: Item)
    requires Canonical(m.path) && Canonical(n.path) && Stable(c.mount.sourcePath)
    requires Segments(m.path) == Segments(m.parent) + [m.name] && Segments(n.path) == Segments(n.parent) + [n.name]
    requires StrmOf(c, m).Some? && StrmOf(c, n).Some?
    ensures StrmOf(c, m).value.target == StrmOf(c, n).value.target <==>
              Segments(m.parent) == Segments(n.parent) && WithoutExtension(m.name) == WithoutExtension(n.name)
  {
    hide MediaOutputPaths, MountOutputRoot, Segments, Canonical, Stable, WithoutExtension, EscapeProviderPath;
    MediaTargetSegments(c.mount, m);
    MediaTargetSegments(c.mount, n);
    SameTargetIff(MountOutputRoot(c.mount).value, Segments(c.mount.sourcePath), Segments(m.parent), Segments(n.parent),
                  WithoutExtension(m.name), WithoutExtension(n.name));
  }

  // The stream file of a media file: in the directory its own directory is mapped to, under
  // its name with another extension.
  ghost predicate StreamPlace(mount: Mount, m: Item, p: Path) {
    MountTargetDir(mount, m.parent).Ok? && p == MountTargetDir(mount, m.parent).value + [WithoutExtension(m.name) + ".strm"]
  }

  lemma StreamIff(c: Config, scanPath: string, items: seq<Item>, m: Item)
    requires Scope(c, scanPath, items) && m in items
    ensures StrmOf(c, m).Some? <==> c.rules.strm && IsMediaItem(c, m) && AcceptedCharacters(m.path)
    ensures StrmOf(c, m).Some? ==> StreamPlace(c.mount, m, StrmOf(c, m).value.target)
  {
    hide MountTargetDir, MountOutputRoot, MediaOutputPaths, Segments, Canonical, Stable, WithoutExtension, EscapeProviderPath;
    if IsMediaItem(c, m) {
      ScopeIsWithinMount(c, scanPath, items, m);
      MediaPlacedIff(c.mount, m);
      if AcceptedCharacters(m.path) {
        AcceptedChild(m);
        PlacedIff(c.mount, m.parent);
        hide AcceptedCharacters, ValidOutputName;
        MediaTargetIs(c.mount, m);
      }
    }
  }

  // A download of a file that the rules want goes to the place of that file.
  ghost predicate DownloadPlace(c: Config, items: seq<Item>, x: Item, p: Path) {
    !x.isDir && Wanted(c, items, x) && MountTargetDir(c.mount, x.path) == Ok(p)
  }

  // What a scan expects, in terms of the rows and the rules alone: the place of each file the
  // rules want, and with stream files on that of the stream file of each media file.
  lemma ExpectedIff(c: Config, scanPath: string, items: seq<Item>, p: Path)
    requires Scope(c, scanPath, items)
    ensures ExpectedAt(c, items, p) <==>
              || (exists x :: x in items && DownloadPlace(c, items, x, p))
              || (c.rules.strm && exists m :: m in items && IsMediaItem(c, m) && AcceptedCharacters(m.path)
                                           && StreamPlace(c.mount, m, p))
  {
    hide Scope, MountTargetDir, IsJob, StrmOf, Wanted, AcceptedCharacters, WithoutExtension;
    if j :| IsJob(c, items, j) && j.target == p {
      JobIsCopy(c, scanPath, items, j);
      var x :| x in items && !x.isDir && x.path == j.source && MountTargetDir(c.mount, x.path) == Ok(j.target);
      DownloadedIff(c, scanPath, items, x);
      assert DownloadPlace(c, items, x, p);
    }
    if x :| x in items && DownloadPlace(c, items, x, p) {
      DownloadedIff(c, scanPath, items, x);
      var j :| IsJob(c, items, j) && j.source == x.path;
      JobIsCopy(c, scanPath, items, j);
    }
    forall m | m in items
      ensures StrmOf(c, m).Some? <==> c.rules.strm && IsMediaItem(c, m) && AcceptedCharacters(m.path)
      ensures StrmOf(c, m).Some? ==> StreamPlace(c.mount, m, StrmOf(c, m).value.target)
    {
      StreamIff(c, scanPath, items, m);
    }
    hide IsMediaItem;
    if m :| c.rules.strm && m in items && IsMediaItem(c, m) && AcceptedCharacters(m.path) && StreamPlace(c.mount, m, p) {
      assert IsStrm(c, items, StrmOf(c, m).value);
    }
  }

  // ---- Where the text of a stream file leads ----

  // The base, a slash, and what decodes to the bytes of the path.
  predicate LeadsTo(c: Config, text: string, path: string) {
    c.streamBase + "/" <= text && DecodeProviderPath(text[|c.streamBase| + 1..]) == Ok(Utf8(path))
  }

  // The stream file of a media file leads to that very file, and no text leads to two.
  lemma StreamLeadsToMedia(c: Config, m: Item)
    requires Canonical(m.path) && StrmOf(c, m).Some?
    ensures LeadsTo(c, StrmOf(c, m).value.url, m.path)
  {
    assert Normalize(m.path) == m.path;
    hide LeadsTo, EscapeProviderPath, Canonical, MediaOutputPaths, Normalize;
    TextLeads(c, m.path);
  }

  lemma TextLeads(c: Config, path: string)
    ensures LeadsTo(c, c.streamBase + EscapeProviderPath(path), Normalize(path))
  {
    EscapedIsRooted(path);
    hide DecodeProviderPath, EscapeProviderPath, Normalize;
    DecodeUndoesEscape(path);
    AfterBase(c.streamBase, EscapeProviderPath(path));
  }

  lemma EscapedIsRooted(path: string)
    ensures "/" <= EscapeProviderPath(path)
  {
    hide Join, EscapeAll, Normalize;
  }

  lemma AfterBase(base: string, escaped: string)
    requires "/" <= escaped
    ensures base + "/" <= base + escaped && (base + escaped)[|base| + 1..] == escaped[1..]
  {
    assert escaped == "/" + escaped[1..];
  }

  lemma LeadsToOne(c: Config, text: string, p: string, q: string)
    requires LeadsTo(c, text, p) && LeadsTo(c, text, q)
    ensures p == q
  {
    hide DecodeProviderPath;
    Utf8Injective(p, q);
  }

  // Media files share the text of their stream files if and only if they are the same file.
  lemma StreamTextsDistinct(c: Config, m: Item, n: Item)
    requires Canonical(m.path) && Canonical(n.path) && StrmOf(c, m).Some? && StrmOf(c, n).Some?
    ensures StrmOf(c, m).value.url == StrmOf(c, n).value.url <==> m.path == n.path
  {
    StreamLeadsToMedia(c, m);
    StreamLeadsToMedia(c, n);
    if StrmOf(c, m).value.url == StrmOf(c, n).value.url {
      hide LeadsTo;
      LeadsToOne(c, StrmOf(c, m).value.url, m.path, n.path);
    }
  }

  // The file at p leads to a media file whose stream file it is.
  ghost predicate LeadsHome(c: Config, items: seq<Item>, p: Path, text: string) {
    exists n :: n in items && IsMediaItem(c, n) && StrmOf(c, n).Some? && StrmOf(c, n).value.target == p
                && LeadsTo(c, text, n.path)
  }

  // Stream files written by the scan, new ones and with overwrite all, lead to media files
  // whose stream files they are, unless a download has the same path.
  ghost predicate StreamsLead(c: Config, items: seq<Item>, before: Files, after: Files) {
    c.rules.strm ==> forall m :: m in items && IsMediaItem(c, m) ==>
      StrmOf(c, m).Some?
      && var p := StrmOf(c, m).value.target;
         p in after && ((c.overwrite || p !in before) && !JobAt(c, items, p) ==> LeadsHome(c, items, p, after[p]))
  }

  ghost predicate JobAt(c: Config, items: seq<Item>, p: Path) {
    exists j :: IsJob(c, items, j) && j.target == p
  }

  lemma ReconciledLeads(
    c: Config, scanPath: string, items: seq<Item>, ignored: seq<string>, before: Files, after: Files)
    requires Scope(c, scanPath, items)
    requires Reconciled(c, items, MountTargetDir(c.mount, scanPath).value, ignored, before, after)
    ensures StreamsLead(c, items, before, after)
  {
    hide MountTargetDir, StrmOf, IsJob, Stable, LeadsTo, DownloadsWritten, ExpectedKept, Canonical;
    forall m | m in items && IsMediaItem(c, m) && c.rules.strm
      ensures StrmOf(c, m).Some?
      ensures var p := StrmOf(c, m).value.target;
              p in after && ((c.overwrite || p !in before) && !JobAt(c, items, p) ==> LeadsHome(c, items, p, after[p]))
    {
      var p := StrmOf(c, m).value.target;
      StrmProduces(c, items, m);
      ExpectedBelowTarget(c, scanPath, items, p);
      if (c.overwrite || p !in before) && !JobAt(c, items, p) {
        assert Produced(c, items, p, after[p]);
        var n :| n in items && StrmOf(c, n) == Some(Strm(p, after[p]));
        StrmIsMedia(c, n);
        StreamLeadsToMedia(c, n);
      }
    }
  }

  lemma StrmIsMedia(c: Config, n: Item)
    requires StrmOf(c, n).Some?
    ensures IsMediaItem(c, n)
  {
  }

  // ---- The object ----

  class MountScan {
    const c: Config
    const items: seq<Item>
    var files: Files
    var expected: set<Path>
    var synced: set<Path>

    constructor (c: Config, items: seq<Item>, files: Files)
      ensures this.c == c && this.items == items && this.files == files && expected == {} && synced == {}
    {
      this.c, this.items, this.files := c, items, files;
      expected, synced := {}, {};
    }

    ghost predicate InProgress(before: Files)
      reads this
    {
      Progress(c, items, before, files, expected, synced)
    }

    // cleanupIgnoredOutputDir: refuses to remove the output root itself.
    method RemoveIgnored(dir: string) returns (ok: bool)
      modifies this`files
      ensures ok <==> MountTargetDir(c.mount, dir).Ok? && MountTargetDir(c.mount, dir).value != []
      ensures files == if ok then WithoutTree(old(files), MountTargetDir(c.mount, dir).value) else old(files)
    {
      var outputDir := MountTargetDir(c.mount, dir);
      if outputDir.Err? || outputDir.value == [] {
        return false;
      }
      files := WithoutTree(files, outputDir.value);
      return true;
    }

    // The write of a file that is expected from then on: not over one that is there, unless
    // files are overwritten.
    method WriteExpected(p: Path, text: string, ghost before: Files)
      requires InProgress(before) && Produced(c, items, p, text) && ExpectedAt(c, items, p)
      modifies this`files, this`expected
      ensures InProgress(before) && expected == old(expected) + {p} && Written(c, items, files, p)
      ensures Grows(c, items, old(files), old(expected), files, expected)
      ensures files == if c.overwrite || p !in old(files) then old(files)[p := text] else old(files)
    {
      Expecting(c, items, before, files, expected, synced, p);
      hide Progress, Produced, ExpectedAt;
      if c.overwrite || p !in files {
        Writing(c, items, before, files, expected + {p}, synced, p, text);
        files := files[p := text];
      }
      expected := expected + {p};
    }

    // An entry in the synced outputs, for a file that is there and need not be written again.
    method MarkSynced(p: Path, ghost before: Files)
      requires InProgress(before) && p in expected && Written(c, items, files, p)
      modifies this`synced
      ensures InProgress(before) && synced == old(synced) + {p}
    {
      hide Produced, ExpectedAt;
      synced := synced + {p};
    }

    // The entry in the expected outputs with which syncJob begins.
    method Expect(p: Path, ghost before: Files)
      requires InProgress(before) && ExpectedAt(c, items, p)
      modifies this`expected
      ensures InProgress(before) && expected == old(expected) + {p}
    {
      Expecting(c, items, before, files, expected, synced, p);
      expected := expected + {p};
    }

    // The closure syncJob of scanMount.
    method SyncJob(job: Job, ghost before: Files) returns (ok: bool)
      requires InProgress(before) && IsJob(c, items, job)
      modifies this
      ensures InProgress(before)
      ensures Grows(c, items, old(files), old(expected), files, expected)
      ensures ok ==> JobDone(c, items, job, files, expected)
      ensures !ok ==> MayBeCancelled(c, items)
      ensures expected == old(expected) + {job.target}
      ensures files == old(files) || (job.target in files && files == old(files)[job.target := files[job.target]])
      ensures job.target in old(synced) || (!c.overwrite && job.target in old(files)) ==> ok && files == old(files)
    {
      assert c.cloud(job.source).Cancelled? ==> MayBeCancelled(c, items);
      assert ExpectedAt(c, items, job.target);
      var p := job.target;
      WrittenIf(before, p);
      hide IsJob, Produced, ExpectedAt, MayBeCancelled, Progress, Written;
      Expect(p, before);
      if p in synced {
        return true;
      }
      if !c.overwrite && p in files {
        MarkSynced(p, before);
        return true;
      }
      match c.cloud(job.source)
      case Cancelled => return false;
      case Failed => return true;
      case Content(text) =>
        JobProduces(c, items, job, text);
        WriteExpected(p, text, before);
        MarkSynced(p, before);
        return true;
    }

    lemma WrittenIf(before: Files, p: Path)
      requires InProgress(before)
      ensures p in synced || (!c.overwrite && p in files) ==> Written(c, items, files, p)
    {
      hide Produced, ExpectedAt;
    }

    // writeSTRM, and the entry its caller makes in the expected outputs.
    method WriteStrm(m: Item, ghost before: Files) returns (ok: bool)
      requires InProgress(before) && m in items && IsMediaItem(c, m) && c.rules.strm
      modifies this
      ensures InProgress(before)
      ensures Grows(c, items, old(files), old(expected), files, expected)
      ensures ok <==> MediaOutputPaths(c.mount, m.path).Ok?
      ensures ok ==> StrmOf(c, m).Some? && StrmDone(c, items, m, files, expected)
      ensures ok ==> var p := StrmOf(c, m).value.target;
                     expected == old(expected) + {p}
                     && (p in files && p in old(files) && !c.overwrite ==> files == old(files))
                     && (p in files && (c.overwrite || p !in old(files)) ==>
                           files == old(files)[p := files[p]] && LeadsTo(c, files[p], Normalize(m.path)))
    {
      hide MediaOutputPaths, EscapeProviderPath, Progress, Produced, ExpectedAt;
      var paths := MediaOutputPaths(c.mount, m.path);
      if paths.Err? {
        return false;
      }
      var p := paths.value.targetDir + [paths.value.baseName + ".strm"];
      var url := c.streamBase + EscapeProviderPath(m.path);
      TextLeads(c, m.path);
      StrmProduces(c, items, m);
      hide LeadsTo;
      WriteExpected(p, url, before);
      return true;
    }

    // The jobs of one directory, built from the files indexed there.
    method SyncDirectory(d: string, entries: seq<Item>, ghost before: Files) returns (ok: bool)
      requires InProgress(before)
      requires forall x :: x in entries <==> x in items && !x.isDir && x.parent == d
      modifies this
      ensures InProgress(before)
      ensures Grows(c, items, old(files), old(expected), files, expected)
      ensures ok ==> DirectoryDone(c, items, d, files, expected)
      ensures ok ==> MountTargetDir(c.mount, d).Ok?
      ensures !ok ==> MountTargetDir(c.mount, d).Err? || MayBeCancelled(c, items)
    {
      hide Progress, Written, MountTargetDir, ValidOutputName, MayBeCancelled;
      var targetDir := MountTargetDir(c.mount, d);
      if targetDir.Err? {
        return false;
      }
      for i := 0 to |entries|
        invariant InProgress(before)
        invariant Grows(c, items, old(files), old(expected), files, expected)
        invariant forall k :: 0 <= k < i && DirectoryJob(c, entries[k]).Some? ==>
                    JobDone(c, items, DirectoryJob(c, entries[k]).value, files, expected)
      {
        var x := entries[i];
        if ValidOutputName(x.name) && c.rules.directoryFile(x.name) {
          var job := Job(x.path, targetDir.value + [x.name]);
          assert DirectoryJob(c, x) == Some(job);
          ok := SyncJob(job, before);
          if !ok {
            return false;
          }
        }
      }
      return true;
    }

    // The stream file and the sidecars of one media item.
    method GenerateMedia(m: Item, siblings: seq<Item>, ghost before: Files) returns (ok: bool)
      requires InProgress(before) && m in items && IsMediaItem(c, m)
      requires forall x :: x in siblings <==> x in items && !x.isDir && x.parent == m.parent
      modifies this
      ensures InProgress(before)
      ensures Grows(c, items, old(files), old(expected), files, expected)
      ensures ok ==> StrmDone(c, items, m, files, expected) && SidecarsDone(c, items, m, files, expected)
      ensures ok ==> MediaOutputPaths(c.mount, m.path).Ok?
      ensures !ok ==> MediaOutputPaths(c.mount, m.path).Err? || MayBeCancelled(c, items)
    {
      hide Progress, Written, MediaOutputPaths, ValidOutputName, EscapeProviderPath, MayBeCancelled;
      if c.rules.strm {
        ok := WriteStrm(m, before);
        if !ok {
          return false;
        }
      }
      var paths := MediaOutputPaths(c.mount, m.path);
      if paths.Err? {
        return false;
      }
      for i := 0 to |siblings|
        invariant InProgress(before)
        invariant Grows(c, items, old(files), old(expected), files, expected)
        invariant StrmDone(c, items, m, files, expected)
        invariant forall k :: 0 <= k < i && SidecarJob(c, m, siblings[k]).Some? ==>
                    JobDone(c, items, SidecarJob(c, m, siblings[k]).value, files, expected)
      {
        var x := siblings[i];
        if x.path != m.path && ValidOutputName(x.name) && c.rules.sidecar(paths.value.baseName, x.name) {
          var job := Job(x.path, paths.value.targetDir + [x.name]);
          assert SidecarJob(c, m, x) == Some(job);
          ok := SyncJob(job, before);
          if !ok {
            return false;
          }
        }
      }
      return true;
    }

    // cleanupStaleOutputs: walks the tree below the target and removes what is not expected.
    method CleanupStaleOutputs(targetRoot: Path)
      modifies this`files
      ensures files == OnlyExpected(old(files), targetRoot, expected)
    {
      var rest := set p | p in files && targetRoot <= p;
      while rest != {}
        invariant rest <= files.Keys && forall p :: p in rest ==> targetRoot <= p
        invariant forall p :: p in files ==> p in old(files) && files[p] == old(files)[p]
        invariant forall p :: p in files && targetRoot <= p ==> p in expected || p in rest
        invariant forall p :: p in old(files) && (targetRoot <= p ==> p in expected) ==> p in files
        decreases |rest|
      {
        var p :| p in rest;
        if p !in expected {
          files := files - {p};
        }
        rest := rest - {p};
      }
    }
  
    // filesByDir and mediaEntries of scanMount.
    method GroupItems() returns (filesByDir: map<string, seq<Item>>, media: seq<Item>)
      ensures forall d, x :: d in filesByDir ==> (x in filesByDir[d] <==> x in items && !x.isDir && x.parent == d)
      ensures forall d :: d in filesByDir ==> filesByDir[d] != []
      ensures forall x :: x in items && !x.isDir ==> x.parent in filesByDir
      ensures forall x :: x in media <==> x in items && IsMediaItem(c, x)
    {
      filesByDir, media := map[], [];
      for i := 0 to |items|
        invariant forall d, x :: d in filesByDir ==> (x in filesByDir[d] <==> x in items[..i] && !x.isDir && x.parent == d)
        invariant forall d :: d in filesByDir ==> filesByDir[d] != []
        invariant forall x :: x in items[..i] && !x.isDir ==> x.parent in filesByDir
        invariant forall x :: x in media <==> x in items[..i] && IsMediaItem(c, x)
      {
        var x := items[i];
        assert items[..i + 1] == items[..i] + [x];
        if !x.isDir {
          var there := if x.parent in filesByDir then filesByDir[x.parent] else [];
          filesByDir := filesByDir[x.parent := there + [x]];
          if c.rules.isMedia(x.name) {
            media := media + [x];
          }
        }
      }
      assert items[..|items|] == items;
    }

    // The generation part of scanMount; directories come in any order.
    method Generate(ghost before: Files) returns (ok: bool)
      requires InProgress(before)
      modifies this
      ensures InProgress(before)
      ensures ok ==> AllDone(c, items, files, expected) && AllPlaceable(c, items)
      ensures AllPlaceable(c, items) && !MayBeCancelled(c, items) ==> ok
    {
      hide Progress, Written, DirectoryJob, SidecarJob, StrmOf, MountTargetDir, MediaOutputPaths, MayBeCancelled;
      var filesByDir, media := GroupItems();
      var rest := filesByDir.Keys;
      while rest != {}
        invariant InProgress(before)
        invariant rest <= filesByDir.Keys
        invariant forall d :: d in filesByDir && d !in rest ==>
                    DirectoryDone(c, items, d, files, expected) && MountTargetDir(c.mount, d).Ok?
        decreases |rest|
      {
        var d :| d in rest;
        ok := SyncDirectory(d, filesByDir[d], before);
        if !ok {
          assert MountTargetDir(c.mount, d).Err? ==> !Placeable(c, filesByDir[d][0]);
          return false;
        }
        rest := rest - {d};
      }
      for i := 0 to |media|
        invariant InProgress(before)
        invariant forall d :: d in filesByDir ==>
                    DirectoryDone(c, items, d, files, expected) && MountTargetDir(c.mount, d).Ok?
        invariant forall k :: 0 <= k < i ==>
                    SidecarsDone(c, items, media[k], files, expected) && StrmDone(c, items, media[k], files, expected)
                    && MediaOutputPaths(c.mount, media[k].path).Ok?
      {
        assert media[i] in items;
        ok := GenerateMedia(media[i], filesByDir[media[i].parent], before);
        if !ok {
          assert MediaOutputPaths(c.mount, media[i].path).Err? ==> !Placeable(c, media[i]);
          return false;
        }
      }
      EveryItemDone(filesByDir, media);
      return true;
    }

    lemma EveryItemDone(filesByDir: map<string, seq<Item>>, media: seq<Item>)
      requires forall x :: x in items && !x.isDir ==> x.parent in filesByDir
      requires forall x :: x in media <==> x in items && IsMediaItem(c, x)
      requires forall d :: d in filesByDir ==>
                 DirectoryDone(c, items, d, files, expected) && MountTargetDir(c.mount, d).Ok?
      requires forall k :: 0 <= k < |media| ==>
                 SidecarsDone(c, items, media[k], files, expected) && StrmDone(c, items, media[k], files, expected)
                 && MediaOutputPaths(c.mount, media[k].path).Ok?
      ensures AllDone(c, items, files, expected) && AllPlaceable(c, items)
    {
      hide MountTargetDir, MediaOutputPaths, Written;
      forall d ensures DirectoryDone(c, items, d, files, expected) {
      }
      forall m | m in items
        ensures SidecarsDone(c, items, m, files, expected) && StrmDone(c, items, m, files, expected) && Placeable(c, m)
      {
        if IsMediaItem(c, m) {
          var k :| 0 <= k < |media| && media[k] == m;
        }
      }
    }

    // The skip decisions of the walk, each removing the output tree of its directory.
    method ClearIgnored(scanPath: string, ignored: seq<string>) returns (ok: bool)
      requires Scope(c, scanPath, items)
      requires forall d :: d in ignored ==> Canonical(d) && Segments(scanPath) <= Segments(d)
      modifies this`files
      ensures ok <==> Removable(c.mount, ignored)
      ensures ok ==> Cleared(c.mount, ignored, old(files), files)
      ensures KeptButIgnored(c, ignored, old(files), files)
      ensures SameOutside(old(files), files, MountTargetDir(c.mount, scanPath).value)
    {
      ghost var before := files;
      hide Scope, MountTargetDir, UnderIgnored;
      NothingCleared(c.mount, before);
      for i := 0 to |ignored|
        invariant Cleared(c.mount, ignored[..i], before, files)
        invariant forall k :: 0 <= k < i ==>
                    MountTargetDir(c.mount, ignored[k]).Ok? && MountTargetDir(c.mount, ignored[k]).value != []
      {
        ghost var was := files;
        ok := RemoveIgnored(ignored[i]);
        if !ok {
          ClearedKeeps(c, scanPath, items, ignored, i, before, files);
          return false;
        }
        ClearedNext(c.mount, ignored, i, before, was);
      }
      assert ignored[..|ignored|] == ignored;
      ClearedKeeps(c, scanPath, items, ignored, |ignored|, before, files);
      return true;
    }

    // The output side of scanMount, from the skip decisions on: ignored lists the
    // directories the walk skipped, items the rows of the index below the path.
    method ScanMount(scanPath: string, ignored: seq<string>) returns (ok: bool)
      requires Scope(c, scanPath, items) && expected == {} && synced == {}
      requires forall d :: d in ignored ==> Canonical(d) && Segments(scanPath) <= Segments(d)
      modifies this
      ensures SameOutside(old(files), files, MountTargetDir(c.mount, scanPath).value)
      ensures KeptButIgnored(c, ignored, old(files), files)
      ensures ok ==>
                var targetRoot := MountTargetDir(c.mount, scanPath).value;
                Reconciled(c, items, targetRoot, ignored, old(files), OnlyExpected(files, targetRoot, expected))
      ensures forall p :: p in expected ==> ExpectedAt(c, items, p)
      ensures ok ==> Removable(c.mount, ignored) && AllPlaceable(c, items)
      ensures Removable(c.mount, ignored) && AllPlaceable(c, items) && !MayBeCancelled(c, items) ==> ok
    {
      ghost var before := files;
      ghost var targetRoot := MountTargetDir(c.mount, scanPath).value;
      hide Scope, AllDone, Reconciled, Cleared, SameOutside, MountTargetDir, UnderIgnored, OnlyExpected, Canonical;
      hide Removable, AllPlaceable, MayBeCancelled;
      ok := ClearIgnored(scanPath, ignored);
      if !ok {
        return false;
      }
      ghost var cleared := files;
      NoProgress(c, items, cleared);
      ok := Generate(cleared);
      hide Produced, ExpectedAt, Same;
      ProgressKeeps(c, scanPath, items, cleared, files, expected, synced);
      SameOutsideTransitive(before, cleared, files, targetRoot);
      if ok {
        CleanupReconciles(c, scanPath, items, targetRoot, ignored, before, cleared, files, expected, synced);
      }
    }

    // One mount and one path of scanLibrary, from the walk on.
    method Reconcile(scanPath: string, ignored: seq<string>) returns (ok: bool)
      requires Scope(c, scanPath, items) && expected == {} && synced == {}
      requires forall d :: d in ignored ==> Canonical(d) && Segments(scanPath) <= Segments(d)
      modifies this
      ensures SameOutside(old(files), files, MountTargetDir(c.mount, scanPath).value)
      ensures ok ==> Reconciled(c, items, MountTargetDir(c.mount, scanPath).value, ignored, old(files), files)
      ensures ok ==> StreamsLead(c, items, old(files), files)
      ensures !ok ==> KeptButIgnored(c, ignored, old(files), files)
      ensures ok ==> Removable(c.mount, ignored) && AllPlaceable(c, items)
      ensures Removable(c.mount, ignored) && AllPlaceable(c, items) && !MayBeCancelled(c, items) ==> ok
    {
      ghost var before := files;
      var targetRoot := MountTargetDir(c.mount, scanPath).value;
      hide *;
      ok := ScanMount(scanPath, ignored);
      if ok {
        OutsideKept(files, targetRoot, expected);
        SameOutsideTransitive(before, files, OnlyExpected(files, targetRoot, expected), targetRoot);
        CleanupStaleOutputs(targetRoot);
        ReconciledLeads(c, scanPath, items, ignored, before, files);
      }
    }
  }

  // ---- All mounts of a library ----

  // The outputs each target root expects.
  type RootExpected = map<Path, set<Path>>

  // What scanLibrary keeps below one root: the outputs of every root within it.
  ghost predicate ExpectedWithin(expected: RootExpected, targetRoot: Path, p: Path) {
    exists root :: root in expected && targetRoot <= root && p in expected[root]
  }

  ghost predicate KeptByAll(expected: RootExpected, roots: set<Path>, p: Path) {
    forall root :: root in roots && root <= p ==> ExpectedWithin(expected, root, p)
  }

  method CollectWithin(expected: RootExpected, targetRoot: Path) returns (within: set<Path>)
    ensures forall p :: p in within <==> ExpectedWithin(expected, targetRoot, p)
  {
    within := {};
    var rest := expected.Keys;
    while rest != {}
      invariant rest <= expected.Keys
      invariant forall p :: p in within <==>
                  exists root :: root in expected && root !in rest && targetRoot <= root && p in expected[root]
      decreases |rest|
    {
      var root :| root in rest;
      if targetRoot <= root {
        within := within + expected[root];
      }
      rest := rest - {root};
    }
  }

  // The files left by the passes over some of the roots.
  ghost predicate Passed(expected: RootExpected, roots: set<Path>, files: Files, after: Files) {
    && (forall p :: p in after <==> p in files && KeptByAll(expected, roots, p))
    && (forall p :: p in after && p in files ==> after[p] == files[p])
  }

  lemma OnePass(expected: RootExpected, done: set<Path>, root: Path, within: set<Path>, files: Files, after: Files)
    requires Passed(expected, done, files, after) && forall p :: p in within <==> ExpectedWithin(expected, root, p)
    ensures Passed(expected, done + {root}, files, OnlyExpected(after, root, within))
  {
    hide ExpectedWithin;
    forall p ensures KeptByAll(expected, done + {root}, p) <==>
                       KeptByAll(expected, done, p) && (root <= p ==> ExpectedWithin(expected, root, p))
    {
      if KeptByAll(expected, done + {root}, p) && root <= p {
        assert root in done + {root};
      }
    }
    hide KeptByAll;
  }

  // The cleanup that ends a scan of all mounts: one pass for each target root.
  method CleanupLibrary(files: Files, expected: RootExpected) returns (after: Files)
    ensures Passed(expected, expected.Keys, files, after)
  {
    after := files;
    ghost var done: set<Path> := {};
    var rest := expected.Keys;
    hide ExpectedWithin, OnlyExpected, Passed;
    assert Passed(expected, {}, files, files) by {
      NoPass(expected, files);
    }
    while rest != {}
      invariant done !! rest && done + rest == expected.Keys
      invariant Passed(expected, done, files, after)
      decreases |rest|
    {
      var root :| root in rest;
      var within := CollectWithin(expected, root);
      OnePass(expected, done, root, within, files, after);
      after := OnlyExpected(after, root, within);
      rest, done := rest - {root}, done + {root};
    }
    assert done == expected.Keys;
  }

  lemma NoPass(expected: RootExpected, files: Files)
    ensures Passed(expected, {}, files, files)
  {
  }

  // Roots of isolated mounts do not nest, and outputs lie below their root. Then the
  // cleanup deletes below the roots exactly what no mount expects, and nothing elsewhere.
  lemma LibraryCleanupIsExact(expected: RootExpected, p: Path)
    requires forall a, b :: a in expected && b in expected && a != b ==> !(a <= b)
    requires forall root, q :: root in expected && q in expected[root] ==> root <= q
    ensures KeptByAll(expected, expected.Keys, p) <==>
              (forall root :: root in expected ==> !(root <= p)) || (exists root :: root in expected && p in expected[root])
  {
    if root :| root in expected && p in expected[root] {
      forall other | other in expected && other <= p ensures ExpectedWithin(expected, other, p) {
        ComparablePrefixes(other, root, p);
      }
    }
  }

  // ---- A scan of all mounts ----

  // What scanning one mount of a library works from: the rows of the index below its
  // source and the directories its walk skipped.
  datatype MountInput = MountInput(c: Config, items: seq<Item>, ignored: seq<string>) {
    function SourceOf(): string { Normalize(c.mount.sourcePath) }

    function TargetOf(): Result<Path, PathError> { MountTargetDir(c.mount, SourceOf()) }

    ghost predicate Ready() {
      && Stable(c.mount.sourcePath)
      && (forall x :: x in items && !x.isDir ==> ItemBelow(SourceOf(), x))
      && (forall d :: d in ignored ==> Canonical(d) && Segments(SourceOf()) <= Segments(d))
    }

    // The files below the target, after the deletion of what is not expected there.
    ghost predicate Done(root: Path, expected: set<Path>, before: Files, files: Files) {
      Reconciled(c, items, root, ignored, before, OnlyExpected(files, root, expected))
    }
  }

  lemma ReadyIsScope(x: MountInput)
    requires x.Ready() && x.TargetOf().Ok?
    ensures Scope(x.c, x.SourceOf(), x.items)
    ensures forall d :: d in x.ignored ==> Canonical(d) && Segments(x.SourceOf()) <= Segments(d)
    ensures MountOutputRoot(x.c.mount).Ok? && MountOutputRoot(x.c.mount).value <= x.TargetOf().value
  {
    var segs := Segments(x.c.mount.sourcePath);
    NormalizeRender(segs);
    hide MountTargetDir, MountOutputRoot, Segments, ItemBelow;
    TargetDirIs(x.c.mount, x.SourceOf());
  }

  // The two pairs of files agree below the root.
  ghost predicate SameBelow(root: Path, before: Files, before': Files, after: Files, after': Files) {
    forall p :: root <= p ==> Same(before, before', p) && Same(after, after', p)
  }

  lemma StreamsLocal(c: Config, scanPath: string, items: seq<Item>, after: Files, after': Files)
    requires Scope(c, scanPath, items) && StreamsWritten(c, items, after)
    requires forall p :: MountTargetDir(c.mount, scanPath).value <= p ==> Same(after, after', p)
    ensures StreamsWritten(c, items, after')
  {
    hide ExpectedAt, Produced, MountTargetDir, StrmOf, Stable, Canonical, ItemBelow;
    forall m | c.rules.strm && m in items && IsMediaItem(c, m)
      ensures StrmOf(c, m).Some? && Written(c, items, after', StrmOf(c, m).value.target)
    {
      StrmProduces(c, items, m);
      ExpectedBelowTarget(c, scanPath, items, StrmOf(c, m).value.target);
      assert Same(after, after', StrmOf(c, m).value.target);
    }
  }

  lemma DownloadsLocal(c: Config, scanPath: string, items: seq<Item>, after: Files, after': Files)
    requires Scope(c, scanPath, items) && DownloadsWritten(c, items, after)
    requires forall p :: MountTargetDir(c.mount, scanPath).value <= p ==> Same(after, after', p)
    ensures DownloadsWritten(c, items, after')
  {
    hide IsJob, Produced, MountTargetDir, Stable, Canonical, ItemBelow;
    forall j | IsJob(c, items, j) ensures Written(c, items, after', j.target) || c.cloud(j.source).Failed? {
      ExpectedBelowTarget(c, scanPath, items, j.target);
      assert Same(after, after', j.target);
    }
  }

  lemma KeptLocal(
    c: Config, scanPath: string, items: seq<Item>, ignored: seq<string>, before: Files, after: Files, before': Files,
    after': Files)
    requires Scope(c, scanPath, items) && ExpectedKept(c, items, ignored, before, after)
    requires SameBelow(MountTargetDir(c.mount, scanPath).value, before, before', after, after')
    ensures ExpectedKept(c, items, ignored, before', after')
  {
    hide ExpectedAt, TakenByIgnored, MountTargetDir, Stable, Canonical, ItemBelow;
    forall p | p in before' && ExpectedAt(c, items, p) && !TakenByIgnored(c.mount, items, ignored, p)
      ensures p in after' && (!c.overwrite ==> Same(before', after', p))
    {
      ExpectedBelowTarget(c, scanPath, items, p);
      assert Same(before, before', p) && Same(after, after', p);
    }
  }

  // Being reconciled is a matter of the files below the target alone.
  lemma ReconciledLocal(
    c: Config, scanPath: string, items: seq<Item>, ignored: seq<string>, before: Files, after: Files, before': Files,
    after': Files)
    requires Scope(c, scanPath, items)
    requires Reconciled(c, items, MountTargetDir(c.mount, scanPath).value, ignored, before, after)
    requires SameBelow(MountTargetDir(c.mount, scanPath).value, before, before', after, after')
    ensures Reconciled(c, items, MountTargetDir(c.mount, scanPath).value, ignored, before', after')
  {
    var root := MountTargetDir(c.mount, scanPath).value;
    hide ExpectedAt, Produced, Scope, MountTargetDir, StreamsWritten, DownloadsWritten, ExpectedKept;
    KeptLocal(c, scanPath, items, ignored, before, after, before', after');
    StreamsLocal(c, scanPath, items, after, after');
    DownloadsLocal(c, scanPath, items, after, after');
    forall p | p in after' && root <= p
      ensures ExpectedAt(c, items, p)
      ensures (p in before' && after'[p] == before'[p]) || Produced(c, items, p, after'[p])
    {
      assert Same(before, before', p) && Same(after, after', p);
    }
  }

  // validateMountOutputIsolation, against the other mounts of the library and those of the
  // other libraries.
  method ValidateIsolation(inputs: seq<MountInput>, i: nat, others: seq<Mount>) returns (ok: bool)
    requires i < |inputs|
    ensures ok <==> (forall j :: 0 <= j < |inputs| && j != i ==> Isolated(inputs[i].c.mount, inputs[j].c.mount))
                    && (forall other :: other in others ==> Isolated(inputs[i].c.mount, other))
  {
    hide Isolated;
    for j := 0 to |inputs|
      invariant forall k :: 0 <= k < j && k != i ==> Isolated(inputs[i].c.mount, inputs[k].c.mount)
    {
      if j != i && !Isolated(inputs[i].c.mount, inputs[j].c.mount) {
        return false;
      }
    }
    for j := 0 to |others|
      invariant forall k :: 0 <= k < j ==> Isolated(inputs[i].c.mount, others[k])
    {
      if !Isolated(inputs[i].c.mount, others[j]) {
        return false;
      }
    }
    return true;
  }

  ghost predicate Apart(roots: seq<Path>) {
    forall j, k :: 0 <= j < |roots| && 0 <= k < |roots| && j != k ==> !(roots[j] <= roots[k])
  }

  ghost predicate UnderAny(roots: seq<Path>, p: Path) {
    exists j :: 0 <= j < |roots| && roots[j] <= p
  }

  ghost predicate OutsideTargets(inputs: seq<MountInput>, p: Path) {
    forall x :: x in inputs && x.TargetOf().Ok? ==> !(x.TargetOf().value <= p)
  }

  ghost predicate IgnoredByAny(inputs: seq<MountInput>, p: Path) {
    exists x :: x in inputs && UnderIgnored(x.c.mount, x.ignored, p)
  }

  // The targets of the first mounts, and what each of them expects.
  ghost predicate Targets(inputs: seq<MountInput>, roots: seq<Path>, expected: RootExpected) {
    && |roots| <= |inputs|
    && (forall j :: 0 <= j < |roots| ==> inputs[j].TargetOf() == Ok(roots[j]) && roots[j] in expected)
    && (forall root :: root in expected ==> root in roots && forall q :: q in expected[root] ==> root <= q)
    && Apart(roots)
  }

  ghost predicate AllReconciled(
    inputs: seq<MountInput>, roots: seq<Path>, expected: RootExpected, before: Files, files: Files)
    requires Targets(inputs, roots, expected)
  {
    forall j :: 0 <= j < |roots| ==> inputs[j].Done(roots[j], expected[roots[j]], before, files)
  }

  lemma NextIsApart(inputs: seq<MountInput>, roots: seq<Path>, expected: RootExpected)
    requires Targets(inputs, roots, expected) && |roots| < |inputs| && (forall x :: x in inputs ==> x.Ready())
    requires inputs[|roots|].TargetOf().Ok?
    requires forall j :: 0 <= j < |inputs| && j != |roots| ==> Isolated(inputs[|roots|].c.mount, inputs[j].c.mount)
    ensures Apart(roots + [inputs[|roots|].TargetOf().value]) && inputs[|roots|].TargetOf().value !in expected
  {
    var i := |roots|;
    var target := inputs[i].TargetOf().value;
    ReadyIsScope(inputs[i]);
    hide MountOutputRoot, MountTargetDir, Scope, Apart;
    forall j | 0 <= j < i ensures !(roots[j] <= target) && !(target <= roots[j]) {
      ReadyIsScope(inputs[j]);
      assert Isolated(inputs[i].c.mount, inputs[j].c.mount);
      ApartBelow(MountOutputRoot(inputs[i].c.mount).value, MountOutputRoot(inputs[j].c.mount).value, target, roots[j]);
    }
    StillApart(roots, target);
  }

  lemma ApartBelow(a: Path, b: Path, p: Path, q: Path)
    requires !(a <= b) && !(b <= a) && a <= p && b <= q
    ensures !(p <= q) && !(q <= p)
  {
    ComparablePrefixes(a, b, p);
    ComparablePrefixes(a, b, q);
  }

  lemma StillApart(roots: seq<Path>, target: Path)
    requires Apart(roots) && forall j :: 0 <= j < |roots| ==> !(roots[j] <= target) && !(target <= roots[j])
    ensures Apart(roots + [target])
  {
  }

  // The files below one target, whatever happens below the others.
  lemma StaysDone(x: MountInput, root: Path, expected: set<Path>, before: Files, files: Files, before': Files, files': Files)
    requires x.Ready() && x.TargetOf() == Ok(root) && x.Done(root, expected, before, files)
    requires SameBelow(root, before, before', files, files')
    ensures x.Done(root, expected, before', files')
  {
    hide Reconciled, Stable, ItemBelow, Canonical, MountTargetDir, Scope;
    ReadyIsScope(x);
    forall p | root <= p ensures Same(OnlyExpected(files, root, expected), OnlyExpected(files', root, expected), p) {
      assert Same(files, files', p);
    }
    ReconciledLocal(x.c, x.SourceOf(), x.items, x.ignored, before, OnlyExpected(files, root, expected),
                    before', OnlyExpected(files', root, expected));
  }

  lemma OneMoreTarget(inputs: seq<MountInput>, roots: seq<Path>, expected: RootExpected, root: Path, outputs: set<Path>)
    requires |roots| < |inputs| && Targets(inputs, roots, expected)
    requires inputs[|roots|].TargetOf() == Ok(root) && Apart(roots + [root]) && root !in expected
    requires forall q :: q in outputs ==> root <= q
    ensures Targets(inputs, roots + [root], expected[root := outputs])
  {
    hide MountInput.TargetOf, Apart;
    var roots', expected' := roots + [root], expected[root := outputs];
    forall j | 0 <= j < |roots'| ensures inputs[j].TargetOf() == Ok(roots'[j]) && roots'[j] in expected' {
      if j < |roots| {
        assert roots'[j] == roots[j];
      }
    }
    forall r | r in expected' ensures r in roots' && forall q :: q in expected'[r] ==> r <= q {
      if r != root {
        assert r in roots && r in expected;
      } else {
        assert roots'[|roots|] == root;
      }
    }
  }

  lemma UnderOneMore(roots: seq<Path>, root: Path, p: Path)
    ensures UnderAny(roots + [root], p) <==> UnderAny(roots, p) || root <= p
    ensures Apart(roots + [root]) && root <= p ==> !UnderAny(roots, p)
  {
    var roots' := roots + [root];
    assert roots'[|roots|] == root && forall j :: 0 <= j < |roots| ==> roots'[j] == roots[j];
    if Apart(roots') && root <= p {
      forall j | 0 <= j < |roots| && roots[j] <= p ensures false {
        ComparablePrefixes(roots'[j], roots'[|roots|], p);
      }
    }
  }

  lemma EarlierStays(
    inputs: seq<MountInput>, roots: seq<Path>, expected: RootExpected, root: Path, j: nat, before: Files, was: Files,
    files: Files)
    requires j < |roots| && (forall x :: x in inputs ==> x.Ready())
    requires Targets(inputs, roots, expected) && AllReconciled(inputs, roots, expected, before, was)
    requires Apart(roots + [root]) && SameOutside(was, files, root)
    ensures inputs[j].Done(roots[j], expected[roots[j]], before, files)
  {
    hide MountInput.Done, MountInput.Ready, MountInput.TargetOf, Apart;
    forall p | roots[j] <= p ensures Same(was, files, p) && Same(before, before, p) {
      UnderOneMore(roots, root, p);
      assert !(root <= p);
    }
    StaysDone(inputs[j], roots[j], expected[roots[j]], before, was, before, files);
  }

  lemma NewIsDone(x: MountInput, roots: seq<Path>, root: Path, outputs: set<Path>, before: Files, was: Files, files: Files)
    requires x.Ready() && x.TargetOf() == Ok(root) && x.Done(root, outputs, was, files) && Apart(roots + [root])
    requires forall p :: !UnderAny(roots, p) ==> Same(before, was, p)
    ensures x.Done(root, outputs, before, files)
  {
    hide MountInput.Done, MountInput.Ready, MountInput.TargetOf, Apart, UnderAny;
    forall p | root <= p ensures Same(was, before, p) && Same(files, files, p) {
      UnderOneMore(roots, root, p);
      assert Same(before, was, p);
    }
    StaysDone(x, root, outputs, was, files, before, files);
  }

  lemma EveryDone(
    inputs: seq<MountInput>, roots: seq<Path>, expected: RootExpected, root: Path, outputs: set<Path>, before: Files,
    files: Files)
    requires Targets(inputs, roots, expected) && |roots| < |inputs| && root !in expected
    requires Targets(inputs, roots + [root], expected[root := outputs])
    requires forall j :: 0 <= j < |roots| ==> inputs[j].Done(roots[j], expected[roots[j]], before, files)
    requires inputs[|roots|].Done(root, outputs, before, files)
    ensures AllReconciled(inputs, roots + [root], expected[root := outputs], before, files)
  {
    hide MountInput.Done, MountInput.TargetOf, Apart;
    var roots', expected' := roots + [root], expected[root := outputs];
    forall j | 0 <= j < |roots'| ensures inputs[j].Done(roots'[j], expected'[roots'[j]], before, files) {
      if j < |roots| {
        assert roots'[j] == roots[j] && roots[j] in expected;
      }
    }
  }

  lemma OutsideStays(roots: seq<Path>, root: Path, before: Files, was: Files, files: Files)
    requires SameOutside(was, files, root) && forall p :: !UnderAny(roots, p) ==> Same(before, was, p)
    ensures forall p :: !UnderAny(roots + [root], p) ==> Same(before, files, p)
  {
    hide UnderAny;
    forall p | !UnderAny(roots + [root], p) ensures Same(before, files, p) {
      UnderOneMore(roots, root, p);
      assert Same(before, was, p) && Same(was, files, p);
    }
  }

  // One more mount is scanned: the earlier ones stay done.
  lemma OneMoreDone(
    inputs: seq<MountInput>, roots: seq<Path>, expected: RootExpected, root: Path, outputs: set<Path>,
    before: Files, was: Files, files: Files)
    requires |roots| < |inputs| && (forall x :: x in inputs ==> x.Ready())
    requires Targets(inputs, roots, expected) && AllReconciled(inputs, roots, expected, before, was)
    requires inputs[|roots|].TargetOf() == Ok(root) && Apart(roots + [root]) && root !in expected
    requires forall q :: q in outputs ==> root <= q
    requires inputs[|roots|].Done(root, outputs, was, files)
    requires SameOutside(was, files, root) && forall p :: !UnderAny(roots, p) ==> Same(before, was, p)
    ensures Targets(inputs, roots + [root], expected[root := outputs])
    ensures AllReconciled(inputs, roots + [root], expected[root := outputs], before, files)
    ensures forall p :: !UnderAny(roots + [root], p) ==> Same(before, files, p)
  {
    assert forall j :: 0 <= j < |roots| ==> roots[j] in expected;
    hide *;
    OneMoreTarget(inputs, roots, expected, root, outputs);
    OutsideStays(roots, root, before, was, files);
    NewIsDone(inputs[|roots|], roots, root, outputs, before, was, files);
    forall j | 0 <= j < |roots| ensures inputs[j].Done(roots[j], expected[roots[j]], before, files) {
      EarlierStays(inputs, roots, expected, root, j, before, was, files);
    }
    EveryDone(inputs, roots, expected, root, outputs, before, files);
  }

  // Below one target the passes delete what its own mount does not expect.
  lemma CleanedBelow(expected: RootExpected, root: Path, files: Files, after: Files, p: Path)
    requires forall a, b :: a in expected && b in expected && a != b ==> !(a <= b)
    requires forall other, q :: other in expected && q in expected[other] ==> other <= q
    requires p in after <==> p in files && KeptByAll(expected, expected.Keys, p)
    requires p in after && p in files ==> after[p] == files[p]
    requires root in expected && root <= p
    ensures Same(OnlyExpected(files, root, expected[root]), after, p)
  {
    hide KeptByAll;
    LibraryCleanupIsExact(expected, p);
    forall other | other in expected && p in expected[other] ensures other == root {
      ComparablePrefixes(other, root, p);
    }
  }

  lemma CleanedOne(x: MountInput, root: Path, expected: RootExpected, before: Files, files: Files, after: Files)
    requires x.Ready() && x.TargetOf() == Ok(root) && root in expected && x.Done(root, expected[root], before, files)
    requires forall a, b :: a in expected && b in expected && a != b ==> !(a <= b)
    requires forall other, q :: other in expected && q in expected[other] ==> other <= q
    requires Passed(expected, expected.Keys, files, after)
    ensures Reconciled(x.c, x.items, root, x.ignored, before, after)
  {
    var left := OnlyExpected(files, root, expected[root]);
    assert Reconciled(x.c, x.items, root, x.ignored, before, left) by {
      hide Reconciled;
    }
    hide Reconciled, Scope, MountTargetDir, MountInput.Ready, KeptByAll, OnlyExpected;
    ReadyIsScope(x);
    forall p | root <= p ensures Same(left, after, p) && Same(before, before, p) {
      CleanedBelow(expected, root, files, after, p);
    }
    ReconciledLocal(x.c, x.SourceOf(), x.items, x.ignored, before, left, before, after);
  }

  lemma TargetFacts(inputs: seq<MountInput>, roots: seq<Path>, expected: RootExpected, j: nat)
    requires Targets(inputs, roots, expected) && j < |roots|
    ensures inputs[j].TargetOf() == Ok(roots[j]) && roots[j] in expected
    ensures forall other, q :: other in expected && q in expected[other] ==> other <= q
  {
    hide Apart, MountInput.TargetOf;
  }

  lemma CleanedElsewhere(inputs: seq<MountInput>, roots: seq<Path>, expected: RootExpected, files: Files, after: Files)
    requires Targets(inputs, roots, expected) && Passed(expected, expected.Keys, files, after)
    ensures forall p :: !UnderAny(roots, p) ==> Same(files, after, p)
  {
    hide ExpectedWithin, MountInput.TargetOf, Apart;
    forall p | !UnderAny(roots, p) ensures Same(files, after, p) {
      forall root | root in expected ensures !(root <= p) {
        var k :| 0 <= k < |roots| && roots[k] == root;
      }
    }
  }

  // The passes that end the scan leave below each target what its mount expects.
  lemma CleanedIsReconciled(
    inputs: seq<MountInput>, roots: seq<Path>, expected: RootExpected, before: Files, files: Files, after: Files)
    requires (forall x :: x in inputs ==> x.Ready())
    requires Targets(inputs, roots, expected) && AllReconciled(inputs, roots, expected, before, files)
    requires Passed(expected, expected.Keys, files, after)
    ensures forall j :: 0 <= j < |roots| ==>
              Reconciled(inputs[j].c, inputs[j].items, roots[j], inputs[j].ignored, before, after)
    ensures forall p :: !UnderAny(roots, p) ==> Same(files, after, p)
  {
    CleanedElsewhere(inputs, roots, expected, files, after);
    assert |roots| <= |inputs|;
    assert forall j :: 0 <= j < |roots| ==> inputs[j] in inputs;
    RootsApart(inputs, roots, expected);
    forall j | 0 <= j < |roots|
      ensures Reconciled(inputs[j].c, inputs[j].items, roots[j], inputs[j].ignored, before, after)
    {
      hide Targets, MountInput.Done, MountInput.Ready, Reconciled, Passed;
      TargetFacts(inputs, roots, expected, j);
      assert inputs[j].Done(roots[j], expected[roots[j]], before, files);
      CleanedOne(inputs[j], roots[j], expected, before, files, after);
    }
  }

  // The outputs of one more mount, merged into those of its target.
  function Merged(expected: RootExpected, root: Path, outputs: set<Path>): (merged: RootExpected)
    ensures root !in expected ==> merged == expected[root := outputs]
  {
    if root in expected then expected[root := expected[root] + outputs] else expected[root := outputs]
  }

  lemma RootsApart(inputs: seq<MountInput>, roots: seq<Path>, expected: RootExpected)
    requires Targets(inputs, roots, expected)
    ensures forall a, b :: a in expected && b in expected && a != b ==> !(a <= b)
  {
    hide MountInput.TargetOf;
    forall a, b | a in expected && b in expected && a != b ensures !(a <= b) {
      var j :| 0 <= j < |roots| && roots[j] == a;
      var k :| 0 <= k < |roots| && roots[k] == b;
    }
  }

  lemma UnderTargets(inputs: seq<MountInput>, roots: seq<Path>, expected: RootExpected)
    requires Targets(inputs, roots, expected)
    ensures forall p :: OutsideTargets(inputs, p) ==> !UnderAny(roots, p)
  {
    forall p | UnderAny(roots, p) ensures !OutsideTargets(inputs, p) {
      var j :| 0 <= j < |roots| && roots[j] <= p;
      assert inputs[j] in inputs && inputs[j].TargetOf() == Ok(roots[j]);
    }
  }

  lemma NoMountYet(inputs: seq<MountInput>, files: Files)
    ensures Targets(inputs, [], map[]) && AllReconciled(inputs, [], map[], files, files)
    ensures forall p :: !UnderAny([], p) ==> Same(files, files, p)
  {
  }

  lemma StillKept(inputs: seq<MountInput>, x: MountInput, before: Files, was: Files, files: Files)
    requires x in inputs && KeptButIgnored(x.c, x.ignored, was, files)
    requires forall p :: p in before && !IgnoredByAny(inputs, p) ==> p in was
    ensures forall p :: p in before && !IgnoredByAny(inputs, p) ==> p in files
  {
    hide UnderIgnored;
  }

  lemma OutsideAll(
    inputs: seq<MountInput>, roots: seq<Path>, expected: RootExpected, before: Files, was: Files, after: Files)
    requires Targets(inputs, roots, expected)
    requires forall p :: !UnderAny(roots, p) ==> Same(before, was, p) && Same(was, after, p)
    ensures forall p :: OutsideTargets(inputs, p) ==> Same(before, after, p)
  {
    UnderTargets(inputs, roots, expected);
    hide Targets, UnderAny, OutsideTargets;
    forall p | OutsideTargets(inputs, p) ensures Same(before, after, p) {
      assert Same(before, was, p) && Same(was, after, p);
    }
  }

  ghost predicate LibraryReconciled(inputs: seq<MountInput>, before: Files, after: Files) {
    forall x :: x in inputs ==>
      x.TargetOf().Ok? && Reconciled(x.c, x.items, x.TargetOf().value, x.ignored, before, after)
  }

  lemma AllTargets(inputs: seq<MountInput>, roots: seq<Path>, expected: RootExpected, before: Files, after: Files)
    requires Targets(inputs, roots, expected) && |roots| == |inputs|
    requires forall j :: 0 <= j < |roots| ==>
               Reconciled(inputs[j].c, inputs[j].items, roots[j], inputs[j].ignored, before, after)
    ensures LibraryReconciled(inputs, before, after)
  {
    hide Reconciled, Apart, MountInput.TargetOf;
    forall x | x in inputs
      ensures x.TargetOf().Ok? && Reconciled(x.c, x.items, x.TargetOf().value, x.ignored, before, after)
    {
      var j :| 0 <= j < |inputs| && inputs[j] == x;
      assert inputs[j].TargetOf() == Ok(roots[j]);
    }
  }

  // The targets lie apart from the output roots of the mounts of other libraries.
  ghost predicate ApartFrom(others: seq<Mount>, roots: seq<Path>) {
    forall other, j :: other in others && 0 <= j < |roots| && MountOutputRoot(other).Ok? ==>
      !(roots[j] <= MountOutputRoot(other).value) && !(MountOutputRoot(other).value <= roots[j])
  }

  ghost predicate UnderOther(others: seq<Mount>, p: Path) {
    exists other :: other in others && MountOutputRoot(other).Ok? && MountOutputRoot(other).value <= p
  }

  lemma OthersOutside(others: seq<Mount>, roots: seq<Path>)
    requires ApartFrom(others, roots)
    ensures forall p :: UnderOther(others, p) ==> !UnderAny(roots, p)
  {
    hide MountOutputRoot;
    forall p | UnderOther(others, p) && UnderAny(roots, p) ensures false {
      var other :| other in others && MountOutputRoot(other).Ok? && MountOutputRoot(other).value <= p;
      var j :| 0 <= j < |roots| && roots[j] <= p;
      ComparablePrefixes(MountOutputRoot(other).value, roots[j], p);
    }
  }

  lemma TargetIsApart(x: MountInput, other: Mount)
    requires x.Ready() && x.TargetOf().Ok? && Isolated(x.c.mount, other)
    ensures MountOutputRoot(other).Ok?
    ensures !(x.TargetOf().value <= MountOutputRoot(other).value) && !(MountOutputRoot(other).value <= x.TargetOf().value)
  {
    ReadyIsScope(x);
    hide MountOutputRoot, MountInput.TargetOf, MountInput.Ready, Scope;
    var root, other' := MountOutputRoot(x.c.mount).value, MountOutputRoot(other).value;
    ApartBelow(root, other', x.TargetOf().value, other');
  }

  lemma OneMoreApart(others: seq<Mount>, roots: seq<Path>, x: MountInput)
    requires ApartFrom(others, roots) && x.Ready() && x.TargetOf().Ok?
    requires forall other :: other in others ==> Isolated(x.c.mount, other)
    ensures ApartFrom(others, roots + [x.TargetOf().value])
  {
    var target := x.TargetOf().value;
    forall other, j | other in others && 0 <= j < |roots + [target]| && MountOutputRoot(other).Ok?
      ensures !((roots + [target])[j] <= MountOutputRoot(other).value)
        && !(MountOutputRoot(other).value <= (roots + [target])[j])
    {
      if j == |roots| {
        TargetIsApart(x, other);
      } else {
        hide MountOutputRoot, MountInput.TargetOf, MountInput.Ready, Isolated;
        assert (roots + [target])[j] == roots[j];
      }
    }
    hide MountOutputRoot, MountInput.TargetOf, MountInput.Ready, Isolated;
  }

  // What holds outside the targets holds below the output roots of other libraries.
  lemma OthersSame(others: seq<Mount>, roots: seq<Path>, before: Files, after: Files)
    requires ApartFrom(others, roots) && forall p :: !UnderAny(roots, p) ==> Same(before, after, p)
    ensures forall p :: UnderOther(others, p) ==> Same(before, after, p)
  {
    OthersOutside(others, roots);
    hide *;
  }

  lemma CleanedOthers(others: seq<Mount>, roots: seq<Path>, before: Files, was: Files, after: Files)
    requires ApartFrom(others, roots)
    requires forall p :: !UnderAny(roots, p) ==> Same(before, was, p) && Same(was, after, p)
    ensures forall p :: UnderOther(others, p) ==> Same(before, after, p)
  {
    OthersOutside(others, roots);
    hide UnderOther, UnderAny;
  }

  lemma NoneApart(others: seq<Mount>)
    ensures ApartFrom(others, [])
  {
    hide MountOutputRoot;
  }

  // A mount that scanLibrary gets through: it is isolated from all others, and nothing in it
  // is in the way.
  ghost predicate Admissible(inputs: seq<MountInput>, others: seq<Mount>, i: nat)
    requires i < |inputs|
  {
    && inputs[i].TargetOf().Ok?
    && (forall j :: 0 <= j < |inputs| && j != i ==> Isolated(inputs[i].c.mount, inputs[j].c.mount))
    && (forall other :: other in others ==> Isolated(inputs[i].c.mount, other))
    && Removable(inputs[i].c.mount, inputs[i].ignored) && AllPlaceable(inputs[i].c, inputs[i].items)
  }

  ghost predicate AllAdmissible(inputs: seq<MountInput>, others: seq<Mount>) {
    forall i :: 0 <= i < |inputs| ==> Admissible(inputs, others, i)
  }

  ghost predicate AnyMayBeCancelled(inputs: seq<MountInput>) {
    exists x :: x in inputs && MayBeCancelled(x.c, x.items)
  }

  // The targets reached so far, with nothing changed outside of them.
  ghost predicate Laid(
    inputs: seq<MountInput>, others: seq<Mount>, roots: seq<Path>, expected: RootExpected, before: Files, files: Files)
  {
    && ApartFrom(others, roots) && Targets(inputs, roots, expected)
    && forall p :: !UnderAny(roots, p) ==> Same(before, files, p)
  }

  // Nothing changes below the output roots of other libraries, nor outside the targets.
  ghost predicate Contained(inputs: seq<MountInput>, others: seq<Mount>, before: Files, after: Files) {
    && (forall p :: UnderOther(others, p) ==> Same(before, after, p))
    && (forall p :: OutsideTargets(inputs, p) ==> Same(before, after, p))
  }

  ghost predicate KeptButAnyIgnored(inputs: seq<MountInput>, before: Files, after: Files) {
    forall p :: p in before && !IgnoredByAny(inputs, p) ==> p in after
  }

  lemma NothingLaid(inputs: seq<MountInput>, others: seq<Mount>, files: Files)
    ensures Laid(inputs, others, [], map[], files, files) && AllReconciled(inputs, [], map[], files, files)
    ensures KeptButAnyIgnored(inputs, files, files)
  {
    NoMountYet(inputs, files);
    NoneApart(others);
  }

  lemma LaidIsContained(
    inputs: seq<MountInput>, others: seq<Mount>, roots: seq<Path>, expected: RootExpected, before: Files, files: Files)
    requires Laid(inputs, others, roots, expected, before, files)
    ensures Contained(inputs, others, before, files)
  {
    hide Targets, UnderAny, OutsideTargets, UnderOther, ApartFrom;
    OutsideAll(inputs, roots, expected, before, files, files);
    OthersSame(others, roots, before, files);
  }

  // One more target, whether its scan succeeds or not.
  lemma OneMoreLaid(
    inputs: seq<MountInput>, others: seq<Mount>, roots: seq<Path>, expected: RootExpected, root: Path, outputs: set<Path>,
    before: Files, was: Files, files: Files)
    requires Laid(inputs, others, roots, expected, before, was)
    requires |roots| < |inputs| && (forall x :: x in inputs ==> x.Ready()) && inputs[|roots|].TargetOf() == Ok(root)
    requires forall j :: 0 <= j < |inputs| && j != |roots| ==> Isolated(inputs[|roots|].c.mount, inputs[j].c.mount)
    requires forall other :: other in others ==> Isolated(inputs[|roots|].c.mount, other)
    requires SameOutside(was, files, root) && (forall q :: q in outputs ==> root <= q)
    requires KeptButAnyIgnored(inputs, before, was)
    requires KeptButIgnored(inputs[|roots|].c, inputs[|roots|].ignored, was, files)
    ensures Laid(inputs, others, roots + [root], expected[root := outputs], before, files)
    ensures root !in expected && Targets(inputs, roots + [root], expected[root := outputs])
    ensures KeptButAnyIgnored(inputs, before, files)
  {
    var x := inputs[|roots|];
    assert x in inputs;
    hide Same, Targets, UnderAny, ApartFrom, Isolated, SameOutside, KeptButIgnored, IgnoredByAny, Apart, MountInput.TargetOf;
    hide MountInput.Ready;
    NextIsApart(inputs, roots, expected);
    StillKept(inputs, x, before, was, files);
    OneMoreTarget(inputs, roots, expected, root, outputs);
    OutsideStays(roots, root, before, was, files);
    OneMoreApart(others, roots, x);
  }

  lemma LibraryCleaned(
    inputs: seq<MountInput>, others: seq<Mount>, roots: seq<Path>, expected: RootExpected, before: Files, was: Files,
    after: Files)
    requires Laid(inputs, others, roots, expected, before, was) && |roots| == |inputs|
    requires (forall x :: x in inputs ==> x.Ready()) && AllReconciled(inputs, roots, expected, before, was)
    requires Passed(expected, expected.Keys, was, after)
    ensures LibraryReconciled(inputs, before, after) && Contained(inputs, others, before, after)
  {
    hide Same, Targets, UnderAny, ApartFrom, AllReconciled, Passed, Reconciled, OutsideTargets, UnderOther, LibraryReconciled;
    hide MountInput.Ready;
    CleanedIsReconciled(inputs, roots, expected, before, was, after);
    OutsideAll(inputs, roots, expected, before, was, after);
    CleanedOthers(others, roots, before, was, after);
    AllTargets(inputs, roots, expected, before, after);
  }

  // scanLibrary over all mounts: scan each one, then clean up below every target. If no
  // download is cancelled it succeeds exactly when all mounts are admissible; then the files
  // of each mount are reconciled as if it had been scanned alone. The files of other
  // libraries stay as they are, whether it succeeds or not.
  method ScanLibrary(inputs: seq<MountInput>, others: seq<Mount>, files: Files) returns (ok: bool, after: Files)
    requires forall x :: x in inputs ==> x.Ready()
    ensures ok ==> LibraryReconciled(inputs, files, after)
    ensures ok ==> AllAdmissible(inputs, others)
    ensures AllAdmissible(inputs, others) && !AnyMayBeCancelled(inputs) ==> ok
    ensures Contained(inputs, others, files, after)
    ensures !ok ==> KeptButAnyIgnored(inputs, files, after)
  {
    after := files;
    var expected: RootExpected := map[];
    ghost var roots: seq<Path> := [];
    NothingLaid(inputs, others, files);
    hide *;
    for i := 0 to |inputs|
      invariant |roots| == i && Targets(inputs, roots, expected)
      invariant Laid(inputs, others, roots, expected, files, after)
      invariant AllReconciled(inputs, roots, expected, files, after)
      invariant forall j :: 0 <= j < i ==> Admissible(inputs, others, j)
      invariant KeptButAnyIgnored(inputs, files, after)
    {
      var x := inputs[i];
      LaidIsContained(inputs, others, roots, expected, files, after);
      OneMount(inputs, others, i);
      var isolated := ValidateIsolation(inputs, i, others);
      var targetRoot := x.TargetOf();
      if !isolated || targetRoot.Err? {
        return false, after;
      }
      var root := targetRoot.value;
      ghost var was := after;
      var outputs: set<Path>;
      ok, after, outputs := ScanOne(x, after);
      OneMoreLaid(inputs, others, roots, expected, root, outputs, files, was, after);
      LaidIsContained(inputs, others, roots + [root], expected[root := outputs], files, after);
      if !ok {
        return false, after;
      }
      OneMoreReconciled(inputs, others, roots, expected, root, outputs, files, was, after);
      expected := Merged(expected, root, outputs);
      roots := roots + [root];
    }
    ghost var was := after;
    after := CleanupLibrary(after, expected);
    LibraryCleaned(inputs, others, roots, expected, files, was, after);
    EveryAdmissible(inputs, others);
    ok := true;
  }

  lemma OneMoreReconciled(
    inputs: seq<MountInput>, others: seq<Mount>, roots: seq<Path>, expected: RootExpected, root: Path, outputs: set<Path>,
    before: Files, was: Files, files: Files)
    requires |roots| < |inputs| && (forall x :: x in inputs ==> x.Ready()) && inputs[|roots|].TargetOf() == Ok(root)
    requires Laid(inputs, others, roots, expected, before, was) && AllReconciled(inputs, roots, expected, before, was)
    requires Laid(inputs, others, roots + [root], expected[root := outputs], before, files) && root !in expected
    requires SameOutside(was, files, root) && inputs[|roots|].Done(root, outputs, was, files)
    requires forall q :: q in outputs ==> root <= q
    ensures AllReconciled(inputs, roots + [root], expected[root := outputs], before, files)
  {
    hide Same, UnderAny, ApartFrom, SameOutside, Apart, MountInput.TargetOf, MountInput.Ready, MountInput.Done, AllReconciled;
    assert Apart(roots + [root]);
    OneMoreDone(inputs, roots, expected, root, outputs, before, was, files);
  }

  lemma EveryAdmissible(inputs: seq<MountInput>, others: seq<Mount>)
    requires forall j :: 0 <= j < |inputs| ==> Admissible(inputs, others, j)
    ensures AllAdmissible(inputs, others)
  {
    hide Admissible;
  }

  lemma OneMount(inputs: seq<MountInput>, others: seq<Mount>, i: nat)
    requires i < |inputs|
    ensures AllAdmissible(inputs, others) ==> Admissible(inputs, others, i)
    ensures !AnyMayBeCancelled(inputs) ==> !MayBeCancelled(inputs[i].c, inputs[i].items)
    ensures Admissible(inputs, others, i) <==>
              && inputs[i].TargetOf().Ok?
              && (forall j :: 0 <= j < |inputs| && j != i ==> Isolated(inputs[i].c.mount, inputs[j].c.mount))
              && (forall other :: other in others ==> Isolated(inputs[i].c.mount, other))
              && Removable(inputs[i].c.mount, inputs[i].ignored) && AllPlaceable(inputs[i].c, inputs[i].items)
  {
    hide MayBeCancelled, Isolated, Removable, AllPlaceable, MountInput.TargetOf;
  }

  // scanMount for one mount of the library.
  method ScanOne(x: MountInput, files: Files) returns (ok: bool, after: Files, outputs: set<Path>)
    requires x.Ready() && x.TargetOf().Ok?
    ensures ok ==> x.Done(x.TargetOf().value, outputs, files, after)
    ensures SameOutside(files, after, x.TargetOf().value) && KeptButIgnored(x.c, x.ignored, files, after)
    ensures forall q :: q in outputs ==> x.TargetOf().value <= q
    ensures ok ==> Removable(x.c.mount, x.ignored) && AllPlaceable(x.c, x.items)
    ensures Removable(x.c.mount, x.ignored) && AllPlaceable(x.c, x.items) && !MayBeCancelled(x.c, x.items) ==> ok
  {
    ReadyIsScope(x);
    hide Removable, AllPlaceable, MayBeCancelled;
    hide Reconciled, SameOutside, KeptButIgnored, Scope, MountTargetDir, ExpectedAt, MountInput.Ready;
    var scan := new MountScan(x.c, x.items, files);
    ok := scan.ScanMount(x.SourceOf(), x.ignored);
    after, outputs := scan.files, scan.expected;
    forall q | q in outputs ensures x.TargetOf().value <= q {
      ExpectedBelowTarget(x.c, x.SourceOf(), x.items, q);
    }
  }
}
