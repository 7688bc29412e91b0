/** Provider paths: normalisation, the within-root test in its three spellings, and
  * the order they induce. A normalised path is the rendering of a list of segments,
  * and every fact below is a fact about those lists. */
module Paths {
  import opened Strings

  predicate GoodSegment(s: string) {
    s != "" && s != "." && s != ".." && '/' !in s
  }

  ghost predicate Good(segs: seq<string>) {
    forall i :: 0 <= i < |segs| ==> GoodSegment(segs[i])
  }

  // path.Clean on a rooted path, one slash-separated element at a time.
  function CleanSegments(parts: seq<string>, stack: seq<string>): (segs: seq<string>)
    requires AllFree(parts, '/') && Good(stack)
    ensures Good(segs)
  {
    if parts == [] then stack
    else if parts[0] == "" || parts[0] == "." then CleanSegments(parts[1..], stack)
    else if parts[0] == ".." then
      CleanSegments(parts[1..], if stack == [] then [] else stack[..|stack| - 1])
    else CleanSegments(parts[1..], stack + [parts[0]])
  }

  // The segments of path.Clean("/" + value).
  function CleanRooted(value: string): (segs: seq<string>)
    ensures Good(segs)
  {
    CleanSegments(Split("/" + value, '/'), [])
  }

  function Below(segs: seq<string>): string {
    if segs == [] then "" else "/" + segs[0] + Below(segs[1..])
  }

  // The path a list of segments stands for; the empty list is the root.
  function Render(segs: seq<string>): (p: string)
    ensures p != "" && p[0] == '/'
  {
    if segs == [] then "/" else Below(segs)
  }

  function Segments(value: string): (segs: seq<string>)
    ensures Good(segs)
  {
    CleanRooted(TrimSpace(value))
  }

  // normalizeProviderPath, and normalizePath of both cloud providers.
  function Normalize(value: string): (p: string)
    ensures p != "" && p[0] == '/'
  {
    Render(Segments(value))
  }

  // providerPathWithinRoot: a test on strings.
  predicate WithinRoot(candidate: string, root: string) {
    var cleanCandidate := Normalize(candidate);
    var cleanRoot := Normalize(root);
    cleanRoot == "/" || cleanCandidate == cleanRoot || cleanRoot + "/" <= cleanCandidate
  }

  // splitPathSegments of the 123pan provider. strings.Trim(_, "/") of a normalised
  // path drops its leading slash, and the whole string when it is the root.
  function SplitPathSegments(value: string): seq<string> {
    var trimmed := Normalize(value)[1..];
    if trimmed == "" then [] else Split(trimmed, '/')
  }

  // The loop of hasPathPrefix in the 123pan provider, over the two segment lists.
  method SegmentsHavePrefix(valueSegments: seq<string>, prefixSegments: seq<string>) returns (within: bool)
    ensures within <==> prefixSegments <= valueSegments
  {
    if |prefixSegments| == 0 {
      return true;
    }
    if |valueSegments| < |prefixSegments| {
      return false;
    }
    for index := 0 to |prefixSegments|
      invariant forall k :: 0 <= k < index ==> valueSegments[k] == prefixSegments[k]
    {
      if valueSegments[index] != prefixSegments[index] {
        return false;
      }
    }
    return true;
  }

  // hasPathPrefix of the 123pan provider decides the same relation as providerPathWithinRoot.
  method HasPathPrefix123(value: string, prefix: string) returns (within: bool)
    ensures within <==> WithinRoot(value, prefix)
  {
    within := SegmentsHavePrefix(SplitPathSegments(value), SplitPathSegments(prefix));
    SplitPathSegmentsIsSegments(value);
    SplitPathSegmentsIsSegments(prefix);
    WithinRootIsSegmentPrefix(value, prefix);
  }

  // hasPathPrefix of the baiduopen provider: no case for the root.
  predicate HasPathPrefixBaidu(value: string, prefix: string) {
    var v := Normalize(value);
    var p := Normalize(prefix);
    v == p || p + "/" <= v
  }

  // ---- Rendering and splitting undo one another ----

  lemma SplitLeadingSlash(t: string)
    ensures Split("/" + t, '/') == [""] + Split(t, '/')
  {
    assert ("/" + t)[1..] == t;
  }

  // One more segment in front of a rendered path that starts with a slash.
  lemma SplitFront(name: string, tail: string, rest: seq<string>)
    requires '/' !in name && Split("/" + tail, '/') == [""] + rest
    ensures Split("/" + (name + ("/" + tail)), '/') == [""] + ([name] + rest)
  {
    SplitLeadingSlash(tail);
    assert Split(tail, '/') == ([""] + Split(tail, '/'))[1..] == ([""] + rest)[1..] == rest;
    SplitFree(name, '/');
    SplitConcat(name, tail, '/');
    assert name + ("/" + tail) == name + ['/'] + tail;
    SplitLeadingSlash(name + ("/" + tail));
  }

  lemma BelowFront(segs: seq<string>)
    requires segs != []
    ensures segs[1..] == [] ==> Below(segs) == "/" + segs[0]
    ensures segs[1..] != [] ==>
              var below := Below(segs[1..]);
              below != "" && below == "/" + below[1..] && Below(segs) == "/" + (segs[0] + ("/" + below[1..]))
  {
  }

  lemma {:induction false} SplitBelow(segs: seq<string>)
    requires Good(segs)
    ensures Split(Below(segs), '/') == [""] + segs
  {
    if segs != [] {
      var name, rest := segs[0], segs[1..];
      assert '/' !in name && Good(rest);
      SplitBelow(rest);
      BelowFront(segs);
      hide *;
      assert [name] + rest == segs;
      if rest == [] {
        SplitFree(name, '/');
        SplitLeadingSlash(name);
      } else {
        // Below(rest) starts with a slash, so the first name is cut off whole.
        SplitFront(name, Below(rest)[1..], rest);
      }
    }
  }

  lemma {:induction false} CleanGood(parts: seq<string>, stack: seq<string>)
    requires Good(parts) && Good(stack) && AllFree(parts, '/')
    ensures CleanSegments(parts, stack) == stack + parts
  {
    if parts != [] {
      assert GoodSegment(parts[0]);
      CleanGood(parts[1..], stack + [parts[0]]);
      assert stack + [parts[0]] + parts[1..] == stack + parts;
    }
  }

  // path.Clean leaves a rendered path alone.
  lemma CleanRendered(segs: seq<string>)
    requires Good(segs)
    ensures CleanRooted(Render(segs)) == segs
  {
    var p := Render(segs);
    SplitLeadingSlash(p);
    var parts := Split("/" + p, '/');
    if segs == [] {
      SplitLeadingSlash("");
      assert "/" == "/" + "";
      assert Split(p, '/') == ["", ""];
      assert parts == ["", "", ""];
      assert parts[1..] == ["", ""];
      assert CleanSegments(parts[1..], []) == CleanSegments([""], []) by { assert parts[1..][1..] == [""]; }
    } else {
      SplitBelow(segs);
      assert parts == [""] + ([""] + segs);
      assert parts[1..] == [""] + segs;
      assert parts[1..][1..] == segs;
      assert CleanSegments(parts, []) == CleanSegments(parts[1..], []);
      CleanGood(segs, []);
    }
  }

  // A rendered path that does not end in whitespace is its own normal form.
  lemma SegmentsOfRender(segs: seq<string>)
    requires Good(segs) && !EndsWithSpace(Render(segs))
    ensures Segments(Render(segs)) == segs
  {
    CleanRendered(segs);
  }

  lemma RenderInjective(a: seq<string>, b: seq<string>)
    requires Good(a) && Good(b) && Render(a) == Render(b)
    ensures a == b
  {
    CleanRendered(a);
    CleanRendered(b);
  }

  // ---- Normalisation is idempotent exactly off trailing whitespace ----

  function Weight(parts: seq<string>): nat {
    if parts == [] then 0 else 1 + |parts[0]| + Weight(parts[1..])
  }

  lemma {:induction false} WeightIsLength(s: string)
    ensures Weight(Split(s, '/')) == |s| + 1
  {
    if s != "" {
      WeightIsLength(s[1..]);
      var rest := Split(s[1..], '/');
      if s[0] == '/' {
        assert ([""] + rest)[1..] == rest;
      } else {
        var parts := [[s[0]] + rest[0]] + rest[1..];
        assert parts[1..] == rest[1..];
      }
    }
  }

  lemma {:induction false} WeightOfRender(segs: seq<string>)
    ensures |Below(segs)| == Weight(segs)
  {
    if segs != [] {
      WeightOfRender(segs[1..]);
    }
  }

  lemma {:induction false} WeightAppend(a: seq<string>, b: seq<string>)
    ensures Weight(a + b) == Weight(a) + Weight(b)
  {
    if a == [] {
      assert a + b == b;
    } else {
      assert (a + b)[1..] == a[1..] + b;
      WeightAppend(a[1..], b);
    }
  }

  lemma {:induction false} CleanShrinks(parts: seq<string>, stack: seq<string>)
    requires AllFree(parts, '/') && Good(stack)
    ensures Weight(CleanSegments(parts, stack)) <= Weight(stack) + Weight(parts)
  {
    if parts != [] {
      if parts[0] == "" || parts[0] == "." {
        CleanShrinks(parts[1..], stack);
      } else if parts[0] == ".." {
        if stack == [] {
          CleanShrinks(parts[1..], []);
        } else {
          var kept := stack[..|stack| - 1];
          WeightAppend(kept, [stack[|stack| - 1]]);
          assert kept + [stack[|stack| - 1]] == stack;
          CleanShrinks(parts[1..], kept);
        }
      } else {
        WeightAppend(stack, [parts[0]]);
        CleanShrinks(parts[1..], stack + [parts[0]]);
      }
    }
  }

  lemma CleanRootedShrinks(t: string)
    requires t != "" && t[0] == '/'
    ensures Weight(CleanRooted(t)) <= |t|
  {
    SplitLeadingSlash(t);
    SplitLeadingSlash(t[1..]);
    assert t == "/" + t[1..];
    var parts, rest := Split("/" + t, '/'), Split(t[1..], '/');
    assert parts[1..] == [""] + rest;
    assert parts[1..][1..] == rest;
    assert CleanSegments(parts, []) == CleanSegments(parts[1..], []);
    CleanShrinks(rest, []);
    WeightIsLength(t[1..]);
  }

  // Normalising a rooted path makes it no longer, and shorter if it ends in a blank.
  lemma NormalizeShrinks(p: string)
    requires p != "" && p[0] == '/'
    ensures |Normalize(p)| <= |p|
    ensures EndsWithSpace(p) ==> |Normalize(p)| < |p|
  {
    SlashSurvives(p);
    CleanRootedShrinks(TrimRight(p));
    WeightOfRender(Segments(p));
  }

  // Normalising a second time changes nothing if and only if the first result does
  // not end in whitespace.
  lemma NormalizeIdempotentIff(value: string)
    ensures Normalize(Normalize(value)) == Normalize(value) <==> !EndsWithSpace(Normalize(value))
  {
    var segs := Segments(value);
    var p := Render(segs);
    if !EndsWithSpace(p) {
      SegmentsOfRender(segs);
    } else {
      NormalizeShrinks(p);
    }
  }

  lemma {:induction false} SlashSurvives(p: string)
    requires p != "" && p[0] == '/'
    ensures TrimRight(p) != "" && TrimRight(p)[0] == '/'
  {
    if IsSpace(p[|p| - 1]) {
      SlashSurvives(p[..|p| - 1]);
    }
  }

  lemma SkipEmpty(rest: seq<string>, stack: seq<string>)
    requires AllFree(rest, '/') && Good(stack)
    ensures AllFree([""] + rest, '/') && CleanSegments([""] + rest, stack) == CleanSegments(rest, stack)
  {
    assert ([""] + rest)[1..] == rest;
  }

  lemma CleanOne(name: string, tail: seq<string>)
    requires GoodSegment(name) && (tail == [] || tail == [""])
    ensures AllFree(["", "", name] + tail, '/') && CleanSegments(["", "", name] + tail, []) == [name]
  {
    assert ["", "", name] + tail == [""] + ([""] + ([name] + tail));
    assert ([name] + tail)[1..] == tail;
    assert [] + [name] == [name];
    if tail == [""] {
      SkipEmpty([], [name]);
      assert tail == [""] + [];
    }
    SkipEmpty([name] + tail, []);
    SkipEmpty([""] + ([name] + tail), []);
  }

  lemma CleanSingle(name: string, tail: string)
    requires GoodSegment(name) && (tail == "" || tail == "/")
    ensures CleanRooted("/" + (name + tail)) == [name]
  {
    hide CleanSegments;
    var t := "/" + (name + tail);
    SplitLeadingSlash(t);
    SplitLeadingSlash(name + tail);
    SplitFree(name, '/');
    if tail == "" {
      assert name + tail == name;
      assert Split("/" + t, '/') == ["", "", name] + [];
      CleanOne(name, []);
    } else {
      assert name + tail == name + ['/'] + "";
      SplitConcat(name, "", '/');
      assert Split("/" + t, '/') == ["", "", name] + [""];
      CleanOne(name, [""]);
    }
  }

  lemma RenderSingle(name: string)
    ensures Render([name]) == "/" + name
  {
    assert [name][1..] == [];
    assert Below([name]) == "/" + name + "";
  }

  lemma BlankInsideStays()
    ensures TrimSpace("/a /") == "/" + ("a " + "/")
  {
  }

  lemma BlankAtEndGoes()
    ensures TrimSpace("/a ") == "/" + ("a" + "")
  {
    assert "/a "[..2] == "/a";
    assert TrimRight("/a ") == TrimRight("/a");
  }

  // The segment kept by path.Clean may end in whitespace that only the second call trims.
  lemma NormalizeNotIdempotent()
    ensures Normalize("/a /") == "/a " && Normalize("/a ") == "/a"
  {
    hide CleanRooted, Render, TrimSpace;
    BlankInsideStays();
    BlankAtEndGoes();
    CleanSingle("a ", "/");
    CleanSingle("a", "");
    RenderSingle("a ");
    RenderSingle("a");
  }

  // ---- The string test is the segment-prefix order ----

  lemma {:induction false} BelowAppend(a: seq<string>, b: seq<string>)
    ensures Below(a + b) == Below(a) + Below(b)
  {
    if a == [] {
      assert a + b == b;
    } else {
      assert (a + b)[1..] == a[1..] + b;
      BelowAppend(a[1..], b);
    }
  }

  lemma RenderedAncestor(c: seq<string>, r: seq<string>)
    requires Good(c) && r != [] && r <= c
    ensures Render(c) == Render(r) || Render(r) + "/" <= Render(c)
  {
    var rest := c[|r|..];
    assert r + rest == c;
    BelowAppend(r, rest);
    if rest != [] {
      assert Below(rest)[..1] == "/";
    }
  }

  lemma CancelHead(head: string, c: seq<string>, r: seq<string>, below: seq<string>)
    requires [head] + c == ([head] + r) + below
    ensures r <= c
  {
    assert c == ([head] + c)[1..] == (([head] + r) + below)[1..] == r + below;
  }

  lemma RenderedDescendant(c: seq<string>, r: seq<string>)
    requires Good(c) && Good(r) && r != [] && Render(r) + "/" <= Render(c)
    ensures r <= c
  {
    hide Split, Below, Good;
    var tail := Render(c)[|Render(r)| + 1..];
    assert Render(c) == Render(r) + ['/'] + tail;
    SplitConcat(Render(r), tail, '/');
    SplitBelow(r);
    SplitBelow(c);
    if c != [] {
      CancelHead("", c, r, Split(tail, '/'));
    }
  }

  // On rendered paths, "equal, or starts with root and a slash" is "segment prefix".
  lemma RenderedPrefix(c: seq<string>, r: seq<string>)
    requires Good(c) && Good(r) && r != []
    ensures Render(c) == Render(r) || Render(r) + "/" <= Render(c) <==> r <= c
  {
    hide Below;
    if r <= c {
      RenderedAncestor(c, r);
    }
    if Render(c) == Render(r) {
      RenderInjective(c, r);
    } else if Render(r) + "/" <= Render(c) {
      RenderedDescendant(c, r);
    }
  }

  // providerPathWithinRoot is segment prefix, for every two strings.
  lemma WithinRootIsSegmentPrefix(candidate: string, root: string)
    ensures WithinRoot(candidate, root) <==> Segments(root) <= Segments(candidate)
  {
    var c, r := Segments(candidate), Segments(root);
    if r != [] {
      if Render(r) == "/" {
        RenderInjective(r, []);
      }
      RenderedPrefix(c, r);
    }
  }

  lemma SplitPathSegmentsIsSegments(value: string)
    ensures SplitPathSegments(value) == Segments(value)
  {
    var segs := Segments(value);
    if segs != [] {
      var trimmed := Below(segs)[1..];
      assert Below(segs) == "/" + trimmed;
      SplitBelow(segs);
      SplitLeadingSlash(trimmed);
      assert Split(trimmed, '/') == ([""] + Split(trimmed, '/'))[1..] == ([""] + segs)[1..] == segs;
      assert GoodSegment(segs[0]);
      assert trimmed[0] == segs[0][0];
    }
  }

  // The baiduopen spelling agrees with providerPathWithinRoot exactly when the prefix
  // is not the root, or the value is the root too.
  lemma BaiduPrefixAgreesIff(value: string, prefix: string)
    ensures (HasPathPrefixBaidu(value, prefix) <==> WithinRoot(value, prefix))
        <==> (Normalize(prefix) != "/" || Normalize(value) == "/")
  {
    var v, p := Segments(value), Segments(prefix);
    if p == [] && v != [] {
      // A rendered path never starts with two slashes.
      assert GoodSegment(v[0]);
      assert Render(v)[1] == v[0][0] != '/';
    }
  }

  // The root does not contain "/a" for baiduopen.
  lemma BaiduRootIsEmpty()
    ensures WithinRoot("/a", "/") && !HasPathPrefixBaidu("/a", "/")
  {
    SegmentsOfRender([]);
    RenderSingle("a");
    assert Render(["a"]) == "/a";
    SegmentsOfRender(["a"]);
    BaiduPrefixAgreesIff("/a", "/");
    hide Segments, Render, HasPathPrefixBaidu;
  }

  // Within-root is a partial order on normalised paths whose down-sets are chains.
  lemma WithinRootOrder(p: string, q: string, r: string)
    ensures WithinRoot(p, p)
    ensures WithinRoot(p, q) && WithinRoot(q, r) ==> WithinRoot(p, r)
    ensures WithinRoot(p, q) && WithinRoot(q, p) ==> Normalize(p) == Normalize(q)
    ensures WithinRoot(p, q) && WithinRoot(p, r) ==> WithinRoot(q, r) || WithinRoot(r, q)
  {
    WithinRootIsSegmentPrefix(p, p);
    WithinRootIsSegmentPrefix(p, q);
    WithinRootIsSegmentPrefix(q, p);
    WithinRootIsSegmentPrefix(q, r);
    WithinRootIsSegmentPrefix(r, q);
    WithinRootIsSegmentPrefix(p, r);
    var sp, sq, sr := Segments(p), Segments(q), Segments(r);
    if sq <= sp && sr <= sp {
      assert sq == sp[..|sq|] && sr == sp[..|sr|];
    }
  }

  // A deeper ancestor has the longer spelling.
  lemma DeeperIsLonger(a: seq<string>, b: seq<string>)
    requires a <= b && Good(b)
    ensures |Render(a)| <= |Render(b)|
    ensures |Render(a)| == |Render(b)| ==> a == b
  {
    assert a + b[|a|..] == b;
    BelowAppend(a, b[|a|..]);
    if a != b {
      assert GoodSegment(b[|a|]);
      assert b[|a|..][0] == b[|a|];
    }
  }

  // ---- Paths of children ----

  // normalizePath(path.Join(parent, name)).
  function ChildPath(parent: string, name: string): string {
    Normalize(Render(CleanRooted(parent + "/" + name)))
  }

  // A name that a listing may give: one path segment, its blanks trimmed.
  predicate ValidName(name: string) {
    GoodSegment(name) && !EndsWithSpace(name)
  }

  lemma CleanBelowRoot(name: string)
    requires GoodSegment(name)
    ensures CleanRooted("/" + ("/" + name)) == [name]
  {
    SplitLeadingSlash("/" + ("/" + name));
    SkipEmpty(Split("/" + ("/" + name), '/'), []);
    CleanSingle(name, "");
    assert name + "" == name;
  }

  lemma RenderChild(segs: seq<string>, name: string)
    ensures Render(segs + [name]) == if segs == [] then "/" + name else Render(segs) + "/" + name
  {
    BelowAppend(segs, [name]);
    RenderSingle(name);
    assert [] + [name] == [name];
  }

  // The path built from strings is the path of the child.
  lemma ChildPathIsRendered(segs: seq<string>, name: string)
    requires Good(segs) && ValidName(name)
    ensures Good(segs + [name])
    ensures ChildPath(Render(segs), name) == Render(segs + [name])
    ensures !EndsWithSpace(Render(segs + [name]))
  {
    hide CleanRooted, IsSpace, Normalize;
    var child := segs + [name];
    RenderChild(segs, name);
    var r := Render(child);
    assert r[|r| - 1] == name[|name| - 1];
    if segs == [] {
      CleanBelowRoot(name);
      assert Render(segs) + "/" + name == "/" + ("/" + name);
      assert [] + [name] == child;
    } else {
      CleanRendered(child);
      assert Render(segs) + "/" + name == r;
    }
    assert CleanRooted(Render(segs) + "/" + name) == child;
    hide Render;
    RenderedIsNormal(child);
  }

  lemma RenderedIsNormal(segs: seq<string>)
    requires Good(segs) && !EndsWithSpace(Render(segs))
    ensures Normalize(Render(segs)) == Render(segs)
  {
    SegmentsOfRender(segs);
  }

  // ---- Relative paths ----

  lemma {:induction false} CleanSegmentsAppend(a: seq<string>, b: seq<string>, stack: seq<string>)
    requires AllFree(a, '/') && AllFree(b, '/') && Good(stack)
    ensures AllFree(a + b, '/')
    ensures CleanSegments(a + b, stack) == CleanSegments(b, CleanSegments(a, stack))
    decreases |a|
  {
    if a == [] {
      assert a + b == b;
    } else {
      assert (a + b)[0] == a[0] && (a + b)[1..] == a[1..] + b;
      var next := if a[0] == "" || a[0] == "." then stack
                  else if a[0] == ".." then (if stack == [] then [] else stack[..|stack| - 1])
                  else stack + [a[0]];
      CleanSegmentsAppend(a[1..], b, next);
    }
  }

  // A relative path is read from the segments of the path it is joined to.
  lemma CleanFrom(segs: seq<string>, tail: string)
    requires Good(segs)
    ensures CleanRooted(Render(segs) + "/" + tail) == CleanSegments(Split(tail, '/'), segs)
  {
    var r := Render(segs);
    hide Render, Split, CleanSegments, GoodSegment;
    assert "/" + (r + "/" + tail) == ("/" + r) + ['/'] + tail;
    SplitConcat("/" + r, tail, '/');
    CleanSegmentsAppend(Split("/" + r, '/'), Split(tail, '/'), []);
    CleanRendered(segs);
  }

  // Two dots go up one segment, and nowhere from the root.
  lemma DotDotGoesUp(segs: seq<string>)
    requires Good(segs)
    ensures CleanRooted(Render(segs) + "/" + "..") == if segs == [] then [] else segs[..|segs| - 1]
  {
    CleanFrom(segs, "..");
    SplitFree("..", '/');
    hide CleanRooted, Split;
    var parts := [".."];
    assert parts[1..] == [];
  }

  // What follows a slash is read from the segments of what comes before it.
  lemma CleanAfter(x: string, y: string)
    ensures CleanRooted(x + "/" + y) == CleanSegments(Split(y, '/'), CleanRooted(x))
  {
    assert "/" + (x + "/" + y) == ("/" + x) + ['/'] + y;
    SplitConcat("/" + x, y, '/');
    CleanSegmentsAppend(Split("/" + x, '/'), Split(y, '/'), []);
  }

  // The rules of path.Clean: empty elements and single dots vanish, and a name vanishes with
  // the two dots after it; two dots after nothing vanish too.
  lemma CleanRules(x: string, name: string, y: string)
    requires GoodSegment(name)
    ensures CleanRooted(x + "/" + ("" + "/" + y)) == CleanRooted(x + "/" + y)
    ensures CleanRooted(x + "/" + ("." + "/" + y)) == CleanRooted(x + "/" + y)
    ensures CleanRooted(x + "/" + (name + "/" + (".." + "/" + y))) == CleanRooted(x + "/" + y)
    ensures CleanRooted("" + "/" + (".." + "/" + y)) == CleanRooted("" + "/" + y)
  {
    forall element | '/' !in element
      ensures Split(element + "/" + y, '/') == [element] + Split(y, '/')
    {
      SplitFree(element, '/');
      SplitConcat(element, y, '/');
    }
    SplitFree(name, '/');
    SplitConcat(name, ".." + "/" + y, '/');
    CleanAfter(x, y);
    CleanAfter(x, "" + "/" + y);
    CleanAfter(x, "." + "/" + y);
    CleanAfter(x, name + "/" + (".." + "/" + y));
    CleanAfter("", y);
    CleanAfter("", ".." + "/" + y);
    CleanNothing();
    hide CleanRooted, Split;
    var rest, stack := Split(y, '/'), CleanRooted(x);
    assert ([""] + rest)[1..] == rest && (["."] + rest)[1..] == rest && ([".."] + rest)[1..] == rest;
    assert ([name] + ([".."] + rest))[1..] == [".."] + rest;
    assert (stack + [name])[..|stack|] == stack;
  }

  lemma CleanNothing()
    ensures CleanRooted("") == []
  {
    assert "/" + "" == "/" && Split("/", '/') == ["", ""];
    assert ["", ""][1..] == [""] && [""][1..] == [];
  }

  lemma CleanExtraSlash(t: string)
    requires t != "" && t[0] == '/'
    ensures CleanRooted("/" + t) == CleanRooted(t)
  {
    SplitLeadingSlash("/" + t);
    SplitLeadingSlash(t);
    hide Split;
    SkipEmpty(Split("/" + t, '/'), []);
  }

  // ---- Children named with a blank at the end ----

  lemma {:induction false} TrimRightAppend(x: string, y: string)
    ensures TrimRight(x + y) == if TrimRight(y) == "" then TrimRight(x) else x + TrimRight(y)
    decreases |y|
  {
    if y == "" {
      assert x + y == x;
    } else {
      assert (x + y)[|x + y| - 1] == y[|y| - 1];
      assert (x + y)[..|x + y| - 1] == x + y[..|y| - 1];
      if IsSpace(y[|y| - 1]) {
        TrimRightAppend(x, y[..|y| - 1]);
      }
    }
  }

  lemma SlashStays(x: string)
    requires x != ""
    ensures x[0] == '/' ==> TrimSpace(x) == TrimRight(x)
    ensures x[|x| - 1] == '/' ==> TrimRight(x) == x
  {
  }

  // Trimming a path whose last name ends in blanks trims that name.
  lemma TrimmedChild(at: seq<string>, name: string)
    requires Good(at) && GoodSegment(name)
    ensures var x := if at == [] then "/" else Render(at) + "/";
            Render(at + [name]) == x + name && TrimSpace(Render(at + [name])) == x + TrimRight(name)
  {
    RenderChild(at, name);
    var x := if at == [] then "/" else Render(at) + "/";
    hide *;
    assert Render(at + [name]) == x + name;
    SlashStays(x);
    SlashStays(x + name);
    TrimRightAppend(x, name);
    assert x + "" == x;
  }

  // The segments a child path stands for: a blank at the end of the name is lost, and
  // what is left is read as path.Clean reads it.
  function ChildSegments(at: seq<string>, name: string): (segs: seq<string>)
    requires Good(at) && '/' !in name
    ensures Good(segs)
  {
    var t := TrimRight(name);
    if t == "" || t == "." then at
    else if t == ".." then (if at == [] then [] else at[..|at| - 1])
    else at + [t]
  }

  lemma CleanTrimmedChild(at: seq<string>, t: string)
    requires Good(at) && '/' !in t
    ensures CleanRooted((if at == [] then "/" else Render(at) + "/") + t) == CleanSegments(Split(t, '/'), at)
  {
    CleanFrom(at, t);
    if at == [] {
      CleanExtraSlash("/" + t);
      assert Render(at) + "/" + t == "/" + ("/" + t);
    }
  }

  // The path built from strings, for any name a normalised path can hold.
  lemma ChildPathIs(at: seq<string>, name: string)
    requires Good(at) && GoodSegment(name)
    ensures ChildPath(Render(at), name) == Render(ChildSegments(at, name))
    ensures Segments(Render(at + [name])) == ChildSegments(at, name)
  {
    CleanFrom(at, name);
    SplitFree(name, '/');
    OneSegment(at, name);
    TrimmedChild(at, name);
    var t := TrimRight(name);
    SplitFree(t, '/');
    CleanTrimmedChild(at, t);
    OneSegment(at, t);
    hide CleanRooted, CleanSegments, Render, TrimSpace, TrimRight, Split;
  }

  lemma OneSegment(at: seq<string>, t: string)
    requires Good(at) && '/' !in t
    ensures AllFree([t], '/')
    ensures CleanSegments([t], at) ==
              if t == "" || t == "." then at
              else if t == ".." then (if at == [] then [] else at[..|at| - 1])
              else at + [t]
  {
    var parts := [t];
    assert parts[1..] == [];
  }
}
