/** SQL `LIKE` with the backslash as escape character, the escaping the entry
  * repository applies to prefixes, and what the unescaped patterns of the scan queue
  * match. */
module Like {
  import opened Strings
  import opened Paths

  // LIKE over a whole string: '%' matches any run, '_' any one character, a backslash
  // makes the next pattern character literal. A pattern ending in a lone backslash is an
  // error in SQL; none of the patterns below does.
  predicate Matches(s: string, pattern: string)
    decreases |s| + |pattern|
  {
    if pattern == "" then s == ""
    else if pattern[0] == '%' then Matches(s, pattern[1..]) || (s != "" && Matches(s[1..], pattern))
    else if s == "" then false
    else if pattern[0] == '_' then Matches(s[1..], pattern[1..])
    else if pattern[0] == '\\' && |pattern| > 1 then s[0] == pattern[1] && Matches(s[1..], pattern[2..])
    else s[0] == pattern[0] && Matches(s[1..], pattern[1..])
  }

  predicate IsMeta(c: char) {
    c == '%' || c == '_' || c == '\\'
  }

  // No character of the string means something to LIKE.
  predicate Plain(s: string) {
    forall i :: 0 <= i < |s| ==> !IsMeta(s[i])
  }

  // escapeLikePattern: a backslash in front of every metacharacter.
  function Escape(value: string): string {
    if value == "" then ""
    else (if IsMeta(value[0]) then ['\\', value[0]] else [value[0]]) + Escape(value[1..])
  }

  // The pattern the scan queue builds: the path as it stands, then "/%".
  function Subtree(path: string): string {
    path + "/%"
  }

  lemma {:induction false} AnyMatchesPercent(s: string)
    ensures Matches(s, "%")
  {
    if s == "" {
      assert "%"[1..] == "";
    } else {
      AnyMatchesPercent(s[1..]);
    }
  }

  lemma {:induction false} EscapedPrefix(s: string, prefix: string, rest: string)
    ensures Matches(s, Escape(prefix) + rest) <==> prefix <= s && Matches(s[|prefix|..], rest)
    decreases |prefix|
  {
    var pattern := Escape(prefix) + rest;
    if prefix == "" {
      assert pattern == rest;
    } else if s != "" {
      var tail := Escape(prefix[1..]) + rest;
      if IsMeta(prefix[0]) {
        assert pattern == ['\\', prefix[0]] + tail;
        assert pattern[2..] == tail;
      } else {
        assert pattern == [prefix[0]] + tail;
        assert pattern[1..] == tail;
      }
      EscapedPrefix(s[1..], prefix[1..], rest);
      if s[0] == prefix[0] {
        assert prefix <= s <==> prefix[1..] <= s[1..] by { ConsPrefix(prefix, s); }
      }
    } else {
      assert pattern[0] != '%';
    }
  }

  lemma ConsPrefix(a: string, b: string)
    requires a != "" && b != "" && a[0] == b[0]
    ensures a <= b <==> a[1..] <= b[1..]
  {
    assert a == [a[0]] + a[1..] && b == [b[0]] + b[1..];
  }

  lemma SlashPercent(s: string)
    ensures Matches(s, "/%") <==> s != "" && s[0] == '/'
  {
    if s != "" {
      AnyMatchesPercent(s[1..]);
      assert "/%"[1..] == "%";
    }
  }

  // The escaped pattern matches exactly the strings that begin with prefix and a slash,
  // whatever characters the prefix holds.
  lemma EscapingIsExact(s: string, prefix: string)
    ensures Matches(s, Escape(prefix) + "/%") <==> prefix + "/" <= s
  {
    EscapedPrefix(s, prefix, "/%");
    if prefix <= s {
      SlashPercent(s[|prefix|..]);
      assert s == prefix + s[|prefix|..];
    }
  }

  // The prefix filter of ListCursor: escaped prefix and a percent sign.
  lemma PrefixFilterIsExact(s: string, prefix: string)
    ensures Matches(s, Escape(prefix) + "%") <==> prefix <= s
  {
    EscapedPrefix(s, prefix, "%");
    if prefix <= s {
      AnyMatchesPercent(s[|prefix|..]);
    }
  }

  // The WHERE clause of DeleteStaleUnderPrefix, DeleteUnderPrefix and ListUnderPrefix.
  predicate UnderPrefix(path: string, prefix: string) {
    if prefix == "/" then Matches(path, "/%")
    else path == prefix || Matches(path, Escape(prefix) + "/%")
  }

  // On normalised paths the SQL filter accepts what providerPathWithinRoot accepts.
  lemma UnderPrefixIsWithinRoot(path: string, prefix: string)
    requires Normalize(path) == path && Normalize(prefix) == prefix
    ensures UnderPrefix(path, prefix) <==> WithinRoot(path, prefix)
  {
    hide Normalize;
    SlashPercent(path);
    EscapingIsExact(path, prefix);
  }

  // ---- The unescaped patterns of the scan queue ----

  lemma {:induction false} PlainEscapesToItself(s: string)
    requires Plain(s)
    ensures Escape(s) == s
  {
    if s != "" {
      assert !IsMeta(s[0]);
      assert forall i :: 0 <= i < |s| - 1 ==> s[1..][i] == s[i + 1];
      PlainEscapesToItself(s[1..]);
    }
  }

  // A string the unescaped pattern matches: every wildcard becomes an 'a', every escaped
  // character itself.
  function Sample(pattern: string): (r: string)
    ensures |r| <= |pattern|
    decreases |pattern|
  {
    if pattern == "" then ""
    else if pattern[0] == '%' || pattern[0] == '_' then "a" + Sample(pattern[1..])
    else if pattern[0] == '\\' && |pattern| > 1 then [pattern[1]] + Sample(pattern[2..])
    else [pattern[0]] + Sample(pattern[1..])
  }

  lemma {:induction false} SampleMatches(pattern: string)
    ensures Matches(Sample(pattern), pattern)
    decreases |pattern|
  {
    if pattern != "" {
      var s := Sample(pattern);
      if pattern[0] == '%' {
        SampleMatches(pattern[1..]);
        assert s[1..] == Sample(pattern[1..]);
        assert Matches(s[1..], pattern);
      } else if pattern[0] == '\\' && |pattern| > 1 {
        SampleMatches(pattern[2..]);
        assert s[1..] == Sample(pattern[2..]);
      } else {
        SampleMatches(pattern[1..]);
        assert s[1..] == Sample(pattern[1..]);
      }
    }
  }

  lemma {:induction false} SampleEnding(pattern: string)
    requires pattern != "" && pattern[|pattern| - 1] == '%'
    requires |pattern| > 1 ==> pattern[|pattern| - 2] != '\\'
    ensures Sample(pattern) != "" && Sample(pattern)[|Sample(pattern)| - 1] == 'a'
    decreases |pattern|
  {
    if |pattern| == 1 {
      assert pattern[1..] == "";
    } else if pattern[0] == '\\' {
      SampleEnding(pattern[2..]);
    } else {
      SampleEnding(pattern[1..]);
    }
  }

  // A plain head is matched literally.
  lemma {:induction false} PlainHead(s: string, head: string, rest: string)
    requires Plain(head)
    ensures Matches(head + s, head + rest) <==> Matches(s, rest)
  {
    PlainEscapesToItself(head);
    EscapedPrefix(head + s, head, rest);
    assert (head + s)[|head|..] == s;
  }

  lemma FirstMeta(s: string) returns (i: nat)
    requires !Plain(s)
    ensures i < |s| && IsMeta(s[i]) && Plain(s[..i])
  {
    i := 0;
    while !IsMeta(s[i])
      invariant i < |s| && Plain(s[..i])
      invariant exists k :: i <= k < |s| && IsMeta(s[k])
      decreases |s| - i
    {
      assert s[..i + 1] == s[..i] + [s[i]];
      i := i + 1;
    }
  }

  // Some string is classified wrongly by the unescaped pattern of a path that is not plain.
  lemma MisclassifiedBy(path: string) returns (s: string)
    requires !Plain(path)
    ensures !(Matches(s, Subtree(path)) <==> path + "/" <= s)
  {
    var i := FirstMeta(path);
    var head, rest := path[..i], Subtree(path)[i..];
    assert Subtree(path) == head + rest && rest == path[i..] + "/%";
    if path[i] == '\\' {
      s := EscapeMisread(path, i);
    } else {
      // A wildcard: 'b' stands where the path has the metacharacter itself.
      var body := "b" + Sample(rest[1..]);
      SampleMatches(rest[1..]);
      assert body[1..] == Sample(rest[1..]);
      if path[i] == '%' {
        assert Matches(body[1..], rest[1..]);
        assert rest[0] == '%';
        assert Matches(body[1..], rest);
      }
      assert Matches(body, rest);
      PlainHead(body, head, rest);
      s := head + body;
      assert s[i] == 'b' && (path + "/")[i] == path[i];
    }
  }

  // A backslash swallows itself: the pattern matches a string too short to lie below the path.
  lemma EscapeMisread(path: string, i: nat) returns (s: string)
    requires i < |path| && path[i] == '\\' && Plain(path[..i])
    ensures !(Matches(s, Subtree(path)) <==> path + "/" <= s)
  {
    var head, rest := path[..i], Subtree(path)[i..];
    assert Subtree(path) == head + rest;
    assert |rest| > 1 && rest[0] == '\\';
    var body := [rest[1]] + Sample(rest[2..]);
    SampleMatches(rest[2..]);
    assert body[1..] == Sample(rest[2..]);
    assert Matches(body, rest);
    PlainHead(body, head, rest);
    s := head + body;
    // The sample is no longer than path and a slash, and ends in another character.
    SampleEnding(rest[2..]);
    assert |s| <= |path| + 1;
    assert Matches(s, Subtree(path));
    assert s[|s| - 1] == 'a';
  }

  lemma PlainSubtree(s: string, path: string)
    requires Plain(path)
    ensures Matches(s, Subtree(path)) <==> path + "/" <= s
  {
    PlainEscapesToItself(path);
    EscapingIsExact(s, path);
  }

  // The scan queue's subtree pattern means "below this path" for every string if and
  // only if the path holds no LIKE metacharacter.
  lemma SubtreePatternExactIff(path: string)
    ensures (forall s :: Matches(s, Subtree(path)) <==> path + "/" <= s) <==> Plain(path)
  {
    if Plain(path) {
      forall s ensures Matches(s, Subtree(path)) <==> path + "/" <= s {
        PlainSubtree(s, path);
      }
    } else {
      var s := MisclassifiedBy(path);
    }
  }
}
