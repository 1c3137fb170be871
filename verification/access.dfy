/** What a pattern lets a stage write, path by path. */
module Access {
  import opened Paths
  import opened Mounts
  import opened Coverage

  // ---- Globs ----

  /** A star stands for any text without a slash. */
  lemma {:induction false} StarSplits(p: string, s: string)
    ensures Match("*" + p, s) <==> exists k: nat :: SplitsAt(p, s, k)
    decreases |s|
  {
    assert ("*" + p)[1..] == p;
    if |s| > 0 && s[0] != '/' {
      StarSplits(p, s[1..]);
      if k: nat :| SplitsAt(p, s[1..], k) { SplitLater(p, s, k); }
      if k: nat :| SplitsAt(p, s, k) && k > 0 { SplitLater(p, s, k - 1); }
    }
    if Match(p, s) { assert SplitsAt(p, s, 0); }
    if SplitsAt(p, s, 0) { assert s[0..] == s; }
  }

  ghost predicate SplitsAt(p: string, s: string, k: nat) {
    k <= |s| && '/' !in s[..k] && Match(p, s[k..])
  }

  lemma SplitLater(p: string, s: string, k: nat)
    requires |s| > 0 && s[0] != '/'
    ensures SplitsAt(p, s, k + 1) <==> SplitsAt(p, s[1..], k)
  {
    if k < |s| {
      assert s[..k + 1] == [s[0]] + s[1..][..k];
      assert s[k + 1..] == s[1..][k..];
    }
  }

  ghost predicate Literal(s: string) {
    !HasGlob(s) && '\\' !in s
  }

  /** Text without special characters stands for itself. */
  lemma {:induction false} LiteralPrefix(h: string, p: string, s: string)
    requires Literal(h)
    ensures Match(h + p, s) <==> h <= s && Match(p, s[|h|..])
  {
    if |h| > 0 {
      assert h == [h[0]] + h[1..] && (h + p)[1..] == h[1..] + p;
      if |s| > 0 {
        LiteralPrefix(h[1..], p, s[1..]);
        PrefixOfBoth(h[0], h[1..], s);
        if h <= s { assert s[|h|..] == s[1..][|h| - 1..]; }
      }
    } else {
      assert h + p == p;
    }
  }

  lemma LiteralMatch(h: string, s: string)
    requires Literal(h)
    ensures Match(h, s) <==> h == s
  {
    LiteralPrefix(h, "", s);
    assert h + "" == h;
    if h <= s && s[|h|..] == "" { assert s == h + s[|h|..]; }
  }

  /** A question mark stands for one character that is not a slash. */
  lemma QuestionMark(p: string, s: string)
    ensures Match("?" + p, s) <==> |s| > 0 && s[0] != '/' && Match(p, s[1..])
  {
    assert ("?" + p)[1..] == p;
  }

  /** Neither has a meaning of its own within a class. */
  predicate ClassLetter(c: char) {
    c != '-' && c != ']' && c != '\\' && c != '^'
  }

  /** A range stands for one character inside its bounds, or outside of them if it begins with a caret. */
  lemma RangeMatches(p: string, s: string, lo: char, hi: char)
    requires ClassLetter(lo) && ClassLetter(hi)
    ensures Match("[" + ([lo, '-', hi] + "]" + p), s) <==> |s| > 0 && lo <= s[0] <= hi && Match(p, s[1..])
    ensures Match("[" + ("^" + ([lo, '-', hi] + "]" + p)), s) <==> |s| > 0 && !(lo <= s[0] <= hi) && Match(p, s[1..])
  {
    var r := [lo, '-', hi] + "]" + p;
    MatchOfClass(r, s);
    MatchOfClass("^" + r, s);
    if |s| > 0 { RangeClass(p, s[0], lo, hi); }
  }

  lemma MatchOfClass(r: string, s: string)
    ensures Match("[" + r, s) <==> |s| > 0 && var c := MatchClass(r, s[0]); c.Class? && c.matched && Match(c.rest, s[1..])
  {
    assert ("[" + r)[1..] == r;
  }

  lemma RangeClass(p: string, c: char, lo: char, hi: char)
    requires ClassLetter(lo) && ClassLetter(hi)
    ensures var r := [lo, '-', hi] + "]" + p;
      MatchClass(r, c) == Class(lo <= c <= hi, p) && MatchClass("^" + r, c) == Class(!(lo <= c <= hi), p)
  {
    var r := [lo, '-', hi] + "]" + p;
    RangeIs(p, c, lo, hi);
    assert ("^" + r)[1..] == r;
  }

  lemma RangeIs(p: string, c: char, lo: char, hi: char)
    requires ClassLetter(lo) && ClassLetter(hi)
    ensures Ranges([lo, '-', hi] + "]" + p, c, false, false) == Class(lo <= c <= hi, p)
  {
    var r := [lo, '-', hi] + "]" + p;
    assert r[1..] == ['-', hi, ']'] + p && r[1..][1..] == [hi, ']'] + p && ([hi, ']'] + p)[1..] == "]" + p && ("]" + p)[1..] == p;
    assert ClassChar(r) == Good(lo, r[1..]);
    assert ClassChar(r[1..][1..]) == Good(hi, "]" + p);
    assert Ranges("]" + p, c, true, lo <= c <= hi) == Class(lo <= c <= hi, p);
  }

  // ---- Paths ----

  lemma {:induction false} JoinChars(segments: seq<string>, c: char)
    requires c in Join(segments)
    ensures c == '/' || exists s :: s in segments && c in s
  {
    if |segments| > 1 && c !in segments[0] && c != '/' {
      JoinChars(segments[1..], c);
      var s :| s in segments[1..] && c in s;
      assert s in segments;
    } else if |segments| > 0 {
      assert segments[0] in segments;
    }
  }

  lemma {:induction false} JoinAppend(a: seq<string>, b: seq<string>)
    requires |a| > 0 && |b| > 0
    ensures Join(a + b) == Join(a) + "/" + Join(b)
  {
    if |a| == 1 {
      assert (a + b)[1..] == b;
    } else {
      assert (a + b)[1..] == a[1..] + b;
      JoinAppend(a[1..], b);
    }
  }

  /** Segments of clean paths, without special characters. */
  ghost predicate Ordinary(segments: seq<string>) {
    |segments| > 0 && Clean(segments) && forall s :: s in segments ==> Literal(s)
  }

  lemma OrdinaryText(segments: seq<string>)
    requires Ordinary(segments)
    ensures Literal(Join(segments)) && Split(Join(segments)) == segments && Join(segments) != "" && Join(segments) != "."
    ensures forall rest :: TrimDot(Join(segments) + "/" + rest) == Join(segments) + "/" + rest
    ensures TrimDot(Join(segments)) == Join(segments)
  {
    forall c | c in Join(segments) && (c == '*' || c == '?' || c == '[' || c == '\\') ensures false {
      JoinChars(segments, c);
    }
    SplitJoin(segments);
    JoinStarts(segments);
    forall rest ensures TrimDot(Join(segments) + "/" + rest) == Join(segments) + "/" + rest {
      var t := Join(segments) + "/" + rest;
      if |Join(segments)| >= 2 { assert t[0] == Join(segments)[0] && t[1] == Join(segments)[1]; }
    }
  }

  ghost predicate IsBelow(root: Path, path: Path, below: seq<string>, text: string) {
    |below| > 0 && Clean(below) && path == root + below && text == Join(below) && TrimDot(text) == text && Split(text) == below
  }

  /** The text of a clean path below the root, as the patterns see it. */
  lemma BelowText(root: Path, path: Path)
    requires root < path && Clean(path)
    ensures IsBelow(root, path, path[|root|..], Rel(root, path))
  {
    var below := path[|root|..];
    forall s | s in below ensures CleanSegment(s) { assert s in path; }
    SplitJoin(below);
    JoinStarts(below);
  }

  lemma DotText(root: Path)
    ensures Rel(root, root) == "." && TrimDot(".") == "." && Split(".") == ["."]
  {
    SplitOne(".");
  }

  lemma AnyBelowEnds(p: string)
    ensures EndsAnyBelow(p) ==> p[|p| - 2] == '*'
  {
    if EndsAnyBelow(p) { assert p[|p| - 3..][1] == '*'; }
  }

  /** A pattern without special characters allows the one path it names, and no other. */
  lemma NamedPathAllowed(root: Path, segments: seq<string>, path: Path)
    requires Ordinary(segments) && Clean(path)
    ensures AllowsBy(root, Join(segments), path) <==> path == root + segments
  {
    var p := Join(segments);
    OrdinaryText(segments);
    if root <= path {
      DotText(root);
      if root < path { BelowText(root, path); }
      LiteralMatch(p, TrimDot(Rel(root, path)));
      AnyBelowEnds(p);
    }
  }

  lemma SameRoot<T>(root: seq<T>, a: seq<T>, b: seq<T>)
    ensures root + a <= root + b <==> a <= b
  {
    if root + a <= root + b {
      assert a == (root + b)[|root|..|root| + |a|] == b[..|a|];
    }
  }

  /** Two stars after such a name allow it and everything below it, at any depth. */
  lemma TreeAllowed(root: Path, segments: seq<string>, path: Path)
    requires Ordinary(segments) && Clean(path)
    ensures AllowsBy(root, Join(segments) + ANY_BELOW, path) <==> root + segments <= path
  {
    var q := Join(segments);
    var p := q + ANY_BELOW;
    OrdinaryText(segments);
    assert p == q + "/" + "**" && WithoutSuffix(p) == q && TrimDot(p) == p;
    if root <= path {
      DotText(root);
      if root < path {
        BelowText(root, path);
        TreeBelow(segments, path[|root|..]);
        SameRoot(root, segments, path[|root|..]);
      } else {
        SlashNotDot(q);
        assert p != "." && p != "";
      }
    }
  }

  lemma TreeBelow(segments: seq<string>, below: seq<string>)
    requires Ordinary(segments) && |below| > 0 && Clean(below)
    ensures Join(below) == Join(segments) || Join(segments) + "/" <= Join(below) <==> segments <= below
    ensures Join(below) == Join(segments) + "/" + "**" ==> segments <= below
  {
    OrdinaryText(segments);
    if Join(below) == Join(segments) || Join(segments) + "/" <= Join(below) { SplitBelow(Join(segments), below); }
    if segments <= below { JoinBelow(segments, below); }
  }

  lemma JoinBelow(segments: seq<string>, below: seq<string>)
    requires |segments| > 0 && segments <= below
    ensures Join(below) == Join(segments) || Join(segments) + "/" <= Join(below)
  {
    var rest := below[|segments|..];
    assert below == segments + rest;
    if rest == [] { assert below == segments; } else { JoinAppend(segments, rest); }
  }

  /** One star allows what lies directly below it, and nothing deeper. */
  lemma ChildrenAllowed(root: Path, segments: seq<string>, path: Path)
    requires Ordinary(segments) && Clean(path)
    ensures AllowsBy(root, Join(segments) + "/*", path) <==> root + segments <= path && |path| == |root + segments| + 1
  {
    var q := Join(segments);
    var p := q + "/*";
    OrdinaryText(segments);
    assert p == q + "/" + "*" && TrimDot(p) == p && p[|p| - 2] == '/';
    AnyBelowEnds(p);
    if root <= path {
      DotText(root);
      StarBelow(q, Rel(root, path));
      if root < path {
        BelowText(root, path);
        ChildBelow(segments, path[|root|..]);
        SameRoot(root, segments, path[|root|..]);
      } else {
        SlashNotDot(q);
      }
    }
  }

  lemma StarBelow(q: string, text: string)
    requires Literal(q)
    ensures Match(q + "/*", text) <==> q + "/" <= text && '/' !in text[|q| + 1..]
    ensures text == q + "/*" ==> q + "/" <= text && '/' !in text[|q| + 1..]
  {
    var h := q + "/";
    assert q + "/*" == h + "*" && Literal(h);
    LiteralPrefix(h, "*", text);
    if h <= text {
      var rest := text[|h|..];
      StarSplits("", rest);
      assert "*" + "" == "*";
      if k: nat :| SplitsAt("", rest, k) { assert rest[..k] == rest; }
      if '/' !in rest { assert rest[..|rest|] == rest && SplitsAt("", rest, |rest|); }
    }
  }

  lemma ChildBelow(segments: seq<string>, below: seq<string>)
    requires Ordinary(segments) && |below| > 0 && Clean(below)
    ensures var q, text := Join(segments), Join(below);
      q + "/" <= text && '/' !in text[|q| + 1..] <==> segments <= below && |below| == |segments| + 1
  {
    var q, text := Join(segments), Join(below);
    OrdinaryText(segments);
    SplitJoin(below);
    if q + "/" <= text && '/' !in text[|q| + 1..] {
      RestOf(q + "/", text);
      OneSegmentMore(q, text[|q| + 1..]);
    }
    if segments <= below && |below| == |segments| + 1 { JoinOneMore(segments, below); }
  }

  lemma RestOf<T>(h: seq<T>, s: seq<T>)
    requires h <= s
    ensures s == h + s[|h|..]
  {
  }

  lemma OneSegmentMore(q: string, x: string)
    requires '/' !in x
    ensures Split(q + "/" + x) == Split(q) + [x]
  {
    SplitAtSlash(q, x);
    SplitOne(x);
  }

  lemma JoinOneMore(segments: seq<string>, below: seq<string>)
    requires |segments| > 0 && segments <= below && |below| == |segments| + 1 && Clean(below)
    ensures var q, text := Join(segments), Join(below); q + "/" <= text && '/' !in text[|q| + 1..]
  {
    var x := below[|segments|];
    assert x in below && CleanSegment(x);
    FrontAndLast(below);
    assert segments == below[..|below| - 1];
    JoinAppend(segments, [x]);
  }

  /** The empty pattern and a dot allow the root itself; a leading `./` makes no difference. */
  lemma RootAllowed(root: Path, pattern: string, path: Path)
    requires Clean(path)
    ensures pattern == "" || pattern == "." ==> (AllowsBy(root, pattern, path) <==> path == root)
    ensures TrimDot(pattern) == pattern ==> (AllowsBy(root, "./" + pattern, path) <==> AllowsBy(root, pattern, path))
  {
    assert TrimDot("./" + pattern) == pattern;
    if root < path { BelowText(root, path); }
    DotText(root);
    if root < path { JoinStarts(path[|root|..]); }
  }
}
