/** Slash-separated text, clean absolute paths as sequences of segments, and glob patterns. */
module Paths {
  import opened Text

  // ---- Splitting and joining ----

  /** `strings.Split(s, "/")`. */
  function Split(s: string): (r: seq<string>)
    ensures |r| > 0
  {
    if |s| == 0 then [""]
    else
      var rest := Split(s[1..]);
      if s[0] == '/' then [""] + rest else [[s[0]] + rest[0]] + rest[1..]
  }

  function Join(segments: seq<string>): string {
    if |segments| == 0 then ""
    else if |segments| == 1 then segments[0]
    else segments[0] + "/" + Join(segments[1..])
  }

  lemma {:induction false} SplitAtSlash(a: string, b: string)
    ensures Split(a + "/" + b) == Split(a) + Split(b)
  {
    if |a| == 0 {
      assert (a + "/" + b)[1..] == b;
    } else {
      assert (a + "/" + b)[1..] == a[1..] + "/" + b;
      SplitAtSlash(a[1..], b);
    }
  }

  lemma {:induction false} SplitOne(a: string)
    requires '/' !in a
    ensures Split(a) == [a]
  {
    if |a| > 0 {
      SplitOne(a[1..]);
      assert [a[0]] + a[1..] == a;
    }
  }

  lemma {:induction false} SplitJoin(segments: seq<string>)
    requires |segments| > 0 && forall s :: s in segments ==> '/' !in s
    ensures Split(Join(segments)) == segments
  {
    SplitOne(segments[0]);
    if |segments| > 1 {
      SplitJoin(segments[1..]);
      SplitAtSlash(segments[0], Join(segments[1..]));
      assert segments == [segments[0]] + segments[1..];
    }
  }

  /** Segments have no slash in them, and joining them gives the text back. */
  lemma {:induction false} JoinSplit(s: string)
    ensures Join(Split(s)) == s && forall x :: x in Split(s) ==> '/' !in x
  {
    if |s| > 0 {
      JoinSplit(s[1..]);
      var rest := Split(s[1..]);
      if s[0] == '/' {
        assert ([""] + rest)[1..] == rest;
      } else {
        assert Split(s)[1..] == rest[1..];
        if |rest| == 1 { assert Join(rest) == rest[0]; }
      }
    }
  }

  // ---- Sequences, end by end ----

  lemma HeadAndRest<T>(s: seq<T>)
    requires |s| > 0
    ensures s == [s[0]] + s[1..]
  {
  }

  lemma FrontAndLast<T>(s: seq<T>)
    requires |s| > 0
    ensures s == s[..|s| - 1] + [s[|s| - 1]]
  {
  }

  lemma PrefixOfBoth<T>(a: T, rest: seq<T>, s: seq<T>)
    requires |s| > 0
    ensures [a] + rest <= s <==> a == s[0] && rest <= s[1..]
  {
    HeadAndRest(s);
    if [a] + rest <= s {
      assert s[1..][..|rest|] == s[..|rest| + 1][1..] == rest;
    }
  }

  // ---- Clean paths ----

  /** A segment as `filepath.Clean` leaves it in an absolute path. */
  predicate CleanSegment(s: string) {
    s != "" && s != "." && s != ".." && '/' !in s
  }

  ghost predicate Clean(path: seq<string>) {
    forall s :: s in path ==> CleanSegment(s)
  }

  /** `filepath.Rel` for a path at or below the root. */
  function Rel(root: seq<string>, path: seq<string>): string
    requires root <= path
  {
    if path == root then "." else Join(path[|root|..])
  }

  /** `filepath.Join` onto a clean root; `..` takes a segment off again. */
  function JoinPath(root: seq<string>, segments: seq<string>): seq<string>
    decreases |segments|
  {
    if |segments| == 0 then root
    else if segments[0] == ".." then JoinPath(Dir(root), segments[1..])
    else JoinPath(root + [segments[0]], segments[1..])
  }

  function Dir(path: seq<string>): seq<string> {
    if |path| == 0 then path else path[..|path| - 1]
  }

  lemma {:induction false} JoinClean(root: seq<string>, segments: seq<string>)
    requires forall s :: s in segments ==> s != ".."
    ensures JoinPath(root, segments) == root + segments
    decreases |segments|
  {
    if |segments| > 0 {
      assert segments[0] in segments && forall s :: s in segments[1..] ==> s in segments;
      JoinClean(root + [segments[0]], segments[1..]);
      assert root + [segments[0]] + segments[1..] == root + segments;
    }
  }

  // ---- Glob patterns (`filepath.Match`) ----

  datatype Scan = Bad | Good(c: char, rest: string)

  /** One character of a class, possibly escaped; a class cannot end after it. */
  function ClassChar(p: string): Scan {
    if |p| == 0 || p[0] == '-' || p[0] == ']' then Bad
    else if p[0] == '\\' then (if |p| < 3 then Bad else Good(p[1], p[2..]))
    else if |p| < 2 then Bad
    else Good(p[0], p[1..])
  }

  datatype Class = Malformed | Class(matched: bool, rest: string)

  /** The ranges of a class from `p` on; `some` says whether there was one before, `hit` whether one held `c`. */
  function Ranges(p: string, c: char, some: bool, hit: bool): (r: Class)
    ensures r.Class? ==> |r.rest| < |p|
  {
    if some && |p| > 0 && p[0] == ']' then Class(hit, p[1..])
    else
      var lo := ClassChar(p);
      if lo.Bad? then Malformed
      else if lo.rest[0] != '-' then Ranges(lo.rest, c, true, hit || c == lo.c)
      else
        var hi := ClassChar(lo.rest[1..]);
        if hi.Bad? then Malformed else Ranges(hi.rest, c, true, hit || lo.c <= c <= hi.c)
  }

  function MatchClass(p: string, c: char): (r: Class)
    ensures r.Class? ==> |r.rest| < |p|
  {
    if |p| > 0 && p[0] == '^' then
      var r := Ranges(p[1..], c, false, false);
      if r.Class? then Class(!r.matched, r.rest) else r
    else Ranges(p, c, false, false)
  }

  /** The whole text matches the pattern: `*` and `?` stop at slashes, a class does not, a malformed pattern matches nothing. */
  predicate Match(p: string, s: string)
    decreases |p|, |s|
  {
    if |p| == 0 then |s| == 0
    else if p[0] == '*' then Match(p[1..], s) || (|s| > 0 && s[0] != '/' && Match(p, s[1..]))
    else if |s| == 0 then false
    else if p[0] == '?' then s[0] != '/' && Match(p[1..], s[1..])
    else if p[0] == '[' then
      var r := MatchClass(p[1..], s[0]);
      r.Class? && r.matched && Match(r.rest, s[1..])
    else if p[0] == '\\' then |p| > 1 && s[0] == p[1] && Match(p[2..], s[1..])
    else s[0] == p[0] && Match(p[1..], s[1..])
  }

  /** `strings.ContainsAny(s, "*?[")`. */
  predicate HasGlob(s: string) {
    '*' in s || '?' in s || '[' in s
  }

  /** What text without glob characters matches: a backslash stands for the character after it. */
  function Unescape(s: string): string {
    if |s| == 0 then ""
    else if s[0] != '\\' then [s[0]] + Unescape(s[1..])
    else if |s| == 1 then ""
    else [s[1]] + Unescape(s[2..])
  }

  /** A segment without glob characters and the slash after it match one text only. */
  lemma {:induction false} MatchSegment(h: string, p: string, s: string)
    requires !HasGlob(h) && Match(h + "/" + p, s)
    ensures Unescape(h) + "/" <= s && Match(p, s[|Unescape(h)| + 1..])
    decreases |h|
  {
    if |h| == 0 {
      assert (h + "/" + p)[1..] == p;
    } else if h[0] != '\\' {
      assert (h + "/" + p)[1..] == h[1..] + "/" + p;
      MatchSegment(h[1..], p, s[1..]);
    } else if |h| == 1 {
      assert (h + "/" + p)[2..] == p;
    } else {
      assert (h + "/" + p)[2..] == h[2..] + "/" + p;
      MatchSegment(h[2..], p, s[1..]);
    }
  }

  lemma {:induction false} MatchLast(h: string, s: string)
    requires !HasGlob(h) && Match(h, s)
    ensures s == Unescape(h)
    decreases |h|
  {
    if |h| > 0 {
      if h[0] != '\\' { MatchLast(h[1..], s[1..]); } else if |h| > 1 { MatchLast(h[2..], s[1..]); }
    }
  }

  lemma {:induction false} UnescapeNoSlash(h: string)
    requires '/' !in h
    ensures '/' !in Unescape(h)
    decreases |h|
  {
    if |h| > 0 {
      if h[0] != '\\' { UnescapeNoSlash(h[1..]); } else if |h| > 1 { UnescapeNoSlash(h[2..]); }
    }
  }

  /** Unescaping changes exactly the texts with a backslash, and shortens them. */
  lemma {:induction false} UnescapeShortens(h: string)
    ensures if '\\' in h then |Unescape(h)| < |h| else Unescape(h) == h
    decreases |h|
  {
    if |h| > 0 {
      assert h == [h[0]] + h[1..];
      if h[0] != '\\' { UnescapeShortens(h[1..]); } else if |h| > 1 { UnescapeShortens(h[2..]); }
    }
  }

  /** A space at either end stays there. */
  lemma {:induction false} UnescapeKeepsPadding(h: string)
    requires |h| > 0
    ensures IsSpace(h[0]) ==> |Unescape(h)| > 0 && IsSpace(Unescape(h)[0])
    ensures IsSpace(h[|h| - 1]) ==> |Unescape(h)| > 0 && IsSpace(Unescape(h)[|Unescape(h)| - 1])
    decreases |h|
  {
    if |h| > 1 {
      if h[0] != '\\' { UnescapeKeepsPadding(h[1..]); } else if |h| > 2 { UnescapeKeepsPadding(h[2..]); }
    }
  }
}
