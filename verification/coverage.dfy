/**
 The sandbox and the container read a pattern independently of each other.  For any path that
 the sandbox allows through a pattern, this says exactly when the container's mount covers it.
 */
module Coverage {
  import opened Text
  import opened Paths
  import opened Mounts

  // ---- The segments that decide ----

  /** The segments before the first one with a glob character, as they are written. */
  function Fixed(segments: seq<string>): seq<string> {
    if |segments| == 0 || HasGlob(segments[0]) then [] else [segments[0]] + Fixed(segments[1..])
  }

  predicate Skipped(s: string) {
    TrimSpace(s) == "" || TrimSpace(s) == "."
  }

  /** The trimmed segments that are not skipped. */
  function Kept(raw: seq<string>): seq<string> {
    if |raw| == 0 then []
    else if Skipped(raw[0]) then Kept(raw[1..])
    else [TrimSpace(raw[0])] + Kept(raw[1..])
  }

  /** Up to the last segment that is not skipped. */
  function UpToKept(raw: seq<string>): seq<string> {
    if |raw| > 0 && Skipped(raw[|raw| - 1]) then UpToKept(raw[..|raw| - 1]) else raw
  }

  /** ... or to the one before it, if that last one looks like a file name. */
  function Mounted(raw: seq<string>): seq<string> {
    var r := UpToKept(raw);
    if |r| > 0 && '.' in TrimSpace(r[|r| - 1]) then UpToKept(r[..|r| - 1]) else r
  }

  /** What the sandbox goes by: the pattern without a leading dot. */
  function FixedSegments(pattern: string): seq<string> {
    Fixed(Split(TrimDot(pattern)))
  }

  /** Those of them that end up in the path of the mount. */
  function MountedSegments(pattern: string): seq<string> {
    Mounted(FixedSegments(pattern))
  }

  /** The last branch of `matchPattern`. */
  predicate ByGlob(pattern: string, relative: string) {
    var p := TrimDot(pattern);
    p != "" && p != "." && p != TrimDot(relative) && !EndsAnyBelow(p)
  }

  /** The container takes the segment for what the sandbox takes it for. */
  predicate ReadAlike(s: string, glob: bool) {
    TrimSpace(s) == s && (glob ==> '\\' !in s)
  }

  /** What the sandbox takes it for. */
  function Read(s: string, glob: bool): string {
    if glob then Unescape(s) else s
  }

  // ---- What the sandbox allows goes through the fixed segments ----

  ghost predicate Through(raw: seq<string>, segments: seq<string>, glob: bool) {
    |raw| <= |segments| && forall i :: 0 <= i < |raw| ==> segments[i] == Read(raw[i], glob)
  }

  lemma {:induction false} FixedOfSame(segments: seq<string>)
    ensures Fixed(segments) <= segments
  {
    if |segments| > 0 && !HasGlob(segments[0]) {
      FixedOfSame(segments[1..]);
      assert segments == [segments[0]] + segments[1..];
    }
  }

  lemma {:induction false} FixedAppend(a: seq<string>, b: string)
    requires HasGlob(b)
    ensures Fixed(a + [b]) == Fixed(a)
  {
    if |a| > 0 {
      assert (a + [b])[1..] == a[1..] + [b];
      FixedAppend(a[1..], b);
    }
  }

  lemma AnyBelowSegments(q: string)
    ensures Split(q + ANY_BELOW) == Split(q) + ["**"] && Fixed(Split(q + ANY_BELOW)) == Fixed(Split(q))
  {
    assert q + ANY_BELOW == q + "/" + "**";
    SplitAtSlash(q, "**");
    SplitOne("**");
    assert "**"[0] == '*';
    FixedAppend(Split(q), "**");
  }

  lemma ThroughAnyBelow(q: string, segments: seq<string>)
    requires |segments| > 0 && Clean(segments) && (Join(segments) == q || q + "/" <= Join(segments))
    ensures Through(Fixed(Split(q)), segments, false)
  {
    SplitBelow(q, segments);
    FixedOfSame(Split(q));
    PrefixThrough(Fixed(Split(q)), Split(q), segments);
  }

  lemma SplitBelow(q: string, segments: seq<string>)
    requires |segments| > 0 && Clean(segments) && (Join(segments) == q || q + "/" <= Join(segments))
    ensures Split(q) <= segments
  {
    SplitJoin(segments);
    if Join(segments) != q {
      var m := Join(segments)[|q| + 1..];
      assert Join(segments) == q + "/" + m;
      SplitAtSlash(q, m);
    }
  }

  lemma PrefixThrough(raw: seq<string>, all: seq<string>, segments: seq<string>)
    requires raw <= all <= segments
    ensures Through(raw, segments, false)
  {
  }

  lemma {:induction false} ThroughGlob(pattern: seq<string>, segments: seq<string>)
    requires |pattern| > 0 && (forall s :: s in pattern ==> '/' !in s)
    requires |segments| > 0 && Clean(segments) && Match(Join(pattern), Join(segments))
    ensures Through(Fixed(pattern), segments, true)
    decreases |pattern|
  {
    var h := pattern[0];
    if !HasGlob(h) {
      UnescapeNoSlash(h);
      SplitJoin(segments);
      if |pattern| == 1 {
        MatchLast(h, Join(segments));
        SplitOne(Unescape(h));
      } else {
        FirstSegment(h, Join(pattern[1..]), segments);
        assert forall s :: s in pattern[1..] ==> s in pattern;
        assert forall s :: s in segments[1..] ==> s in segments;
        ThroughGlob(pattern[1..], segments[1..]);
      }
    }
  }

  /** What matches a segment and a slash begins with what that segment stands for. */
  lemma FirstSegment(h: string, p: string, segments: seq<string>)
    requires !HasGlob(h) && '/' !in h && |segments| > 0 && Clean(segments) && Match(h + "/" + p, Join(segments))
    ensures |segments| > 1 && segments[0] == Unescape(h) && Match(p, Join(segments[1..]))
  {
    var s, u := Join(segments), Unescape(h);
    MatchSegment(h, p, s);
    var m := s[|u| + 1..];
    assert s == u + "/" + m;
    UnescapeNoSlash(h);
    SplitAtSlash(u, m);
    SplitOne(u);
    SplitJoin(segments);
    assert segments == [u] + Split(m);
    JoinSplit(m);
    assert segments[1..] == Split(m);
  }

  lemma JoinStarts(segments: seq<string>)
    requires |segments| > 0 && Clean(segments)
    ensures Join(segments) != "" && Join(segments) != "." && TrimDot(Join(segments)) == Join(segments)
  {
    var a, s := segments[0], Join(segments);
    assert a in segments && CleanSegment(a) && a <= s;
    if |a| >= 2 { assert s[1] == a[1] && a[1] in a; }
  }

  /** A clean path below the root that the pattern matches begins with what its fixed segments stand for. */
  lemma AllowedGoesThrough(pattern: string, segments: seq<string>)
    requires |segments| > 0 && Clean(segments) && MatchPattern(pattern, Join(segments))
    ensures Through(FixedSegments(pattern), segments, ByGlob(pattern, Join(segments)))
  {
    var p := TrimDot(pattern);
    JoinStarts(segments);
    if p == Join(segments) {
      ThroughAnyBelow(p, segments);
    } else if EndsAnyBelow(p) {
      WithSuffix(p);
      ThroughAnyBelow(WithoutSuffix(p), segments);
    } else {
      ThroughGlobText(p, segments);
    }
  }

  lemma WithSuffix(p: string)
    requires EndsAnyBelow(p)
    ensures Fixed(Split(p)) == Fixed(Split(WithoutSuffix(p)))
  {
    assert p == WithoutSuffix(p) + ANY_BELOW;
    AnyBelowSegments(WithoutSuffix(p));
  }

  lemma ThroughGlobText(p: string, segments: seq<string>)
    requires |segments| > 0 && Clean(segments) && Match(p, Join(segments))
    ensures Through(Fixed(Split(p)), segments, true)
  {
    JoinSplit(p);
    ThroughGlob(Split(p), segments);
  }

  // ---- The root itself ----

  lemma SlashNotDot(q: string)
    ensures !(q + "/" <= ".")
  {
    assert (q + "/")[|q|] == '/';
  }

  lemma NoSlashMatchesDot(h: string, p: string)
    requires !HasGlob(h)
    ensures !Match(h + "/" + p, ".")
  {
    SlashNotDot(Unescape(h));
    if Match(h + "/" + p, ".") { MatchSegment(h, p, "."); }
  }

  lemma {:induction false} DotComesFromDot(h: string)
    requires Unescape(h) == "."
    ensures '.' in h
    decreases |h|
  {
    if |h| > 0 && h[0] != '\\' { assert Unescape(h)[0] == h[0]; } else if |h| > 1 { assert Unescape(h)[0] == h[1]; }
  }

  lemma DotMountsNothing(h: string)
    requires h == "" || Unescape(h) == "."
    ensures MountsNothing([h])
  {
    var raw, none: seq<string> := [h], [];
    assert raw[..|raw| - 1] == none && UpToKept(none) == none;
    assert TrimSpace("") == "";
    if h != "" { DotComesFromDot(h); }
    TrimKeeps(h, '.');
    UnescapeShortens("..");
  }

  ghost predicate MountsNothing(raw: seq<string>) {
    Mounted(raw) == [] && forall s :: s in raw ==> s != ".."
  }

  lemma GlobAtRoot(pattern: seq<string>)
    requires |pattern| > 0 && Match(Join(pattern), ".")
    ensures MountsNothing(Fixed(pattern))
  {
    var h := pattern[0];
    if !HasGlob(h) {
      if |pattern| > 1 {
        NoSlashMatchesDot(h, Join(pattern[1..]));
      } else {
        MatchLast(h, ".");
        DotMountsNothing(h);
        assert Fixed(pattern) == [h];
      }
    }
  }

  lemma DotItself(p: string)
    requires p == "" || p == "."
    ensures MountsNothing(Fixed(Split(p)))
  {
    SplitOne(p);
    UnescapeShortens(".");
    DotMountsNothing(p);
    assert Fixed([p]) == [p];
  }

  /** A pattern that allows the scope's root mounts nothing below it. */
  lemma RootMountsNothing(pattern: string)
    requires MatchPattern(pattern, ".")
    ensures MountsNothing(FixedSegments(pattern))
  {
    var p := TrimDot(pattern);
    if p == "" || p == "." {
      DotItself(p);
    } else if EndsAnyBelow(p) {
      WithSuffix(p);
      SlashNotDot(WithoutSuffix(p));
      DotItself(WithoutSuffix(p));
    } else {
      JoinSplit(p);
      GlobAtRoot(Split(p));
    }
  }

  // ---- The container's root of a pattern ----

  lemma {:induction false} StaticIsKept(segments: seq<string>)
    ensures Static(segments) == Kept(Fixed(segments))
  {
    if |segments| > 0 {
      TrimKeeps(segments[0], '*');
      TrimKeeps(segments[0], '?');
      TrimKeeps(segments[0], '[');
      StaticIsKept(segments[1..]);
      assert !HasGlob(segments[0]) ==> Fixed(segments)[1..] == Fixed(segments[1..]);
    }
  }

  lemma {:induction false} KeptAppend(a: seq<string>, b: string)
    ensures Kept(a + [b]) == Kept(a) + if Skipped(b) then [] else [TrimSpace(b)]
  {
    if |a| == 0 {
      assert a + [b] == [b] && [b][1..] == [];
    } else {
      assert (a + [b])[1..] == a[1..] + [b];
      KeptAppend(a[1..], b);
    }
  }

  lemma {:induction false} KeptUpToKept(raw: seq<string>)
    ensures Kept(UpToKept(raw)) == Kept(raw) && UpToKept(raw) <= raw && EndsKept(UpToKept(raw))
  {
    if |raw| > 0 && Skipped(raw[|raw| - 1]) {
      KeptUpToKept(raw[..|raw| - 1]);
      KeptAppend(raw[..|raw| - 1], raw[|raw| - 1]);
      FrontAndLast(raw);
    }
  }

  predicate EndsKept(raw: seq<string>) {
    raw == [] || !Skipped(raw[|raw| - 1])
  }

  lemma KeptEnd(raw: seq<string>)
    requires |raw| > 0 && EndsKept(raw)
    ensures Kept(raw) == Kept(raw[..|raw| - 1]) + [TrimSpace(raw[|raw| - 1])]
  {
    FrontAndLast(raw);
    KeptAppend(raw[..|raw| - 1], raw[|raw| - 1]);
  }

  /** All but the last if that looks like a file name. */
  function WithoutFile(k: seq<string>): seq<string> {
    if |k| > 0 && '.' in k[|k| - 1] then k[..|k| - 1] else k
  }

  /** The mounted segments, kept and trimmed, are the fixed ones but for a file name at the end. */
  lemma KeptMounted(raw: seq<string>)
    ensures Kept(Mounted(raw)) == WithoutFile(Kept(raw)) && Mounted(raw) <= raw && EndsKept(Mounted(raw))
  {
    var r := UpToKept(raw);
    KeptUpToKept(raw);
    if |r| > 0 {
      KeptEnd(r);
      KeptUpToKept(r[..|r| - 1]);
    }
  }

  lemma {:induction false} KeptNoneUp(raw: seq<string>)
    requires forall s :: s in raw ==> TrimSpace(s) != ".."
    ensures forall s :: s in Kept(raw) ==> s != ".."
  {
    if |raw| > 0 {
      assert raw[0] in raw && forall s :: s in raw[1..] ==> s in raw;
      KeptNoneUp(raw[1..]);
    }
  }

  lemma DotPrefix(pattern: string)
    ensures Kept(Fixed(Split(pattern))) == Kept(FixedSegments(pattern))
    ensures forall s :: s in FixedSegments(pattern) ==> s in Fixed(Split(pattern))
  {
    if TrimDot(pattern) != pattern {
      assert pattern == "." + "/" + TrimDot(pattern);
      SplitAtSlash(".", TrimDot(pattern));
      SplitOne(".");
      assert TrimSpace(".") == ".";
      assert (["."] + Split(TrimDot(pattern)))[1..] == Split(TrimDot(pattern));
      assert Fixed(Split(pattern))[1..] == FixedSegments(pattern);
    }
  }

  lemma PatternRootIs(root: Path, pattern: string)
    requires TrimSpace(pattern) == pattern && forall s :: s in FixedSegments(pattern) ==> TrimSpace(s) != ".."
    ensures WritablePatternRoot(root, pattern) == root + Kept(MountedSegments(pattern))
  {
    StaticIsKept(Split(pattern));
    DotPrefix(pattern);
    KeptMounted(FixedSegments(pattern));
    KeptNoneUp(FixedSegments(pattern));
    RootOf(root, pattern);
  }

  lemma RootOf(root: Path, pattern: string)
    requires TrimSpace(pattern) == pattern && forall s :: s in Static(Split(pattern)) ==> s != ".."
    ensures WritablePatternRoot(root, pattern) == root + WithoutFile(Static(Split(pattern)))
  {
    var k := Static(Split(pattern));
    JoinClean(root, k);
    if |k| > 0 {
      DirBelow(root, k);
      NotSpecial(pattern);
    }
  }

  lemma DirBelow(root: Path, k: seq<string>)
    requires |k| > 0
    ensures Dir(root + k) == root + k[..|k| - 1]
  {
  }

  lemma NotSpecial(pattern: string)
    requires Static(Split(pattern)) != []
    ensures pattern != "" && pattern != "." && pattern != "**"
  {
    StaticOfOne("");
    StaticOfOne(".");
    assert "**"[0] == '*';
    StaticOfOne("**");
  }

  lemma StaticOfOne(s: string)
    requires '/' !in s && (s == "" || s == "." || HasGlob(s))
    ensures Static(Split(s)) == []
  {
    SplitOne(s);
    StaticIsKept([s]);
    if !HasGlob(s) { TrimSpaceEnds(s); }
  }

  // ---- Segment by segment ----

  /** Trimming a segment gives what it stands for exactly if it has no padding and, in a glob, no backslash. */
  lemma ReadAlikeIff(s: string, glob: bool)
    requires CleanSegment(Read(s, glob))
    ensures TrimSpace(s) == Read(s, glob) <==> ReadAlike(s, glob)
    ensures Skipped(s) ==> !ReadAlike(s, glob)
    ensures TrimSpace(s) != s ==> TrimSpace(Read(s, glob)) != Read(s, glob)
  {
    var v := Read(s, glob);
    UnescapeShortens(s);
    TrimSpaceEnds(s);
    TrimSpaceEnds(v);
    if |s| > 0 { UnescapeKeepsPadding(s); }
    TrimKeeps(s, '\\');
  }

  /** The kept segments are where the path begins exactly if both readings of all of them are the same. */
  lemma {:induction false} KeptPrefixIff(raw: seq<string>, segments: seq<string>, glob: bool)
    requires Through(raw, segments, glob) && Clean(segments)
    requires EndsKept(raw)
    ensures Kept(raw) <= segments <==> forall s :: s in raw ==> ReadAlike(s, glob)
    ensures (forall s :: s in raw ==> ReadAlike(s, glob)) ==> Kept(raw) == raw
  {
    if |raw| > 0 {
      HeadAndRest(raw);
      assert forall s :: s in segments[1..] ==> s in segments;
      KeptPrefixIff(raw[1..], segments[1..], glob);
      assert segments[0] == Read(raw[0], glob) && segments[0] in segments;
      KeptHead(raw, segments, glob);
    }
  }

  lemma KeptHead(raw: seq<string>, segments: seq<string>, glob: bool)
    requires |raw| > 0 && |segments| > 0 && EndsKept(raw) && segments[0] == Read(raw[0], glob) && CleanSegment(segments[0])
    ensures Kept(raw) <= segments <==> ReadAlike(raw[0], glob) && Kept(raw[1..]) <= segments[1..]
    ensures ReadAlike(raw[0], glob) ==> Kept(raw) == [raw[0]] + Kept(raw[1..])
  {
    ReadAlikeIff(raw[0], glob);
    if Skipped(raw[0]) {
      FirstKeptIsTrimmed(raw[1..]);
    } else {
      PrefixOfBoth(TrimSpace(raw[0]), Kept(raw[1..]), segments);
    }
  }

  lemma {:induction false} FirstKeptIsTrimmed(raw: seq<string>)
    requires |raw| > 0 && !Skipped(raw[|raw| - 1])
    ensures |Kept(raw)| > 0 && TrimSpace(Kept(raw)[0]) == Kept(raw)[0]
  {
    TrimSpaceTwice(raw[0]);
    if Skipped(raw[0]) { FirstKeptIsTrimmed(raw[1..]); }
  }

  // ---- Exactly when a mount covers ----

  /** No fixed segment is two dots behind or before spaces; nothing can be said of those, since the container goes up for them. */
  ghost predicate NoPaddedUp(pattern: string) {
    forall s :: s in FixedSegments(pattern) ==> TrimSpace(s) == ".." ==> s == ".."
  }

  lemma AllowedNeverUp(pattern: string, segments: seq<string>)
    requires |segments| > 0 && Clean(segments) && MatchPattern(pattern, Join(segments)) && NoPaddedUp(pattern)
    ensures forall s :: s in FixedSegments(pattern) ==> TrimSpace(s) != ".."
  {
    var raw := FixedSegments(pattern);
    AllowedGoesThrough(pattern, segments);
    forall i | 0 <= i < |raw| ensures TrimSpace(raw[i]) != ".." {
      assert segments[i] in segments;
      UnescapeShortens("..");
    }
  }

  /**
   Any clean path that the sandbox allows through a trimmed pattern lies at or below the
   pattern's writable root if and only if no mounted segment is padded with spaces and, where
   the path is allowed as a glob, none has a backslash.
   */
  lemma MountCoversIff(root: Path, pattern: string, path: Path)
    requires Clean(path) && TrimSpace(pattern) == pattern && NoPaddedUp(pattern) && AllowsBy(root, pattern, path)
    ensures WritablePatternRoot(root, pattern) <= path
       <==> forall s :: s in MountedSegments(pattern) ==> ReadAlike(s, ByGlob(pattern, Rel(root, path)))
  {
    if path == root {
      RootMountsNothing(pattern);
      PatternRootIs(root, pattern);
    } else {
      var segments := path[|root|..];
      assert path == root + segments && forall s :: s in segments ==> s in path;
      BelowRootIff(root, pattern, segments);
    }
  }

  lemma BelowRootIff(root: Path, pattern: string, segments: seq<string>)
    requires |segments| > 0 && Clean(segments) && TrimSpace(pattern) == pattern && NoPaddedUp(pattern)
    requires MatchPattern(pattern, Join(segments))
    ensures WritablePatternRoot(root, pattern) <= root + segments
       <==> forall s :: s in MountedSegments(pattern) ==> ReadAlike(s, ByGlob(pattern, Join(segments)))
  {
    AllowedGoesThrough(pattern, segments);
    AllowedNeverUp(pattern, segments);
    PatternRootIs(root, pattern);
    MountedBelowIff(root, FixedSegments(pattern), segments, ByGlob(pattern, Join(segments)));
  }

  lemma MountedBelowIff(root: Path, raw: seq<string>, segments: seq<string>, glob: bool)
    requires Through(raw, segments, glob) && Clean(segments)
    ensures root + Kept(Mounted(raw)) <= root + segments <==> forall s :: s in Mounted(raw) ==> ReadAlike(s, glob)
  {
    var m := Mounted(raw);
    KeptMounted(raw);
    assert forall i :: 0 <= i < |m| ==> m[i] == raw[i];
    KeptPrefixIff(m, segments, glob);
    PrefixBelow(root, Kept(m), segments);
  }

  lemma PrefixBelow(root: Path, a: seq<string>, b: seq<string>)
    ensures root + a <= root + b <==> a <= b
  {
    if root + a <= root + b { assert a == (root + a)[|root|..] && b == (root + b)[|root|..]; }
  }

  // ---- Plain patterns ----

  /** No fixed segment has padding or a backslash. */
  predicate Plain(pattern: string) {
    forall s :: s in Fixed(Split(pattern)) ==> ReadAlike(s, true)
  }

  lemma PlainReadsAlike(pattern: string)
    requires Plain(pattern)
    ensures NoPaddedUp(pattern) && forall s :: s in FixedSegments(pattern) ==> ReadAlike(s, true)
  {
    DotPrefix(pattern);
  }

  /** What a plain pattern matches begins with all of its fixed segments. */
  lemma MatchedBelowStatic(pattern: string, segments: seq<string>)
    requires |segments| > 0 && Clean(segments) && Plain(pattern) && MatchPattern(pattern, Join(segments))
    ensures Static(Split(pattern)) <= segments
  {
    var raw, glob := FixedSegments(pattern), ByGlob(pattern, Join(segments));
    PlainReadsAlike(pattern);
    AllowedGoesThrough(pattern, segments);
    forall s | s in raw ensures ReadAlike(s, glob) { }
    StaticIsKept(Split(pattern));
    DotPrefix(pattern);
    LastIsKept(raw, segments, glob);
    KeptPrefixIff(raw, segments, glob);
  }

  lemma LastIsKept(raw: seq<string>, segments: seq<string>, glob: bool)
    requires Through(raw, segments, glob) && Clean(segments) && forall s :: s in raw ==> ReadAlike(s, glob)
    ensures EndsKept(raw)
  {
    if |raw| > 0 {
      assert segments[|raw| - 1] in segments && raw[|raw| - 1] in raw;
      ReadAlikeIff(raw[|raw| - 1], glob);
    }
  }

  /** Whatever a plain pattern lets the stage write lies at or below what the container mounts for the pattern. */
  lemma MountCoversPattern(root: Path, pattern: string, path: Path)
    requires Clean(path) && TrimSpace(pattern) == pattern && Plain(pattern) && AllowsBy(root, pattern, path)
    ensures WritablePatternRoot(root, pattern) <= path
  {
    PlainReadsAlike(pattern);
    KeptMounted(FixedSegments(pattern));
    forall s | s in MountedSegments(pattern) ensures s in FixedSegments(pattern) { }
    MountCoversIff(root, pattern, path);
  }

  /**
   A path that a scope allows by a pattern that both read alike is below one of the mounts,
   unless the pattern fixes nothing below the root or its directory cannot be made.
   */
  lemma MountsCoverScope(repos: seq<Path>, scopes: seq<Scope>, unmakeable: set<Path>, mounts: set<Path>, s: Scope, pattern: string, path: Path)
    requires forall m :: m in mounts <==> m !in unmakeable && IsMount(repos, scopes, m)
    requires s in scopes && s.root in repos && !s.allowAll && pattern in s.patterns
    requires exists granted :: s.patterns == Trimmed(granted)
    requires Clean(path) && NoPaddedUp(pattern) && AllowsBy(s.root, pattern, path)
    requires forall x :: x in MountedSegments(pattern) ==> ReadAlike(x, ByGlob(pattern, Rel(s.root, path)))
    ensures var m := WritablePatternRoot(s.root, pattern); m <= path && (m == s.root || m in unmakeable || m in mounts)
  {
    var granted :| s.patterns == Trimmed(granted);
    GrantedPatternsAreTrimmed(granted, pattern);
    MountCoversIff(s.root, pattern, path);
    PatternIsMounted(repos, scopes, s, pattern);
  }

  lemma PatternIsMounted(repos: seq<Path>, scopes: seq<Scope>, s: Scope, pattern: string)
    requires s in scopes && s.root in repos && !s.allowAll && pattern in s.patterns
    ensures var m := WritablePatternRoot(s.root, pattern); m == s.root || IsMount(repos, scopes, m)
  {
    var m := WritablePatternRoot(s.root, pattern);
    if m != s.root {
      assert MountFor(repos, s, pattern, m);
      assert IsPatternMount(repos, s, s.patterns, m);
    }
  }

  // ---- Where the readings differ ----

  /** For the path that is the pattern itself: the mount covers it exactly if no mounted segment has padding. */
  lemma LiteralPatternCoveredIff(root: Path, segments: seq<string>)
    requires |segments| > 0 && Clean(segments) && TrimSpace(Join(segments)) == Join(segments) && NoPaddedUp(Join(segments))
    ensures AllowsBy(root, Join(segments), root + segments)
    ensures WritablePatternRoot(root, Join(segments)) <= root + segments
       <==> forall s :: s in MountedSegments(Join(segments)) ==> TrimSpace(s) == s
  {
    JoinStarts(segments);
    assert (root + segments)[|root|..] == segments;
    BelowRootIff(root, Join(segments), segments);
  }

  /** A path allowed as a glob is never covered if a mounted segment of the pattern has a backslash. */
  lemma BackslashNotCovered(root: Path, pattern: string, path: Path, s: string)
    requires Clean(path) && TrimSpace(pattern) == pattern && NoPaddedUp(pattern) && AllowsBy(root, pattern, path)
    requires ByGlob(pattern, Rel(root, path)) && s in MountedSegments(pattern) && '\\' in s
    ensures !(WritablePatternRoot(root, pattern) <= path)
  {
    MountCoversIff(root, pattern, path);
    assert !ReadAlike(s, true);
  }

  /** Nor is any allowed path, if a mounted segment has padding. */
  lemma PaddingNotCovered(root: Path, pattern: string, path: Path, s: string)
    requires Clean(path) && TrimSpace(pattern) == pattern && NoPaddedUp(pattern) && AllowsBy(root, pattern, path)
    requires s in MountedSegments(pattern) && TrimSpace(s) != s
    ensures !(WritablePatternRoot(root, pattern) <= path)
  {
    MountCoversIff(root, pattern, path);
    assert !ReadAlike(s, ByGlob(pattern, Rel(root, path)));
  }

  // Such patterns and such paths exist, in any root.

  const BACKSLASH := "a\\b"
  const PADDED := "a "
  const PADDED_BELOW := "a /**"

  lemma BackslashSegments()
    ensures MountedSegments(BACKSLASH) == [BACKSLASH] && NoPaddedUp(BACKSLASH)
  {
    TrimSpaceEnds(BACKSLASH);
    SplitOne(BACKSLASH);
    assert Fixed([BACKSLASH]) == [BACKSLASH] && !Skipped(BACKSLASH) && '.' !in BACKSLASH;
  }

  lemma BackslashAllows()
    ensures TrimSpace(BACKSLASH) == BACKSLASH && MatchPattern(BACKSLASH, "ab") && ByGlob(BACKSLASH, "ab")
  {
    TrimSpaceEnds(BACKSLASH);
    assert BACKSLASH[1..] == "\\b" && "ab"[1..] == "b" && "\\b"[2..] == "" && "b"[1..] == "";
    assert Match("\\b", "b") && Match(BACKSLASH, "ab");
  }

  lemma Below(root: Path, segments: seq<string>)
    requires Clean(root) && |segments| > 0 && Clean(segments)
    ensures Clean(root + segments) && root <= root + segments && Rel(root, root + segments) == Join(segments)
  {
    assert (root + segments)[|root|..] == segments;
  }

  lemma JoinTwo(a: string, b: string)
    ensures Join([a, b]) == a + "/" + b
  {
    assert [a, b][1..] == [b];
  }

  lemma BackslashExample(root: Path)
    requires Clean(root)
    ensures AllowsBy(root, BACKSLASH, root + ["ab"]) && !(WritablePatternRoot(root, BACKSLASH) <= root + ["ab"])
  {
    Below(root, ["ab"]);
    BackslashSegments();
    BackslashAllows();
    BackslashNotCovered(root, BACKSLASH, root + ["ab"], BACKSLASH);
  }

  lemma PaddedSegments()
    ensures TrimSpace(PADDED) == "a" && MountedSegments(PADDED_BELOW) == [PADDED] && NoPaddedUp(PADDED_BELOW)
  {
    assert PADDED_BELOW == PADDED + ANY_BELOW && TrimSpace(PADDED) == "a";
    AnyBelowSegments(PADDED);
    SplitOne(PADDED);
    assert Fixed([PADDED]) == [PADDED];
  }

  lemma PaddedAllows()
    ensures TrimSpace(PADDED_BELOW) == PADDED_BELOW && MatchPattern(PADDED_BELOW, PADDED + "/" + "x")
  {
    TrimSpaceEnds(PADDED_BELOW);
    assert PADDED_BELOW == PADDED + ANY_BELOW && WithoutSuffix(PADDED_BELOW) == PADDED;
    assert PADDED + "/" <= PADDED + "/" + "x";
  }

  lemma PaddingExample(root: Path)
    requires Clean(root)
    ensures var path := root + [PADDED, "x"];
      AllowsBy(root, PADDED_BELOW, path) && !(WritablePatternRoot(root, PADDED_BELOW) <= path)
  {
    JoinTwo(PADDED, "x");
    Below(root, [PADDED, "x"]);
    PaddedSegments();
    PaddedAllows();
    PaddingNotCovered(root, PADDED_BELOW, root + [PADDED, "x"], PADDED);
  }
}
