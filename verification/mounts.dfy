/** `internal/isolation/sandbox.go` and `internal/stagecontainer/docker.go`: who may write where, and what is mounted writable. */
module Mounts {
  import opened Text
  import opened Paths

  type Path = seq<string>

  datatype Scope = Scope(root: Path, patterns: seq<string>, allowAll: bool)

  // ---- The sandbox's reading of a pattern ----

  function TrimDot(s: string): string {
    if |s| >= 2 && s[0] == '.' && s[1] == '/' then s[2..] else s
  }

  const ANY_BELOW := "/**"

  function WithoutSuffix(p: string): string
    requires |p| >= 3
  {
    p[..|p| - 3]
  }

  predicate EndsAnyBelow(p: string) {
    |p| >= 3 && p[|p| - 3..] == ANY_BELOW
  }

  /** `matchPattern`. */
  predicate MatchPattern(pattern: string, relative: string) {
    var p, rel := TrimDot(pattern), TrimDot(relative);
    if p == "" || p == "." then rel == "." || rel == ""
    else if p == rel then true
    else if EndsAnyBelow(p) then rel == WithoutSuffix(p) || WithoutSuffix(p) + "/" <= rel
    else Match(p, rel)
  }

  /** `Scope.allows` through this pattern. */
  predicate AllowsBy(root: Path, pattern: string, path: Path) {
    root <= path && MatchPattern(pattern, Rel(root, path))
  }

  /** `Scope.allows`. */
  predicate Allows(s: Scope, path: Path) {
    s.root <= path && (s.allowAll || exists p :: p in s.patterns && MatchPattern(p, Rel(s.root, path)))
  }

  /** One of the patterns, taken from the root, allows the path. */
  ghost predicate AnyAllows(root: Path, patterns: seq<string>, path: Path) {
    exists p :: p in patterns && AllowsBy(root, p, path)
  }

  lemma AllowedByOne(s: Scope, path: Path)
    ensures Allows(s, path) <==> s.root <= path && (s.allowAll || AnyAllows(s.root, s.patterns, path))
  {
    if AnyAllows(s.root, s.patterns, path) {
      var p :| p in s.patterns && AllowsBy(s.root, p, path);
      assert MatchPattern(p, Rel(s.root, path));
    }
    if s.root <= path && exists p :: p in s.patterns && MatchPattern(p, Rel(s.root, path)) {
      var p :| p in s.patterns && MatchPattern(p, Rel(s.root, path));
      assert AllowsBy(s.root, p, path);
    }
  }

  class Sandbox {
    const writeAs: string
    var writableScopes: seq<Scope>

    constructor (writeAs: string)
      ensures this.writeAs == writeAs && writableScopes == []
    {
      this.writeAs := writeAs;
      writableScopes := [];
    }

    method AllowAll(root: Path)
      modifies this
      ensures writableScopes == old(writableScopes) + [Scope(root, [], true)]
    {
      writableScopes := writableScopes + [Scope(root, [], true)];
    }

    /** Patterns are trimmed; without one that is left nothing is granted. */
    method AllowPatterns(root: Path, patterns: seq<string>)
      modifies this
      ensures writableScopes == old(writableScopes) + if |Trimmed(patterns)| == 0 then [] else [Scope(root, Trimmed(patterns), false)]
    {
      var cleaned: seq<string> := [];
      for i := 0 to |patterns|
        invariant cleaned == Trimmed(patterns[..i])
      {
        assert patterns[..i + 1][..i] == patterns[..i];
        var pattern := TrimSpace(patterns[i]);
        if pattern == "" { continue; }
        cleaned := cleaned + [pattern];
      }
      assert patterns[..|patterns|] == patterns;
      if |cleaned| == 0 { return; }
      writableScopes := writableScopes + [Scope(root, cleaned, false)];
    }

    method RequireWrite(path: Path) returns (granted: bool)
      ensures granted <==> writeAs == "" || exists s :: s in writableScopes && s.root <= path && (s.allowAll || AnyAllows(s.root, s.patterns, path))
    {
      if writeAs == "" { return true; }
      forall s ensures Allows(s, path) <==> s.root <= path && (s.allowAll || AnyAllows(s.root, s.patterns, path)) {
        AllowedByOne(s, path);
      }
      for i := 0 to |writableScopes|
        invariant forall s :: s in writableScopes[..i] ==> !Allows(s, path)
      {
        if Allows(writableScopes[i], path) { return true; }
      }
      granted := false;
    }
  }

  function Trimmed(patterns: seq<string>): seq<string> {
    if |patterns| == 0 then []
    else
      var last := TrimSpace(patterns[|patterns| - 1]);
      Trimmed(patterns[..|patterns| - 1]) + if last == "" then [] else [last]
  }

  /** What is granted is each pattern without the spaces around it, unless nothing is left of it. */
  lemma {:induction false} GrantedPatternsAreTrimmed(patterns: seq<string>, p: string)
    ensures p in Trimmed(patterns) <==> p != "" && exists q :: q in patterns && p == TrimSpace(q)
    ensures p in Trimmed(patterns) ==> TrimSpace(p) == p
  {
    if |patterns| > 0 {
      var front, last := patterns[..|patterns| - 1], patterns[|patterns| - 1];
      GrantedPatternsAreTrimmed(front, p);
      TrimSpaceTwice(last);
      assert patterns == front + [last];
    }
  }

  // ---- The container's reading of a pattern ----

  /** The loop of `writablePatternRoot`: trimmed segments up to the first with a glob character, empty ones and dots left out. */
  function Static(segments: seq<string>): seq<string> {
    if |segments| == 0 then []
    else
      var s := TrimSpace(segments[0]);
      if s == "" || s == "." then Static(segments[1..])
      else if HasGlob(s) then []
      else [s] + Static(segments[1..])
  }

  /** `writablePatternRoot`. */
  function WritablePatternRoot(root: Path, pattern: string): Path {
    var p := TrimSpace(pattern);
    var fixed := Static(Split(p));
    if p == "" || p == "." || p == "**" || |fixed| == 0 then root
    else
      var path := JoinPath(root, fixed);
      if '.' in fixed[|fixed| - 1] then Dir(path) else path
  }

  /** `writableSubpathMounts`, as a set; directories that can be neither found nor made are skipped. */
  method WritableSubpathMounts(repos: seq<Path>, scopes: seq<Scope>, unmakeable: set<Path>) returns (mounts: set<Path>)
    ensures forall m :: m in mounts <==> m !in unmakeable && IsMount(repos, scopes, m)
  {
    mounts := {};
    for i := 0 to |scopes|
      invariant forall m :: m in mounts <==> m !in unmakeable && IsMount(repos, scopes[..i], m)
    {
      var added := PatternMounts(repos, scopes[i], unmakeable);
      forall m ensures m in mounts + added <==> m !in unmakeable && IsMount(repos, scopes[..i + 1], m) {
        OneScopeMore(repos, scopes, i, m);
      }
      mounts := mounts + added;
    }
    assert scopes[..|scopes|] == scopes;
  }

  /** The inner loop. */
  method PatternMounts(repos: seq<Path>, scope: Scope, unmakeable: set<Path>) returns (mounts: set<Path>)
    ensures forall m :: m in mounts <==> m !in unmakeable && IsPatternMount(repos, scope, scope.patterns, m)
  {
    mounts := {};
    if scope.root !in repos || scope.allowAll { return; }
    for i := 0 to |scope.patterns|
      invariant forall m :: m in mounts <==> m !in unmakeable && IsPatternMount(repos, scope, scope.patterns[..i], m)
    {
      forall m ensures IsPatternMount(repos, scope, scope.patterns[..i + 1], m)
        == (IsPatternMount(repos, scope, scope.patterns[..i], m) || MountFor(repos, scope, scope.patterns[i], m)) {
        OnePatternMore(repos, scope, i, m);
      }
      var mountRoot := WritablePatternRoot(scope.root, scope.patterns[i]);
      if mountRoot == scope.root { continue; }
      if mountRoot in unmakeable { continue; }
      mounts := mounts + {mountRoot};
    }
    assert scope.patterns[..|scope.patterns|] == scope.patterns;
  }

  ghost predicate MountFor(repos: seq<Path>, s: Scope, p: string, m: Path) {
    s.root in repos && !s.allowAll && m == WritablePatternRoot(s.root, p) && m != s.root
  }

  ghost predicate IsPatternMount(repos: seq<Path>, s: Scope, patterns: seq<string>, m: Path) {
    exists p :: p in patterns && MountFor(repos, s, p, m)
  }

  /** Below a mounted repository, what some pattern of some scope fixes is mounted writable. */
  ghost predicate IsMount(repos: seq<Path>, scopes: seq<Scope>, m: Path) {
    exists s :: s in scopes && IsPatternMount(repos, s, s.patterns, m)
  }

  lemma OneScopeMore(repos: seq<Path>, scopes: seq<Scope>, i: nat, m: Path)
    requires i < |scopes|
    ensures IsMount(repos, scopes[..i + 1], m)
       <==> IsMount(repos, scopes[..i], m) || IsPatternMount(repos, scopes[i], scopes[i].patterns, m)
  {
    assert scopes[..i + 1] == scopes[..i] + [scopes[i]];
  }

  lemma OnePatternMore(repos: seq<Path>, s: Scope, i: nat, m: Path)
    requires i < |s.patterns|
    ensures IsPatternMount(repos, s, s.patterns[..i + 1], m)
       <==> IsPatternMount(repos, s, s.patterns[..i], m) || MountFor(repos, s, s.patterns[i], m)
  {
    assert s.patterns[..i + 1] == s.patterns[..i] + [s.patterns[i]];
  }
}
