/**
 Byte-wise lexicographic order on names, as Go's `<` and `sort.Strings` use it, and the
 few facts about sorted sequences that the two Kahn sorts and the claim loop rely on.
 */
module Names {

  predicate Less(a: string, b: string) {
    if |b| == 0 then false
    else if |a| == 0 then true
    else a[0] < b[0] || (a[0] == b[0] && Less(a[1..], b[1..]))
  }

  lemma {:induction false} LessIrreflexive(a: string)
    ensures !Less(a, a)
  {
    if |a| > 0 { LessIrreflexive(a[1..]); }
  }

  lemma {:induction false} LessTransitive(a: string, b: string, c: string)
    requires Less(a, b) && Less(b, c)
    ensures Less(a, c)
  {
    if |a| > 0 && a[0] == b[0] && b[0] == c[0] { LessTransitive(a[1..], b[1..], c[1..]); }
  }

  lemma {:induction false} LessTotal(a: string, b: string)
    ensures a == b || Less(a, b) || Less(b, a)
  {
    if |a| > 0 && |b| > 0 && a[0] == b[0] {
      LessTotal(a[1..], b[1..]);
      if a[1..] == b[1..] { assert a == [a[0]] + a[1..] == b; }
    }
  }

  lemma LessAsymmetric(a: string, b: string)
    requires Less(a, b)
    ensures !Less(b, a) && a != b
  {
    if Less(b, a) { LessTransitive(a, b, a); }
    LessIrreflexive(a);
  }

  function Elements(s: seq<string>): set<string> {
    set x | x in s
  }

  ghost predicate Distinct<T>(s: seq<T>) {
    forall i, j :: 0 <= i < j < |s| ==> s[i] != s[j]
  }

  /** Strictly increasing, hence also without repetitions. */
  ghost predicate Increasing(s: seq<string>) {
    forall i, j :: 0 <= i < j < |s| ==> Less(s[i], s[j])
  }

  ghost predicate IsLeast(n: string, s: set<string>) {
    n in s && forall m :: m in s && m != n ==> Less(n, m)
  }

  lemma {:induction false} LeastExists(s: set<string>)
    requires s != {}
    ensures exists n :: IsLeast(n, s)
  {
    var x :| x in s;
    var rest := s - {x};
    if rest == {} {
      assert s == {x};
      assert IsLeast(x, s);
    } else {
      LeastExists(rest);
      var m :| IsLeast(m, rest);
      LessTotal(x, m);
      if Less(x, m) {
        forall y | y in s && y != x ensures Less(x, y) {
          if y != m { LessTransitive(x, m, y); }
        }
        assert IsLeast(x, s);
      } else {
        assert IsLeast(m, s);
      }
    }
  }

  ghost function Least(s: set<string>): (n: string)
    requires s != {}
    ensures IsLeast(n, s)
  {
    LeastExists(s);
    var n :| IsLeast(n, s);
    n
  }

  lemma LeastUnique(n: string, s: set<string>)
    requires IsLeast(n, s)
    ensures s != {} && Least(s) == n
  {
    if Least(s) != n { LessAsymmetric(Least(s), n); }
  }

  /** The members of a set in increasing order. */
  ghost function InOrder(s: set<string>): seq<string>
    decreases s
  {
    if s == {} then [] else [Least(s)] + InOrder(s - {Least(s)})
  }

  lemma {:induction false} InOrderElements(s: set<string>)
    ensures Elements(InOrder(s)) == s
    decreases s
  {
    if s != {} {
      var rest := InOrder(s - {Least(s)});
      InOrderElements(s - {Least(s)});
      forall x ensures x in InOrder(s) <==> x in s {
        assert x in InOrder(s) <==> x == Least(s) || x in rest;
        assert x in rest <==> x in Elements(rest);
      }
    }
  }

  lemma {:induction false} IncreasingIsInOrder(s: seq<string>)
    requires Increasing(s)
    ensures s == InOrder(Elements(s))
  {
    if |s| > 0 {
      assert s == [s[0]] + s[1..];
      assert IsLeast(s[0], Elements(s));
      LeastUnique(s[0], Elements(s));
      IncreasingDistinct(s);
      assert Elements(s[1..]) == Elements(s) - {s[0]};
      IncreasingIsInOrder(s[1..]);
    }
  }

  lemma IncreasingDistinct(s: seq<string>)
    requires Increasing(s)
    ensures Distinct(s)
  {
    forall i, j | 0 <= i < j < |s| ensures s[i] != s[j] { LessIrreflexive(s[i]); }
  }

  lemma {:induction false} InOrderIncreasing(s: set<string>)
    ensures Increasing(InOrder(s))
    decreases s
  {
    if s != {} {
      InOrderIncreasing(s - {Least(s)});
      InOrderElements(s - {Least(s)});
      var rest := InOrder(s - {Least(s)});
      forall j | 0 <= j < |rest| ensures Less(Least(s), rest[j]) {
        assert rest[j] in Elements(rest);
      }
    }
  }

  lemma InOrderDistinct(s: set<string>)
    ensures Distinct(InOrder(s))
  {
    InOrderIncreasing(s);
    IncreasingDistinct(InOrder(s));
  }

  function Insert(x: string, s: seq<string>): (r: seq<string>)
    ensures multiset(r) == multiset(s) + multiset{x}
  {
    if |s| == 0 then [x]
    else if Less(s[0], x) then
      assert s == [s[0]] + s[1..];
      [s[0]] + Insert(x, s[1..])
    else [x] + s
  }

  /** `sort.Strings`. */
  function Sort(s: seq<string>): (r: seq<string>)
    ensures multiset(r) == multiset(s)
  {
    if |s| == 0 then [] else
      assert s == [s[0]] + s[1..];
      Insert(s[0], Sort(s[1..]))
  }

  lemma {:induction false} InsertIncreasing(x: string, s: seq<string>)
    requires Increasing(s) && x !in s
    ensures Increasing(Insert(x, s))
  {
    if |s| > 0 {
      if Less(s[0], x) {
        InsertIncreasing(x, s[1..]);
        var r := Insert(x, s[1..]);
        forall j | 0 <= j < |r| ensures Less(s[0], r[j]) {
          assert r[j] in multiset(r);
          if r[j] != x { assert r[j] in s[1..]; }
        }
      } else {
        LessTotal(x, s[0]);
        forall j | 0 <= j < |s| ensures Less(x, s[j]) {
          if j > 0 { LessTransitive(x, s[0], s[j]); }
        }
      }
    }
  }

  lemma SortElements(s: seq<string>)
    ensures Elements(Sort(s)) == Elements(s) && |Sort(s)| == |s|
  {
    forall x ensures x in Sort(s) <==> x in s {
      assert x in multiset(Sort(s)) <==> x in multiset(s);
    }
    assert |multiset(Sort(s))| == |multiset(s)|;
  }

  /** Sorting a slice without repetitions gives the increasing listing of its elements. */
  lemma {:induction false} SortIncreasing(s: seq<string>)
    requires Distinct(s)
    ensures Increasing(Sort(s))
    ensures Sort(s) == InOrder(Elements(s))
  {
    if |s| > 0 {
      SortIncreasing(s[1..]);
      SortElements(s[1..]);
      assert s[0] !in Elements(s[1..]);
      assert s[0] !in Elements(Sort(s[1..]));
      InsertIncreasing(s[0], Sort(s[1..]));
    }
    SortElements(s);
    IncreasingIsInOrder(Sort(s));
  }

  lemma {:induction false} DistinctSize(s: seq<string>)
    requires Distinct(s)
    ensures |Elements(s)| == |s|
  {
    if |s| > 0 {
      DistinctSize(s[1..]);
      assert Elements(s) == {s[0]} + Elements(s[1..]);
    }
  }
}
