/** Strings: the order in which they are sorted, splitting, joining and sorting. */
module Strings {
  import opened Content

  /** Lexicographic order, a proper prefix first. */
  predicate Less(a: string, b: string) {
    b != [] && (a == [] || a[0] < b[0] || (a[0] == b[0] && Less(a[1..], b[1..])))
  }

  lemma {:induction false} LessTransitive(a: string, b: string, c: string)
    requires Less(a, b) && Less(b, c)
    ensures Less(a, c)
  {
    if a != [] && a[0] == b[0] == c[0] {
      LessTransitive(a[1..], b[1..], c[1..]);
    }
  }

  lemma {:induction false} LessTotal(a: string, b: string)
    ensures a == b || Less(a, b) || Less(b, a)
  {
    if a != [] && b != [] && a[0] == b[0] {
      LessTotal(a[1..], b[1..]);
      assert a == [a[0]] + a[1..] && b == [b[0]] + b[1..];
    }
  }

  lemma {:induction false} LessIrreflexive(a: string)
    ensures !Less(a, a)
  {
    if a != [] {
      LessIrreflexive(a[1..]);
    }
  }

  /** `a` and `b` agree up to `n`, where `a` ends or has the smaller character. */
  predicate DiffersAt(a: string, b: string, n: nat) {
    n <= |a| && n < |b| && a[..n] == b[..n] && (n == |a| || a[n] < b[n])
  }

  /** The order is that of the first characters in which two strings differ. */
  lemma {:induction false} LessMeans(a: string, b: string)
    ensures Less(a, b) <==> exists n: nat :: DiffersAt(a, b, n)
  {
    if a == [] || b == [] || a[0] != b[0] {
      assert Less(a, b) ==> DiffersAt(a, b, 0);
    } else {
      LessMeans(a[1..], b[1..]);
      assert a == [a[0]] + a[1..] && b == [b[0]] + b[1..];
      if n: nat :| DiffersAt(a[1..], b[1..], n) {
        assert a[..n + 1] == [a[0]] + a[1..][..n] && b[..n + 1] == [b[0]] + b[1..][..n];
        assert DiffersAt(a, b, n + 1);
      }
      if n: nat :| DiffersAt(a, b, n) {
        assert n > 0;
        assert a[1..][..n - 1] == a[..n][1..] == b[..n][1..] == b[1..][..n - 1];
        assert DiffersAt(a[1..], b[1..], n - 1);
      }
    }
  }

  /** Ascending, with repetitions. */
  ghost predicate Sorted(l: seq<string>) {
    forall i, j :: 0 <= i < j < |l| ==> l[i] == l[j] || Less(l[i], l[j])
  }

  ghost predicate StrictlySorted(l: seq<string>) {
    forall i, j :: 0 <= i < j < |l| ==> Less(l[i], l[j])
  }

  lemma {:induction false} Least(s: set<string>) returns (m: string)
    requires s != {}
    ensures m in s && forall x :: x in s && x != m ==> Less(m, x)
  {
    var y :| y in s;
    if s == {y} {
      m := y;
    } else {
      var n := Least(s - {y});
      LessTotal(y, n);
      m := if Less(y, n) then y else n;
      forall x | x in s && x != m
        ensures Less(m, x)
      {
        if m == y && x != n {
          LessTransitive(y, n, x);
        }
      }
    }
  }

  lemma {:induction false} Listing(s: set<string>) returns (l: seq<string>)
    ensures StrictlySorted(l) && SetOf(l) == s
  {
    if s == {} {
      l := [];
    } else {
      var m := Least(s);
      var rest := Listing(s - {m});
      assert forall i :: 0 <= i < |rest| ==> rest[i] in SetOf(rest);
      l := [m] + rest;
      assert SetOf(l) == {m} + SetOf(rest);
    }
  }

  /** The members of a set in ascending order. */
  ghost function SortedOf(s: set<string>): (l: seq<string>)
    ensures StrictlySorted(l) && SetOf(l) == s
  {
    assert exists l :: StrictlySorted(l) && SetOf(l) == s by {
      var l := Listing(s);
    }
    var l :| StrictlySorted(l) && SetOf(l) == s;
    l
  }

  /** The first of two lists with the same members, both strictly ascending, is not greater. */
  lemma SameHead(a: seq<string>, b: seq<string>)
    requires StrictlySorted(a) && StrictlySorted(b) && SetOf(a) == SetOf(b) && a != []
    ensures b != [] && a[0] == b[0] && SetOf(a[1..]) == SetOf(b[1..])
  {
    assert a[0] in SetOf(a);
    assert b[0] in SetOf(b);
    var i :| 0 <= i < |b| && b[i] == a[0];
    var j :| 0 <= j < |a| && a[j] == b[0];
    if i > 0 && j > 0 {
      LessTransitive(a[0], b[0], a[0]);
      LessIrreflexive(a[0]);
    }
    NotInTail(a);
    NotInTail(b);
    assert SetOf(a) == {a[0]} + SetOf(a[1..]) && SetOf(b) == {b[0]} + SetOf(b[1..]);
  }

  lemma NotInTail(a: seq<string>)
    requires StrictlySorted(a) && a != []
    ensures a[0] !in a[1..]
  {
    LessIrreflexive(a[0]);
  }

  /** A strictly ascending list is determined by its members. */
  lemma {:induction false} SortedUnique(a: seq<string>, b: seq<string>)
    requires StrictlySorted(a) && StrictlySorted(b) && SetOf(a) == SetOf(b)
    ensures a == b
  {
    if a == [] {
      if b != [] {
        SameHead(b, a);
      }
    } else {
      SameHead(a, b);
      SortedUnique(a[1..], b[1..]);
    }
  }

  // ----- sorting -----

  method Insert(l: seq<string>, x: string) returns (r: seq<string>)
    requires Sorted(l)
    ensures Sorted(r) && multiset(r) == multiset(l) + multiset{x}
  {
    var i := 0;
    while i < |l| && Less(l[i], x)
      invariant 0 <= i <= |l| && forall j :: 0 <= j < i ==> Less(l[j], x)
    {
      i := i + 1;
    }
    r := l[..i] + [x] + l[i..];
    forall j | i <= j < |l|
      ensures l[j] == x || Less(x, l[j])
    {
      LessTotal(l[i], x);
      if i < j && Less(x, l[i]) && Less(l[i], l[j]) {
        LessTransitive(x, l[i], l[j]);
      }
    }
    assert l == l[..i] + l[i..];
  }

  /** Stands for the library's sort. */
  method Sort(l: seq<string>) returns (r: seq<string>)
    ensures Sorted(r) && multiset(r) == multiset(l)
  {
    r := [];
    for i := 0 to |l|
      invariant Sorted(r) && multiset(r) == multiset(l[..i])
    {
      r := Insert(r, l[i]);
      assert l[..i + 1] == l[..i] + [l[i]];
    }
    assert l[..|l|] == l;
  }

  lemma SameMembers(a: seq<string>, b: seq<string>)
    requires multiset(a) == multiset(b)
    ensures SetOf(a) == SetOf(b) && |a| == |b|
  {
    assert forall x :: x in a <==> x in multiset(a);
    assert forall x :: x in b <==> x in multiset(b);
    assert |a| == |multiset(a)| == |multiset(b)| == |b|;
  }

  /** Sorting a list without repetitions gives the sorted list of its members. */
  lemma SortedDistinct(l: seq<string>, r: seq<string>)
    requires NoRepeats(l) && Sorted(r) && multiset(r) == multiset(l)
    ensures r == SortedOf(SetOf(l))
  {
    SameMembers(l, r);
    DistinctCount(l);
    DistinctCount(r);
    SortedUnique(r, SortedOf(SetOf(l)));
  }

  /** A list without repetitions has each of its members once, as the sorted list has. */
  lemma DistinctMultiset(l: seq<string>)
    requires NoRepeats(l)
    ensures multiset(l) == multiset(SortedOf(SetOf(l)))
  {
    var sorted := SortedOf(SetOf(l));
    forall i, j | 0 <= i < j < |sorted|
      ensures sorted[i] != sorted[j]
    {
      LessIrreflexive(sorted[i]);
    }
    forall x
      ensures multiset(l)[x] == multiset(sorted)[x]
    {
      CountOnce(l, x);
      CountOnce(sorted, x);
      assert x in SetOf(l) <==> x in SetOf(sorted);
    }
  }

  // ----- splitting and joining -----

  function First(s: string, c: char): (i: nat)
    requires c in s
    ensures i < |s| && s[i] == c && c !in s[..i]
  {
    if s[0] == c then 0
    else
      assert s == [s[0]] + s[1..];
      var j := First(s[1..], c);
      assert s[..j + 1] == [s[0]] + s[1..][..j];
      j + 1
  }

  function Last(s: string, c: char): (i: nat)
    requires c in s
    ensures i < |s| && s[i] == c && c !in s[i + 1..]
  {
    if s[|s| - 1] == c then |s| - 1
    else
      var front := s[..|s| - 1];
      assert s == front + [s[|s| - 1]];
      var j := Last(front, c);
      assert s[j + 1..] == front[j + 1..] + [s[|s| - 1]];
      j
  }

  lemma Cut(s: string, i: nat)
    requires i < |s|
    ensures s == s[..i] + [s[i]] + s[i + 1..]
  {
  }

  function Split(s: string, c: char): (l: seq<string>)
    ensures l != []
  {
    if c !in s then [s]
    else
      var i := First(s, c);
      [s[..i]] + Split(s[i + 1..], c)
  }

  /** The parts have no separator, and no character that the whole does not have. */
  lemma {:induction false} SplitPart(s: string, c: char, x: string, d: char)
    requires x in Split(s, c)
    ensures c !in x && (d in x ==> d in s)
  {
    if c in s {
      var i := First(s, c);
      Cut(s, i);
      if x != s[..i] {
        SplitPart(s[i + 1..], c, x, d);
      }
    }
  }

  function Join(l: seq<string>, c: char): string {
    if l == [] then "" else if |l| == 1 then l[0] else l[0] + [c] + Join(l[1..], c)
  }

  /** The first `c` after a part without one ends that part. */
  lemma FirstAfter(a: string, c: char, b: string, s: string)
    requires c !in a && s == a + [c] + b
    ensures c in s && First(s, c) == |a| && s[..|a|] == a && s[|a| + 1..] == b
  {
    assert s[|a|] == c;
    var i := First(s, c);
    assert forall j :: 0 <= j < |a| ==> s[j] == a[j];
  }

  lemma LastBefore(a: string, c: char, b: string, s: string)
    requires c !in b && s == a + [c] + b
    ensures c in s && Last(s, c) == |a| && s[..|a|] == a && s[|a| + 1..] == b
  {
    assert s[|a|] == c;
    var i := Last(s, c);
    assert forall j :: 0 <= j < |b| ==> s[|a| + 1 + j] == b[j];
  }

  /** Splitting undoes joining. */
  lemma {:induction false} SplitJoin(l: seq<string>, c: char)
    requires l != [] && forall x :: x in l ==> c !in x
    ensures Split(Join(l, c), c) == l
  {
    if |l| > 1 {
      FirstAfter(l[0], c, Join(l[1..], c), Join(l, c));
      SplitJoin(l[1..], c);
    }
  }

  lemma {:induction false} JoinWithout(l: seq<string>, c: char, d: char)
    requires c != d && forall x :: x in l ==> d !in x
    ensures d !in Join(l, c)
  {
    if |l| > 1 {
      JoinWithout(l[1..], c, d);
      assert d !in l[0];
    }
  }
}
