/** The order of sort.Strings and sorting by it. */
module Strings {

  /** Lexicographic order. */
  predicate Le(a: string, b: string) {
    if a == "" then true
    else if b == "" then false
    else if a[0] == b[0] then Le(a[1..], b[1..])
    else a[0] < b[0]
  }

  /** `b` is the longer of two that agree as far as `a` goes, or greater at the first place where they differ. */
  ghost predicate Before(a: string, b: string) {
    a <= b || exists i | 0 <= i < |a| && i < |b| :: a[..i] == b[..i] && a[i] < b[i]
  }

  lemma {:induction false} LeIff(a: string, b: string)
    ensures Le(a, b) <==> Before(a, b)
  {
    if a != "" && b != "" && a[0] == b[0] {
      LeIff(a[1..], b[1..]);
      if Before(a[1..], b[1..]) && !(a[1..] <= b[1..]) {
        var i :| 0 <= i < |a| - 1 && i < |b| - 1 && a[1..][..i] == b[1..][..i] && a[1..][i] < b[1..][i];
        assert a[..i + 1] == [a[0]] + a[1..][..i] && b[..i + 1] == [b[0]] + b[1..][..i];
      }
      if Before(a, b) && !(a <= b) {
        var i :| 0 <= i < |a| && i < |b| && a[..i] == b[..i] && a[i] < b[i];
        assert i > 0;
        assert a[1..][..i - 1] == a[..i][1..] && b[1..][..i - 1] == b[..i][1..];
        assert a[1..][i - 1] < b[1..][i - 1];
      }
    } else if a != "" && b != "" {
      if a[0] < b[0] { assert a[..0] == b[..0]; }
      forall i | 0 < i < |a| && i < |b| ensures a[..i] != b[..i] {
        assert a[..i][0] == a[0] && b[..i][0] == b[0];
      }
    }
  }

  lemma {:induction false} LeTotal(a: string, b: string)
    ensures Le(a, b) || Le(b, a)
  {
    if a != "" && b != "" && a[0] == b[0] { LeTotal(a[1..], b[1..]); }
  }

  lemma {:induction false} LeAntisymmetric(a: string, b: string)
    requires Le(a, b) && Le(b, a)
    ensures a == b
  {
    if a != "" && b != "" {
      LeAntisymmetric(a[1..], b[1..]);
      assert a == [a[0]] + a[1..] && b == [b[0]] + b[1..];
    }
  }

  lemma {:induction false} LeTransitive(a: string, b: string, c: string)
    requires Le(a, b) && Le(b, c)
    ensures Le(a, c)
  {
    if a != "" && b != "" && c != "" && a[0] == b[0] && b[0] == c[0] { LeTransitive(a[1..], b[1..], c[1..]); }
  }

  ghost predicate Sorted(s: seq<string>) {
    forall i, j | 0 <= i < j < |s| :: Le(s[i], s[j])
  }

  function Insert(x: string, s: seq<string>): seq<string> {
    if s == [] || Le(x, s[0]) then [x] + s else [s[0]] + Insert(x, s[1..])
  }

  function Sort(s: seq<string>): seq<string> {
    if s == [] then [] else Insert(s[0], Sort(s[1..]))
  }

  lemma {:induction false} InsertSorted(x: string, s: seq<string>)
    requires Sorted(s)
    ensures Sorted(Insert(x, s)) && multiset(Insert(x, s)) == multiset{x} + multiset(s)
  {
    if s == [] {
    } else if Le(x, s[0]) {
      forall i | 0 <= i < |s| ensures Le(x, s[i]) {
        if i > 0 { LeTransitive(x, s[0], s[i]); }
      }
    } else {
      LeTotal(x, s[0]);
      InsertSorted(x, s[1..]);
      assert s == [s[0]] + s[1..];
      var r := Insert(x, s[1..]);
      forall i | 0 <= i < |r| ensures Le(s[0], r[i]) {
        assert r[i] in multiset(r);
        if r[i] != x {
          assert r[i] in s[1..];
        }
      }
    }
  }

  lemma {:induction false} SortSorts(s: seq<string>)
    ensures Sorted(Sort(s)) && multiset(Sort(s)) == multiset(s)
  {
    if s != [] {
      SortSorts(s[1..]);
      InsertSorted(s[0], Sort(s[1..]));
      assert s == [s[0]] + s[1..];
    }
  }

  lemma LeReflexive(a: string)
    ensures Le(a, a)
  {
    LeTotal(a, a);
  }

  lemma HeadIsLeast(a: seq<string>, x: string)
    requires Sorted(a) && x in a
    ensures Le(a[0], x)
  {
    LeReflexive(x);
  }

  lemma TailMultiset(a: seq<string>)
    requires a != []
    ensures multiset(a) == multiset{a[0]} + multiset(a[1..])
  {
    assert a == [a[0]] + a[1..];
  }

  lemma SameHead(a: seq<string>, b: seq<string>)
    requires a != [] && b != [] && Sorted(a) && Sorted(b) && multiset(a) == multiset(b)
    ensures a[0] == b[0]
  {
    assert a[0] in multiset(b) && b[0] in multiset(a);
    HeadIsLeast(b, a[0]);
    HeadIsLeast(a, b[0]);
    LeAntisymmetric(a[0], b[0]);
  }

  lemma SameTail(a: seq<string>, b: seq<string>)
    requires a != [] && b != [] && a[0] == b[0] && multiset(a) == multiset(b)
    ensures multiset(a[1..]) == multiset(b[1..])
  {
    TailMultiset(a);
    TailMultiset(b);
    assert multiset(a[1..]) == multiset(a) - multiset{a[0]};
  }

  /** A sorted sequence is determined by its elements. */
  lemma {:induction false} SortedUnique(a: seq<string>, b: seq<string>)
    requires Sorted(a) && Sorted(b) && multiset(a) == multiset(b)
    ensures a == b
  {
    assert |a| == |multiset(a)| == |multiset(b)| == |b|;
    if a != [] {
      SameHead(a, b);
      SameTail(a, b);
      SortedUnique(a[1..], b[1..]);
      assert a == [a[0]] + a[1..] && b == [b[0]] + b[1..];
    }
  }

  lemma SortOfSorted(s: seq<string>)
    requires Sorted(s)
    ensures Sort(s) == s
  {
    SortSorts(s);
    SortedUnique(Sort(s), s);
  }
}
