// The order of strings, and what sort.Strings makes of a list.

module Sorting {

  // s sorts strictly before t.
  predicate Before(s: string, t: string) {
    t != "" && (s == "" || s[0] < t[0] || (s[0] == t[0] && Before(s[1..], t[1..])))
  }

  lemma {:induction false} BeforeTransitive(s: string, t: string, u: string)
    requires Before(s, t) && Before(t, u)
    ensures Before(s, u)
  {
    if s != "" && s[0] == t[0] == u[0] {
      BeforeTransitive(s[1..], t[1..], u[1..]);
    }
  }

  lemma {:induction false} BeforeTotal(s: string, t: string)
    ensures !(Before(s, t) && Before(t, s))
    ensures s != t <==> Before(s, t) || Before(t, s)
  {
    if s != "" && t != "" && s[0] == t[0] {
      BeforeTotal(s[1..], t[1..]);
      assert s == [s[0]] + s[1..] && t == [t[0]] + t[1..];
    }
  }

  // s is the beginning of t, or has the smaller character where they first differ.
  lemma {:induction false} BeforeMeans(s: string, t: string)
    ensures Before(s, t) <==> exists i: nat :: Differ(s, t, i) && i < |t| && (i == |s| || s[i] < t[i])
  {
    if s == "" || t == "" || s[0] != t[0] {
      assert s != t ==> Differ(s, t, 0);
      forall i: nat | Differ(s, t, i) ensures i == 0 {
        if i > 0 { SameHead(s, t, i); }
      }
    } else {
      BeforeMeans(s[1..], t[1..]);
      forall i: nat | Differ(s, t, i) ensures i > 0 && Differ(s[1..], t[1..], i - 1) {
        assert s[..i][1..] == s[1..][..i - 1] && t[..i][1..] == t[1..][..i - 1];
      }
      forall i: nat | Differ(s[1..], t[1..], i) ensures Differ(s, t, i + 1) {
        assert s[..i + 1] == [s[0]] + s[1..][..i] && t[..i + 1] == [t[0]] + t[1..][..i];
      }
    }
  }

  lemma SameHead(s: string, t: string, i: nat)
    requires 0 < i <= |s| && i <= |t| && s[..i] == t[..i]
    ensures s[0] == t[0]
  {
    assert s[..i][0] == t[..i][0];
  }

  // i is where they first differ.
  ghost predicate Differ(s: string, t: string, i: nat) {
    && i <= |s| && i <= |t| && s[..i] == t[..i]
    && (i < |s| && i < |t| ==> s[i] != t[i]) && (i < |s| || i < |t|)
  }

  ghost predicate Sorted(s: seq<string>) {
    forall i, j :: 0 <= i < j < |s| ==> !Before(s[j], s[i])
  }

  ghost predicate Increasing(s: seq<string>) {
    forall i, j :: 0 <= i < j < |s| ==> Before(s[i], s[j])
  }

  function Insert(x: string, s: seq<string>): (r: seq<string>)
    ensures multiset(r) == multiset(s) + multiset{x}
  {
    if s == [] || !Before(s[0], x) then [x] + s
    else
      assert s == [s[0]] + s[1..];
      [s[0]] + Insert(x, s[1..])
  }

  lemma InSameMultiset<T>(s: seq<T>, t: seq<T>)
    requires multiset(s) == multiset(t)
    ensures |s| == |t| && forall x :: x in s <==> x in t
  {
    assert |multiset(s)| == |s| && |multiset(t)| == |t|;
    forall x ensures x in s <==> x in t {
      assert x in s <==> x in multiset(s);
      assert x in t <==> x in multiset(t);
    }
  }

  lemma {:induction false} InsertSorted(x: string, s: seq<string>)
    requires Sorted(s)
    ensures Sorted(Insert(x, s))
  {
    var r := Insert(x, s);
    if s == [] {
    } else if !Before(s[0], x) {
      forall j | 0 < j < |r| ensures !Before(r[j], x) {
        if Before(s[j - 1], x) {
          BeforeTotal(s[0], s[j - 1]);
          if s[0] != s[j - 1] { BeforeTransitive(s[0], s[j - 1], x); }
        }
      }
    } else {
      InsertSorted(x, s[1..]);
      var t := Insert(x, s[1..]);
      forall j | 0 < j < |r| ensures !Before(r[j], s[0]) {
        assert t[j - 1] in multiset(t);
        if t[j - 1] == x {
          BeforeTotal(s[0], x);
        } else {
          assert t[j - 1] in s[1..];
        }
      }
    }
  }

  // sort.Strings.
  function SortStrings(s: seq<string>): (r: seq<string>)
    ensures multiset(r) == multiset(s)
  {
    if s == [] then []
    else
      assert s == [s[0]] + s[1..];
      Insert(s[0], SortStrings(s[1..]))
  }

  lemma {:induction false} SortIsSorted(s: seq<string>)
    ensures Sorted(SortStrings(s))
  {
    if s != [] {
      SortIsSorted(s[1..]);
      InsertSorted(s[0], SortStrings(s[1..]));
    }
  }

  ghost predicate Distinct<T>(s: seq<T>) {
    forall i, j :: 0 <= i < j < |s| ==> s[i] != s[j]
  }

  lemma DistinctMeansOnce<T>(s: seq<T>, x: T)
    requires Distinct(s) && x in s
    ensures multiset(s)[x] == 1
  {
    var i :| 0 <= i < |s| && s[i] == x;
    assert s == s[..i] + [x] + s[i + 1..];
    assert x !in s[..i] && x !in s[i + 1..];
  }

  lemma OnceMeansDistinct<T>(s: seq<T>)
    requires forall x :: x in s ==> multiset(s)[x] == 1
    ensures Distinct(s)
  {
    forall i, j | 0 <= i < j < |s| ensures s[i] != s[j] {
      assert s == s[..j] + [s[j]] + s[j + 1..];
      assert s[i] in s[..j];
      assert multiset(s)[s[j]] >= multiset(s[..j])[s[j]] + 1;
    }
  }

  // Sorting a list without repetitions lists its elements in increasing order.
  lemma SortDistinct(s: seq<string>)
    requires Distinct(s)
    ensures Increasing(SortStrings(s)) && forall x :: x in SortStrings(s) <==> x in s
  {
    var r := SortStrings(s);
    SortIsSorted(s);
    InSameMultiset(r, s);
    forall x | x in r ensures multiset(r)[x] == 1 { DistinctMeansOnce(s, x); }
    OnceMeansDistinct(r);
    forall i, j | 0 <= i < j < |r| ensures Before(r[i], r[j]) {
      BeforeTotal(r[i], r[j]);
    }
  }

  // There is only one increasing list of a given set of strings.
  lemma {:induction false} IncreasingUnique(s: seq<string>, t: seq<string>)
    requires Increasing(s) && Increasing(t)
    requires forall x :: x in s <==> x in t
    ensures s == t
  {
    assert forall i :: 0 <= i < |s| ==> s[i] in t;
    assert forall i :: 0 <= i < |t| ==> t[i] in s;
    if s != [] && t != [] {
      assert s[0] in s && s[0] in t;
      assert t[0] in t && t[0] in s;
      BeforeTotal(s[0], t[0]);
      assert s[0] == t[0];
      forall x ensures x in s[1..] <==> x in t[1..] {
        BeforeTotal(s[0], s[0]);
        assert x in s <==> x == s[0] || x in s[1..];
        assert x in t <==> x == t[0] || x in t[1..];
      }
      IncreasingUnique(s[1..], t[1..]);
      assert s == [s[0]] + s[1..] && t == [t[0]] + t[1..];
    }
  }

  // The elements of a set, in increasing order.
  ghost function Listing(names: set<string>): (r: seq<string>)
    ensures Increasing(r) && forall x :: x in r <==> x in names
  {
    ListingExists(names);
    var r :| Increasing(r) && forall x :: x in r <==> x in names;
    r
  }

  lemma {:induction false} ListingExists(names: set<string>)
    ensures exists r :: Increasing(r) && forall x :: x in r <==> x in names
  {
    var s := Enumerated(names);
    SortDistinct(s);
  }

  lemma {:induction false} Enumerated(names: set<string>) returns (s: seq<string>)
    ensures Distinct(s) && forall x :: x in s <==> x in names
  {
    if names == {} {
      s := [];
    } else {
      var x :| x in names;
      var t := Enumerated(names - {x});
      s := [x] + t;
    }
  }
}
