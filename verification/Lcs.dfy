// Longest common subsequences over lines, independent of any table.
//
// `Length` is the recurrence the aligner tabulates. What it means is stated by
// `LengthIsMaximal` and `LengthIsReached`: no common subsequence is longer, and
// one of exactly that length exists.

module Lcs {
  import opened Prelude

  // c is obtained from s by deleting elements.
  ghost predicate Subseq<T>(c: seq<T>, s: seq<T>) {
    c == [] || (s != [] && ((c[0] == s[0] && Subseq(c[1..], s[1..])) || Subseq(c, s[1..])))
  }

  function Length<T(==)>(a: seq<T>, b: seq<T>): nat
    decreases |a| + |b|
  {
    if a == [] || b == [] then 0
    else if a[0] == b[0] then 1 + Length(a[1..], b[1..])
    else Max(Length(a[1..], b), Length(a, b[1..]))
  }

  // ---- Subsequences ----

  lemma {:induction false} SubseqTail<T>(c: seq<T>, s: seq<T>)
    requires c != [] && Subseq(c, s)
    ensures Subseq(c[1..], s)
    decreases |s|
  {
    if c[0] == s[0] && Subseq(c[1..], s[1..]) {
      SubseqWeaken(c[1..], s);
    } else {
      SubseqTail(c, s[1..]);
      SubseqWeaken(c[1..], s);
    }
  }

  lemma SubseqWeaken<T>(c: seq<T>, s: seq<T>)
    requires s != [] && Subseq(c, s[1..])
    ensures Subseq(c, s)
  {
  }

  lemma {:induction false} SubseqBounded<T>(c: seq<T>, s: seq<T>)
    requires Subseq(c, s)
    ensures |c| <= |s|
    decreases |s|
  {
    if c != [] {
      if c[0] == s[0] && Subseq(c[1..], s[1..]) {
        SubseqBounded(c[1..], s[1..]);
      } else {
        SubseqBounded(c, s[1..]);
      }
    }
  }

  lemma {:induction false} SubseqReflexive<T>(s: seq<T>)
    ensures Subseq(s, s)
  {
    if s != [] {
      SubseqReflexive(s[1..]);
    }
  }

  // The last element of s is either unused, or it matches the last of c.
  lemma {:induction false} SubseqSplitLast<T>(c: seq<T>, s: seq<T>, x: T)
    requires Subseq(c, s + [x])
    ensures Subseq(c, s) || (c != [] && c[|c| - 1] == x && Subseq(c[..|c| - 1], s))
    decreases |s|
  {
    if c != [] {
      var t := s + [x];
      if s == [] {
        assert t[1..] == [];
      } else {
        assert t[1..] == s[1..] + [x];
        if c[0] == t[0] && Subseq(c[1..], t[1..]) {
          SubseqSplitLast(c[1..], s[1..], x);
          if !Subseq(c[1..], s[1..]) {
            assert c[1..][..|c| - 2] == c[..|c| - 1][1..];
          }
        } else {
          SubseqSplitLast(c, s[1..], x);
        }
      }
    }
  }

  lemma {:induction false} SubseqAppend<T>(c: seq<T>, s: seq<T>, x: T)
    requires Subseq(c, s)
    ensures Subseq(c + [x], s + [x]) && Subseq(c, s + [x])
    decreases |s|
  {
    var t := s + [x];
    if s == [] {
      assert t[1..] == [];
      assert (c + [x])[1..] == [];
    } else {
      assert t[1..] == s[1..] + [x];
      if c != [] && c[0] == s[0] && Subseq(c[1..], s[1..]) {
        SubseqAppend(c[1..], s[1..], x);
        assert (c + [x])[1..] == c[1..] + [x];
      } else {
        SubseqAppend(c, s[1..], x);
      }
    }
  }

  // ---- What Length means ----

  lemma {:induction false} LengthIsMaximal<T>(c: seq<T>, a: seq<T>, b: seq<T>)
    requires Subseq(c, a) && Subseq(c, b)
    ensures |c| <= Length(a, b)
    decreases |a| + |b|
  {
    if c != [] {
      if a[0] == b[0] {
        TailInTail(c, a);
        TailInTail(c, b);
        LengthIsMaximal(c[1..], a[1..], b[1..]);
      } else if c[0] != a[0] {
        LengthIsMaximal(c, a[1..], b);
      } else {
        LengthIsMaximal(c, a, b[1..]);
      }
    }
  }

  lemma TailInTail<T>(c: seq<T>, s: seq<T>)
    requires c != [] && Subseq(c, s)
    ensures s != [] && Subseq(c[1..], s[1..])
  {
    if !(c[0] == s[0] && Subseq(c[1..], s[1..])) {
      SubseqTail(c, s[1..]);
    }
  }

  lemma {:induction false} LengthIsReached<T>(a: seq<T>, b: seq<T>) returns (c: seq<T>)
    ensures Subseq(c, a) && Subseq(c, b) && |c| == Length(a, b)
    decreases |a| + |b|
  {
    if a == [] || b == [] {
      c := [];
    } else if a[0] == b[0] {
      var d := LengthIsReached(a[1..], b[1..]);
      c := [a[0]] + d;
      assert c[1..] == d;
    } else if Length(a[1..], b) >= Length(a, b[1..]) {
      c := LengthIsReached(a[1..], b);
      SubseqWeaken(c, a);
    } else {
      c := LengthIsReached(a, b[1..]);
      SubseqWeaken(c, b);
    }
  }

  lemma LengthBounded<T>(a: seq<T>, b: seq<T>)
    ensures Length(a, b) <= |a| && Length(a, b) <= |b|
  {
    var c := LengthIsReached(a, b);
    SubseqBounded(c, a);
    SubseqBounded(c, b);
  }

  // One file is a subsequence of the other exactly when nothing of it is lost.
  lemma LengthOfSubseq<T>(a: seq<T>, b: seq<T>)
    ensures Subseq(a, b) <==> Length(a, b) == |a|
  {
    var c := LengthIsReached(a, b);
    if Subseq(a, b) {
      SubseqReflexive(a);
      LengthIsMaximal(a, a, b);
      LengthBounded(a, b);
    } else {
      FullSubseq(c, a);
    }
  }

  lemma {:induction false} FullSubseq<T>(c: seq<T>, s: seq<T>)
    requires Subseq(c, s)
    ensures |c| == |s| ==> c == s
    decreases |s|
  {
    if c != [] {
      if c[0] == s[0] && Subseq(c[1..], s[1..]) {
        FullSubseq(c[1..], s[1..]);
        assert c == [c[0]] + c[1..] && s == [s[0]] + s[1..];
      } else {
        SubseqBounded(c, s[1..]);
      }
    }
  }

  lemma LengthSymmetric<T>(a: seq<T>, b: seq<T>)
    ensures Length(a, b) == Length(b, a)
  {
    var c := LengthIsReached(a, b);
    LengthIsMaximal(c, b, a);
    var d := LengthIsReached(b, a);
    LengthIsMaximal(d, a, b);
  }

  // Dropping one line loses at most one.
  lemma LengthDropRight<T>(a: seq<T>, b: seq<T>)
    requires b != []
    ensures Length(a, b[1..]) <= Length(a, b) <= Length(a, b[1..]) + 1
  {
    var c := LengthIsReached(a, b);
    if c != [] {
      TailInTail(c, b);
      SubseqTail(c, a);
      LengthIsMaximal(c[1..], a, b[1..]);
    }
    var d := LengthIsReached(a, b[1..]);
    SubseqWeaken(d, b);
    LengthIsMaximal(d, a, b);
  }

  // ---- Stripping what the two files share at either end ----

  lemma {:induction false} StripPrefix<T>(p: seq<T>, a: seq<T>, b: seq<T>)
    ensures Length(p + a, p + b) == |p| + Length(a, b)
  {
    if p == [] {
      assert p + a == a && p + b == b;
    } else {
      assert (p + a)[1..] == p[1..] + a && (p + b)[1..] == p[1..] + b;
      StripPrefix(p[1..], a, b);
    }
  }

  lemma StripLast<T>(a: seq<T>, b: seq<T>, x: T)
    ensures Length(a + [x], b + [x]) == Length(a, b) + 1
  {
    var c := LengthIsReached(a + [x], b + [x]);
    SubseqSplitLast(c, a, x);
    SubseqSplitLast(c, b, x);
    if c != [] {
      var h := c[..|c| - 1];
      SubseqInit(c, a);
      SubseqInit(c, b);
      LengthIsMaximal(h, a, b);
    }
    var d := LengthIsReached(a, b);
    SubseqAppend(d, a, x);
    SubseqAppend(d, b, x);
    LengthIsMaximal(d + [x], a + [x], b + [x]);
  }

  lemma {:induction false} SubseqInit<T>(c: seq<T>, s: seq<T>)
    requires c != []
    ensures Subseq(c, s) ==> Subseq(c[..|c| - 1], s)
    decreases |s|
  {
    if Subseq(c, s) {
      if c[0] == s[0] && Subseq(c[1..], s[1..]) {
        if |c| > 1 {
          SubseqInit(c[1..], s[1..]);
          assert c[..|c| - 1][1..] == c[1..][..|c| - 2];
        }
      } else {
        SubseqInit(c, s[1..]);
      }
    }
  }

  lemma {:induction false} StripSuffix<T>(a: seq<T>, b: seq<T>, s: seq<T>)
    ensures Length(a + s, b + s) == Length(a, b) + |s|
  {
    if s == [] {
      assert a + s == a && b + s == b;
    } else {
      var n := |s| - 1;
      assert a + s == (a + s[..n]) + [s[n]] && b + s == (b + s[..n]) + [s[n]];
      StripLast(a + s[..n], b + s[..n], s[n]);
      StripSuffix(a, b, s[..n]);
    }
  }
}
