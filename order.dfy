/** Python's ordering of `str` values: lexicographic by code point, a proper prefix
    first.  Dafny's own `<=` on sequences is the prefix relation, so the order is
    defined here and shown to be a total order. */
module Order {

  /** `a <= b` for Python strings. */
  predicate LexLe(a: string, b: string)
    decreases |a|
  {
    a == [] || (b != [] && (a[0] < b[0] || (a[0] == b[0] && LexLe(a[1..], b[1..]))))
  }

  lemma {:induction false} LexLeRefl(a: string)
    ensures LexLe(a, a)
    decreases |a|
  {
    if a != [] {
      LexLeRefl(a[1..]);
    }
  }

  lemma {:induction false} LexLeAntisym(a: string, b: string)
    requires LexLe(a, b) && LexLe(b, a)
    ensures a == b
    decreases |a|
  {
    if a != [] {
      LexLeAntisym(a[1..], b[1..]);
      assert a == [a[0]] + a[1..];
      assert b == [b[0]] + b[1..];
    }
  }

  lemma {:induction false} LexLeTrans(a: string, b: string, c: string)
    requires LexLe(a, b) && LexLe(b, c)
    ensures LexLe(a, c)
    decreases |a|
  {
    if a != [] && a[0] == b[0] && b[0] == c[0] {
      LexLeTrans(a[1..], b[1..], c[1..]);
    }
  }

  lemma {:induction false} LexLeTotal(a: string, b: string)
    ensures LexLe(a, b) || LexLe(b, a)
    decreases |a|
  {
    if a != [] && b != [] && a[0] == b[0] {
      LexLeTotal(a[1..], b[1..]);
    }
  }

  /** Comparing two strings that start with blocks of the same length: the blocks
      decide unless they are equal, and then the rests decide. */
  lemma {:induction false} LexLeBlocks(p: string, s: string, q: string, t: string)
    requires |p| == |q|
    ensures LexLe(p + s, q + t) <==> (p != q && LexLe(p, q)) || (p == q && LexLe(s, t))
    decreases |p|
  {
    if p != [] {
      assert (p + s)[0] == p[0] && (q + t)[0] == q[0];
      assert (p + s)[1..] == p[1..] + s;
      assert (q + t)[1..] == q[1..] + t;
      assert p == [p[0]] + p[1..] && q == [q[0]] + q[1..];
      if p[0] == q[0] {
        LexLeBlocks(p[1..], s, q[1..], t);
        assert p == q <==> p[1..] == q[1..];
        assert LexLe(p + s, q + t) <==> LexLe(p[1..] + s, q[1..] + t);
        assert LexLe(p, q) <==> LexLe(p[1..], q[1..]);
      } else {
        assert p != q;
        assert LexLe(p + s, q + t) <==> p[0] < q[0];
        assert LexLe(p, q) <==> p[0] < q[0];
      }
    } else {
      assert p + s == s && q + t == t;
    }
  }

  /** Non-increasing order: every element is at least every later one. */
  predicate SortedDesc(s: seq<string>) {
    forall i, j :: 0 <= i < j < |s| ==> LexLe(s[j], s[i])
  }

  /** The first element of a non-increasing list is its greatest. */
  lemma HeadIsGreatest(s: seq<string>, x: string)
    requires SortedDesc(s) && x in multiset(s)
    ensures LexLe(x, s[0])
  {
    var k :| 0 <= k < |s| && s[k] == x;
    if k == 0 {
      LexLeRefl(x);
    }
  }

  /** A list has at most one non-increasing arrangement: two sorted lists with the
      same elements are equal. */
  lemma {:induction false} SortedUnique(a: seq<string>, b: seq<string>)
    requires SortedDesc(a) && SortedDesc(b) && multiset(a) == multiset(b)
    ensures a == b
    decreases |a|
  {
    if a != [] {
      assert b != [] by {
        assert a[0] in multiset(b);
      }
      assert a[0] == b[0] by {
        assert a[0] in multiset(b) && b[0] in multiset(a);
        HeadIsGreatest(b, a[0]);
        HeadIsGreatest(a, b[0]);
        LexLeAntisym(a[0], b[0]);
      }
      assert a[1..] == b[1..] by {
        TailOfSorted(a);
        TailOfSorted(b);
        SortedUnique(a[1..], b[1..]);
      }
      assert a == [a[0]] + a[1..] && b == [b[0]] + b[1..];
    } else {
      assert |b| == |multiset(b)| == 0;
    }
  }

  /** Dropping the head of a non-empty sorted list leaves a sorted list holding the
      other elements. */
  lemma TailOfSorted(s: seq<string>)
    requires SortedDesc(s) && s != []
    ensures SortedDesc(s[1..])
    ensures multiset(s[1..]) == multiset(s) - multiset{s[0]}
  {
    assert s == [s[0]] + s[1..];
    assert multiset(s) == multiset([s[0]]) + multiset(s[1..]);
  }

  /** Inserting `x` at position `j` of a sorted list keeps it sorted when everything
      before `j` is above `x` and the element at `j` is not. */
  lemma InsertKeepsSorted(s: seq<string>, x: string, j: nat)
    requires SortedDesc(s) && j <= |s|
    requires forall k :: 0 <= k < j ==> !LexLe(s[k], x)
    requires j < |s| ==> LexLe(s[j], x)
    ensures SortedDesc(s[..j] + [x] + s[j..])
  {
    var r := s[..j] + [x] + s[j..];
    forall a, b | 0 <= a < b < |r|
      ensures LexLe(r[b], r[a])
    {
      if a < j && b == j {
        LexLeTotal(s[a], x);
      } else if a == j {
        assert r[b] == s[b - 1];
        if b - 1 > j {
          LexLeTrans(s[b - 1], s[j], x);
        }
      } else if a < j && b > j {
        assert r[b] == s[b - 1];
        LexLeTotal(s[a], x);
        assert LexLe(s[b - 1], x) by {
          if b - 1 > j {
            LexLeTrans(s[b - 1], s[j], x);
          }
        }
        LexLeTrans(s[b - 1], x, s[a]);
      } else if a > j {
        assert r[a] == s[a - 1] && r[b] == s[b - 1];
      }
    }
  }
}
