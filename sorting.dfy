/** `pairs.sort((a, b) => a.toLowerCase().localeCompare(b.toLowerCase()))`.
    `Array.prototype.sort` is stable; the model is a stable insertion sort on
    values, proved to give an ordered permutation of its input, and an ordered
    permutation is proved unique once no two pieces are equal ignoring case. */
module Sorting {
  import opened Text

  /** Ascending, ignoring case. */
  predicate Sorted(s: seq<string>)
  {
    forall i, j :: 0 <= i < j < |s| ==> PieceLe(s[i], s[j])
  }

  /** No two distinct pieces coincide once lower-cased. */
  predicate LowerInjective(s: seq<string>)
  {
    forall x, y :: x in s && y in s && Lower(x) == Lower(y) ==> x == y
  }

  /** Places `x` in front of the first element it does not sort after, so
      that it stays ahead of the elements it ties with. */
  function Insert(x: string, s: seq<string>): seq<string>
  {
    if s == [] then [x]
    else if PieceLe(x, s[0]) then [x] + s
    else [s[0]] + Insert(x, s[1..])
  }

  function SortPieces(s: seq<string>): seq<string>
  {
    if s == [] then [] else Insert(s[0], SortPieces(s[1..]))
  }

  lemma {:induction false} InsertPermutes(x: string, s: seq<string>)
    ensures multiset(Insert(x, s)) == multiset(s) + multiset{x}
  {
    if s != [] && !PieceLe(x, s[0]) {
      InsertPermutes(x, s[1..]);
      assert s == [s[0]] + s[1..];
    }
  }

  lemma {:induction false} InsertSorted(x: string, s: seq<string>)
    requires Sorted(s)
    ensures Sorted(Insert(x, s))
  {
    if s == [] {
    } else if PieceLe(x, s[0]) {
      forall j | 0 < j < |s| + 1
        ensures PieceLe(x, ([x] + s)[j])
      {
        if j > 1 {
          LexLeTransitive(Lower(x), Lower(s[0]), Lower(s[j - 1]));
        }
      }
    } else {
      LexLeTotal(Lower(x), Lower(s[0]));
      var t := Insert(x, s[1..]);
      InsertSorted(x, s[1..]);
      InsertPermutes(x, s[1..]);
      forall j | 0 <= j < |t|
        ensures PieceLe(s[0], t[j])
      {
        assert t[j] in multiset(t);
        if t[j] != x {
          assert t[j] in multiset(s[1..]);
          var k :| 0 <= k < |s[1..]| && s[1..][k] == t[j];
          assert s[k + 1] == t[j];
        }
      }
    }
  }

  /** The sort returns an ascending permutation of its input. */
  lemma {:induction false} SortPiecesCorrect(s: seq<string>)
    ensures Sorted(SortPieces(s))
    ensures multiset(SortPieces(s)) == multiset(s)
  {
    if s != [] {
      SortPiecesCorrect(s[1..]);
      InsertSorted(s[0], SortPieces(s[1..]));
      InsertPermutes(s[0], SortPieces(s[1..]));
      assert s == [s[0]] + s[1..];
    }
  }

  /** The first element of an ascending sequence sorts before every element. */
  lemma FirstIsLeast(s: seq<string>, x: string)
    requires Sorted(s) && x in s
    ensures PieceLe(s[0], x)
  {
    var k :| 0 <= k < |s| && s[k] == x;
    if k == 0 {
      LexLeReflexive(Lower(x));
    }
  }

  /** Two ascending permutations of the same pieces are equal when no two
      distinct pieces are equal ignoring case. */
  lemma {:induction false} SortedUnique(a: seq<string>, b: seq<string>)
    requires Sorted(a) && Sorted(b)
    requires multiset(a) == multiset(b)
    requires LowerInjective(a)
    ensures a == b
  {
    if a != [] {
      assert a[0] in multiset(b);
      assert b != [];
      assert b[0] in multiset(a);
      FirstIsLeast(a, b[0]);
      FirstIsLeast(b, a[0]);
      LexLeAntisymmetric(Lower(a[0]), Lower(b[0]));
      assert a[0] == b[0];
      assert a == [a[0]] + a[1..];
      assert b == [b[0]] + b[1..];
      calc {
        multiset(a[1..]);
        multiset(a) - multiset{a[0]};
        multiset(b) - multiset{b[0]};
        multiset(b[1..]);
      }
      forall x | x in a[1..] ensures x in a { }
      SortedUnique(a[1..], b[1..]);
    } else {
      assert |multiset(b)| == 0;
    }
  }
}
