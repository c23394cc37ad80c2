/** The string operations that the cache key, the matcher list and the response builder rest on:
    joining, splitting at one character, and sorting. A `char` stands for one byte. */
module Text {

  /** Strings joined with a separator between neighbours. */
  function Join(parts: seq<string>, sep: string): string {
    if |parts| == 0 then ""
    else if |parts| == 1 then parts[0]
    else parts[0] + sep + Join(parts[1..], sep)
  }

  /** A string cut at every occurrence of one character; never empty. */
  function Split(s: string, c: char): (pieces: seq<string>)
    ensures |pieces| > 0
  {
    if s == "" then [""]
    else
      var rest := Split(s[1..], c);
      if s[0] == c then [""] + rest else [[s[0]] + rest[0]] + rest[1..]
  }

  /** What a running hash has been fed after one write per element. */
  function Concat(parts: seq<string>): string {
    if |parts| == 0 then "" else Concat(parts[..|parts| - 1]) + parts[|parts| - 1]
  }

  function TotalLength(parts: seq<string>): nat {
    if |parts| == 0 then 0 else TotalLength(parts[..|parts| - 1]) + |parts[|parts| - 1]|
  }

  predicate Free(c: char, s: string) {
    c !in s
  }

  predicate AllFree(c: char, parts: seq<string>) {
    forall i :: 0 <= i < |parts| ==> Free(c, parts[i])
  }

  lemma {:induction false} SplitOfPiece(s: string, c: char)
    requires Free(c, s)
    ensures Split(s, c) == [s]
  {
    if s != "" {
      SplitOfPiece(s[1..], c);
      assert [s[0]] + s[1..] == s;
    }
  }

  lemma {:induction false} SplitAtFirst(s: string, c: char, rest: string)
    requires Free(c, s)
    ensures Split(s + [c] + rest, c) == [s] + Split(rest, c)
  {
    if s == "" {
      assert (s + [c] + rest)[1..] == rest;
    } else {
      SplitAtFirst(s[1..], c, rest);
      assert (s + [c] + rest)[1..] == s[1..] + [c] + rest;
      assert [s[0]] + s[1..] == s;
    }
  }

  /** Splitting undoes joining when no part holds the separator. */
  lemma {:induction false} SplitUndoesJoin(parts: seq<string>, c: char)
    requires |parts| > 0 && AllFree(c, parts)
    ensures Split(Join(parts, [c]), c) == parts
  {
    if |parts| == 1 {
      SplitOfPiece(parts[0], c);
    } else {
      assert Free(c, parts[0]);
      forall i | 0 <= i < |parts[1..]| ensures Free(c, parts[1..][i]) { assert Free(c, parts[i + 1]); }
      SplitUndoesJoin(parts[1..], c);
      SplitAtFirst(parts[0], c, Join(parts[1..], [c]));
    }
  }

  /** Joining undoes splitting, for every string, and no piece holds the separator. */
  lemma {:induction false} JoinUndoesSplit(s: string, c: char)
    ensures Join(Split(s, c), [c]) == s
    ensures AllFree(c, Split(s, c))
  {
    if s != "" {
      JoinUndoesSplit(s[1..], c);
      var rest := Split(s[1..], c);
      assert Free(c, rest[0]);
      if s[0] != c {
        var pieces := [[s[0]] + rest[0]] + rest[1..];
        assert pieces[1..] == rest[1..];
        forall i | 0 <= i < |pieces| ensures Free(c, pieces[i]) { assert Free(c, rest[i]); }
      } else {
        var pieces := [""] + rest;
        assert pieces[1..] == rest;
        forall i | 0 <= i < |pieces| ensures Free(c, pieces[i]) { if i > 0 { assert Free(c, rest[i - 1]); } }
      }
    }
  }

  /** The first field of a separated record is determined by the record. */
  lemma FirstField(a: string, b: string, c: char, x: string, y: string)
    requires Free(c, a) && Free(c, b)
    requires a + [c] + x == b + [c] + y
    ensures a == b && x == y
  {
    SplitAtFirst(a, c, x);
    SplitAtFirst(b, c, y);
    assert a == Split(a + [c] + x, c)[0] == b;
    assert x == (a + [c] + x)[|a| + 1..] && y == (b + [c] + y)[|b| + 1..];
  }

  /** The lists that are joined to the empty text. */
  predicate Blank(parts: seq<string>) {
    parts == [] || parts == [""]
  }

  /** Joining with a separator that no part holds loses nothing but the difference between no part and one
      empty part. */
  lemma JoinExactly(a: seq<string>, b: seq<string>, c: char)
    requires AllFree(c, a) && AllFree(c, b)
    ensures Join(a, [c]) == Join(b, [c]) <==> a == b || (Blank(a) && Blank(b))
  {
    if a != [] { SplitUndoesJoin(a, c); }
    if b != [] { SplitUndoesJoin(b, c); }
  }

  lemma {:induction false} JoinFree(parts: seq<string>, sep: string, c: char)
    requires AllFree(c, parts) && Free(c, sep)
    ensures Free(c, Join(parts, sep))
  {
    if |parts| > 0 {
      assert Free(c, parts[0]);
      forall i | 0 <= i < |parts[1..]| ensures Free(c, parts[1..][i]) { assert Free(c, parts[i + 1]); }
      JoinFree(parts[1..], sep, c);
    }
  }

  /** Writes add up in order. */
  lemma {:induction false} ConcatAppends(a: seq<string>, b: seq<string>)
    ensures Concat(a + b) == Concat(a) + Concat(b)
    ensures |b| == 1 ==> Concat(b) == b[0]
  {
    if b == [] {
      assert a + b == a;
    } else {
      assert (a + b)[..|a + b| - 1] == a + b[..|b| - 1];
      ConcatAppends(a, b[..|b| - 1]);
    }
  }

  lemma {:induction false} ConcatLength(parts: seq<string>)
    ensures |Concat(parts)| == TotalLength(parts)
  {
    if |parts| > 0 { ConcatLength(parts[..|parts| - 1]); }
  }

  lemma {:induction false} TotalLengthAppend(a: seq<string>, b: seq<string>)
    ensures TotalLength(a + b) == TotalLength(a) + TotalLength(b)
  {
    if b == [] {
      assert a + b == a;
    } else {
      assert (a + b)[..|a + b| - 1] == a + b[..|b| - 1];
      TotalLengthAppend(a, b[..|b| - 1]);
    }
  }

  /** The byte-wise order that sorts strings. */
  predicate Leq(a: string, b: string) {
    |a| == 0 || (|b| > 0 && (a[0] < b[0] || (a[0] == b[0] && Leq(a[1..], b[1..]))))
  }

  /** Byte-wise order: a beginning comes before what it begins, and otherwise the first difference decides. */
  lemma {:induction false} LeqMeaning(a: string, b: string)
    ensures Leq(a, b) <==>
      a <= b || exists k :: 0 <= k < |a| && k < |b| && a[..k] == b[..k] && a[k] < b[k]
  {
    if a != "" && b != "" {
      var x, y := a[1..], b[1..];
      if a[0] < b[0] {
        assert a[..0] == b[..0];
      } else if a[0] == b[0] {
        LeqMeaning(x, y);
        assert a <= b <==> x <= y;
        forall k | 0 <= k < |x| && k < |y| && x[..k] == y[..k] && x[k] < y[k]
          ensures a[..k + 1] == b[..k + 1] && a[k + 1] < b[k + 1]
        {
          assert a[..k + 1] == [a[0]] + x[..k] && b[..k + 1] == [b[0]] + y[..k];
        }
        forall k | 0 <= k < |a| && k < |b| && a[..k] == b[..k] && a[k] < b[k]
          ensures k > 0 && x[..k - 1] == y[..k - 1] && x[k - 1] < y[k - 1]
        {
          assert x[..k - 1] == a[..k][1..] && y[..k - 1] == b[..k][1..];
        }
      } else {
        forall k | 0 < k < |a| && k < |b| ensures a[..k][0] == a[0] && b[..k][0] == b[0] {}
      }
    }
  }

  lemma {:induction false} LeqTotal(a: string, b: string)
    ensures Leq(a, b) || Leq(b, a)
  {
    if a != "" && b != "" { LeqTotal(a[1..], b[1..]); }
  }

  lemma {:induction false} LeqTransitive(a: string, b: string, c: string)
    requires Leq(a, b) && Leq(b, c)
    ensures Leq(a, c)
  {
    if a != "" && a[0] == b[0] && b[0] == c[0] { LeqTransitive(a[1..], b[1..], c[1..]); }
  }

  lemma {:induction false} LeqAntisymmetric(a: string, b: string)
    requires Leq(a, b) && Leq(b, a)
    ensures a == b
  {
    if a != "" {
      LeqAntisymmetric(a[1..], b[1..]);
      assert a == [a[0]] + a[1..] && b == [b[0]] + b[1..];
    }
  }

  predicate Ordered(s: seq<string>) {
    forall i, j :: 0 <= i < j < |s| ==> Leq(s[i], s[j])
  }

  function Insert(x: string, s: seq<string>): seq<string> {
    if s == [] then [x]
    else if Leq(x, s[0]) then [x] + s
    else [s[0]] + Insert(x, s[1..])
  }

  /** The sorted rearrangement of a list of strings. */
  function Sorted(s: seq<string>): seq<string> {
    if s == [] then [] else Insert(s[0], Sorted(s[1..]))
  }

  lemma TailMultiset(s: seq<string>)
    requires s != []
    ensures multiset(s[1..]) == multiset(s) - multiset{s[0]}
  {
    assert s == [s[0]] + s[1..];
  }

  lemma {:induction false} InsertKeeps(x: string, s: seq<string>)
    ensures multiset(Insert(x, s)) == multiset(s) + multiset{x}
  {
    if s != [] {
      TailMultiset(s);
      InsertKeeps(x, s[1..]);
    }
  }

  lemma {:induction false} InsertOrders(x: string, s: seq<string>)
    requires Ordered(s)
    ensures Ordered(Insert(x, s))
  {
    if s != [] {
      if Leq(x, s[0]) {
        forall j | 0 <= j < |s| ensures Leq(x, s[j]) {
          if j > 0 { LeqTransitive(x, s[0], s[j]); }
        }
      } else {
        LeqTotal(x, s[0]);
        InsertOrders(x, s[1..]);
        InsertKeeps(x, s[1..]);
        var t := Insert(x, s[1..]);
        forall j | 0 <= j < |t| ensures Leq(s[0], t[j]) {
          assert t[j] in multiset(t);
          assert t[j] == x || t[j] in s[1..];
        }
      }
    }
  }

  /** Sorting gives an ordered permutation. */
  lemma {:induction false} SortedIsOrderedPermutation(s: seq<string>)
    ensures Ordered(Sorted(s)) && multiset(Sorted(s)) == multiset(s) && |Sorted(s)| == |s|
  {
    if s != [] {
      SortedIsOrderedPermutation(s[1..]);
      InsertOrders(s[0], Sorted(s[1..]));
      InsertKeeps(s[0], Sorted(s[1..]));
      TailMultiset(s);
    }
    assert |multiset(Sorted(s))| == |multiset(s)|;
  }

  lemma LeastFirst(s: seq<string>, x: string)
    requires Ordered(s) && x in s
    ensures Leq(s[0], x)
  {
    LeqTotal(x, x);
    var j :| 0 <= j < |s| && s[j] == x;
  }

  lemma {:induction false} OrderedUnique(a: seq<string>, b: seq<string>)
    requires Ordered(a) && Ordered(b) && multiset(a) == multiset(b)
    ensures a == b
  {
    assert |a| == |multiset(a)| == |multiset(b)| == |b|;
    if a != [] {
      assert a[0] in multiset(b) && b[0] in multiset(a);
      LeastFirst(a, b[0]);
      LeastFirst(b, a[0]);
      LeqAntisymmetric(a[0], b[0]);
      TailMultiset(a);
      TailMultiset(b);
      OrderedUnique(a[1..], b[1..]);
      assert a == [a[0]] + a[1..] && b == [b[0]] + b[1..];
    }
  }

  /** Rearranging a list does not change what sorting makes of it. */
  lemma SortedIsCanonical(a: seq<string>, b: seq<string>)
    ensures multiset(a) == multiset(b) <==> Sorted(a) == Sorted(b)
  {
    SortedIsOrderedPermutation(a);
    SortedIsOrderedPermutation(b);
    if multiset(a) == multiset(b) { OrderedUnique(Sorted(a), Sorted(b)); }
  }

  lemma {:induction false} InsertTotalLength(x: string, s: seq<string>)
    ensures TotalLength(Insert(x, s)) == |x| + TotalLength(s)
  {
    assert [x][..0] == [];
    TotalLengthAppend([x], s);
    if s != [] {
      assert [s[0]][..0] == [] && s == [s[0]] + s[1..];
      InsertTotalLength(x, s[1..]);
      TotalLengthAppend([s[0]], s[1..]);
      TotalLengthAppend([s[0]], Insert(x, s[1..]));
    }
  }

  lemma {:induction false} SortedTotalLength(s: seq<string>)
    ensures TotalLength(Sorted(s)) == TotalLength(s)
  {
    if s != [] {
      SortedTotalLength(s[1..]);
      InsertTotalLength(s[0], Sorted(s[1..]));
      assert [s[0]][..0] == [] && s == [s[0]] + s[1..];
      TotalLengthAppend([s[0]], s[1..]);
    }
  }

  /** The library sort: the array becomes its sorted rearrangement, in place. */
  method SortStrings(a: array<string>)
    modifies a
    ensures a[..] == Sorted(old(a[..]))
  {
    var s := Sorted(a[..]);
    SortedIsOrderedPermutation(a[..]);
    forall i | 0 <= i < a.Length {
      a[i] := s[i];
    }
  }
}
