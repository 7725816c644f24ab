/** The k-combination generator of FindLineClusters (engine.c:421-477):
    an array of k "apparent" indices that starts at 0, 1, ..., k-1 and is
    advanced by bumping the rightmost index that can still grow and resetting
    the indices after it to follow it. */
module Combinations {
  import opened Options

  /** Each entry of `s` is smaller than every later one. */
  predicate Increasing(s: seq<int>)
  {
    forall i, j :: 0 <= i < j < |s| ==> s[i] < s[j]
  }

  /** `c` is a strictly increasing k-tuple of indices in [0, n). */
  predicate IsComb(c: seq<int>, k: int, n: int)
  {
    && |c| == k
    && (forall i :: 0 <= i < |c| ==> 0 <= c[i] < n)
    && Increasing(c)
  }

  /** Lexicographic order on tuples of equal length. */
  predicate LexLess(a: seq<int>, b: seq<int>)
  {
    |a| == |b| && exists p :: 0 <= p < |a| && a[..p] == b[..p] && a[p] < b[p]
  }

  /** The first combination: 0, 1, ..., k-1 (engine.c:421-423), shifted to start at `lo`. */
  function Iota(lo: int, k: nat): (r: seq<int>)
    ensures |r| == k && forall i :: 0 <= i < k ==> r[i] == lo + i
  {
    seq(k, i => lo + i)
  }

  function Prepend(x: int, tuples: seq<seq<int>>): (r: seq<seq<int>>)
    ensures |r| == |tuples| && forall i :: 0 <= i < |r| ==> r[i] == [x] + tuples[i]
  {
    seq(|tuples|, i requires 0 <= i < |tuples| => [x] + tuples[i])
  }

  /** Reference definition: every strictly increasing k-tuple over [lo, n),
      listed in lexicographic order (those starting with `lo` first). */
  function Combs(k: nat, lo: int, n: int): seq<seq<int>>
    decreases k, n - lo
  {
    if k == 0 then [[]]
    else if lo >= n then []
    else Prepend(lo, Combs(k - 1, lo + 1, n)) + Combs(k, lo + 1, n)
  }

  /** The tuple after resetting every index from `m` on to follow an incremented `c[m]`
      (engine.c:460-463). */
  function Bump(c: seq<int>, m: int): (r: seq<int>)
    requires 0 <= m < |c|
    ensures |r| == |c|
    ensures forall i :: 0 <= i < |c| ==> r[i] == if i < m then c[i] else c[m] + 1 + (i - m)
  {
    c[..m] + seq(|c| - m, i => c[m] + 1 + i)
  }

  /** The search of engine.c:451-472 from position `j` down: the first position whose
      index is below its largest possible value is bumped; None when there is none. */
  function Advance(c: seq<int>, n: int, j: int): Option<seq<int>>
    requires -1 <= j < |c|
    decreases j + 1
  {
    if j == -1 then None
    else if c[j] < n - 1 - (|c| - 1 - j) then Some(Bump(c, j))
    else Advance(c, n, j - 1)
  }

  /** The combination the generator moves to after `c`, or None once it is exhausted. */
  function Next(c: seq<int>, n: int): Option<seq<int>>
  {
    Advance(c, n, |c| - 1)
  }

  // ---------------------------------------------------------------------
  // Facts about combinations and the lexicographic order

  lemma {:induction false} CombGap(c: seq<int>, i: int, j: int)
    requires forall a, b :: 0 <= a < b < |c| ==> c[a] < c[b]
    requires 0 <= i <= j < |c|
    ensures c[j] - c[i] >= j - i
    decreases j - i
  {
    if i < j {
      CombGap(c, i, j - 1);
    }
  }

  /** Index i of a k-combination over [0, n) lies in [i, n - k + i]. */
  lemma CombBounds(c: seq<int>, k: int, n: int)
    requires IsComb(c, k, n)
    ensures forall i :: 0 <= i < k ==> i <= c[i] <= n - k + i
  {
    forall i | 0 <= i < k
      ensures i <= c[i] <= n - k + i
    {
      CombGap(c, 0, i);
      CombGap(c, i, k - 1);
    }
  }

  lemma LexTrans(a: seq<int>, b: seq<int>, c: seq<int>)
    requires LexLess(a, b) && LexLess(b, c)
    ensures LexLess(a, c)
  {
    var p1 :| 0 <= p1 < |a| && a[..p1] == b[..p1] && a[p1] < b[p1];
    var p2 :| 0 <= p2 < |b| && b[..p2] == c[..p2] && b[p2] < c[p2];
    if p1 < p2 {
      assert b[..p1] == b[..p2][..p1] && c[..p1] == c[..p2][..p1];
      assert b[p1] == b[..p2][p1] && c[p1] == c[..p2][p1];
      assert a[..p1] == c[..p1] && a[p1] < c[p1];
    } else if p2 < p1 {
      assert a[..p2] == a[..p1][..p2] && b[..p2] == b[..p1][..p2];
      assert a[p2] == a[..p1][p2] && b[p2] == b[..p1][p2];
      assert a[..p2] == c[..p2] && a[p2] < c[p2];
    } else {
      assert a[..p1] == c[..p1] && a[p1] < c[p1];
    }
  }

  lemma LexAsym(a: seq<int>, b: seq<int>)
    requires LexLess(a, b)
    ensures !LexLess(b, a)
  {
    if LexLess(b, a) {
      LexTrans(a, b, a);
      assert false;
    }
  }

  lemma LexPrepend(x: int, a: seq<int>, b: seq<int>)
    requires LexLess(a, b)
    ensures LexLess([x] + a, [x] + b)
  {
    var p :| 0 <= p < |a| && a[..p] == b[..p] && a[p] < b[p];
    assert ([x] + a)[..p + 1] == [x] + a[..p];
    assert ([x] + b)[..p + 1] == [x] + b[..p];
    assert ([x] + a)[p + 1] == a[p] && ([x] + b)[p + 1] == b[p];
  }

  /** LexLess from a position where the tuples first differ. */
  lemma LexWitness(a: seq<int>, b: seq<int>, p: int)
    requires |a| == |b| && 0 <= p < |a| && a[p] < b[p]
    requires forall i :: 0 <= i < p ==> a[i] == b[i]
    ensures LexLess(a, b)
  {
    assert a[..p] == b[..p];
  }

  /** The position where two lexicographically ordered tuples first differ. */
  lemma LexPosition(a: seq<int>, b: seq<int>) returns (p: int)
    requires LexLess(a, b)
    ensures 0 <= p < |a| && a[p] < b[p] && forall i :: 0 <= i < p ==> a[i] == b[i]
  {
    p :| 0 <= p < |a| && a[..p] == b[..p] && a[p] < b[p];
    forall i | 0 <= i < p
      ensures a[i] == b[i]
    {
      assert a[i] == a[..p][i] && b[i] == b[..p][i];
    }
  }

  /** Two different tuples of one length have a first position where they differ. */
  lemma {:induction false} FirstDiff(a: seq<int>, b: seq<int>) returns (q: int)
    requires |a| == |b| && a != b
    ensures 0 <= q < |a| && a[..q] == b[..q] && a[q] != b[q]
  {
    if a[0] != b[0] {
      q := 0;
    } else {
      assert a == [a[0]] + a[1..] && b == [b[0]] + b[1..];
      var q' := FirstDiff(a[1..], b[1..]);
      q := q' + 1;
      assert a[..q] == [a[0]] + a[1..][..q'];
      assert b[..q] == [b[0]] + b[1..][..q'];
    }
  }

  // ---------------------------------------------------------------------
  // The reference list Combs: valid, complete, strictly sorted

  /** `c` is a k-combination over [0, n) whose entries are all at least `lo`. */
  predicate Within(c: seq<int>, k: nat, lo: int, n: int)
  {
    IsComb(c, k, n) && forall i :: 0 <= i < k ==> lo <= c[i]
  }

  /** One step of the definition of Combs, as an equation. */
  lemma CombsUnfold(k: nat, lo: int, n: int)
    requires k > 0 && lo < n
    ensures Combs(k, lo, n) == Prepend(lo, Combs(k - 1, lo + 1, n)) + Combs(k, lo + 1, n)
  {
  }

  /** Every listed tuple is a k-combination over [0, n) with entries at least `lo`. */
  lemma {:induction false} CombsValid(k: nat, lo: int, n: int)
    requires 0 <= lo
    ensures forall t :: 0 <= t < |Combs(k, lo, n)| ==> Within(Combs(k, lo, n)[t], k, lo, n)
    decreases k, n - lo
  {
    if k == 0 {
      assert Combs(k, lo, n) == [[]];
    } else if lo < n {
      CombsValid(k - 1, lo + 1, n);
      CombsValid(k, lo + 1, n);
      var tails := Combs(k - 1, lo + 1, n);
      var head := Prepend(lo, tails);
      var rest := Combs(k, lo + 1, n);
      CombsUnfold(k, lo, n);
      var all := head + rest;
      forall t | 0 <= t < |all|
        ensures Within(all[t], k, lo, n)
      {
        if t < |head| {
          ConsComb(lo, tails[t], k, n);
        } else {
          assert all[t] == rest[t - |head|];
        }
      }
    }
  }

  /** Putting `lo` in front of a combination whose entries exceed it gives a combination. */
  lemma ConsComb(lo: int, tail: seq<int>, k: nat, n: int)
    requires k > 0 && 0 <= lo < n && Within(tail, k - 1, lo + 1, n)
    ensures Within([lo] + tail, k, lo, n)
  {
    var c := [lo] + tail;
    assert forall i :: 1 <= i < k ==> c[i] == tail[i - 1];
    forall i, j | 0 <= i < j < k
      ensures c[i] < c[j]
    {
      if i > 0 {
        assert tail[i - 1] < tail[j - 1];
      }
    }
  }

  /** Dropping the first entry of a combination leaves a combination whose entries exceed it. */
  lemma TailComb(c: seq<int>, k: nat, n: int)
    requires IsComb(c, k, n) && k > 0
    ensures Within(c[1..], k - 1, c[0] + 1, n)
  {
    var tail := c[1..];
    assert forall i :: 0 <= i < k - 1 ==> tail[i] == c[i + 1];
    forall i, j | 0 <= i < j < k - 1
      ensures tail[i] < tail[j]
    {
      assert c[i + 1] < c[j + 1];
    }
  }

  /** Every k-combination over [0, n) with entries at least `lo` is listed. */
  lemma CombsComplete(c: seq<int>, k: nat, lo: int, n: int)
    requires Within(c, k, lo, n)
    ensures c in Combs(k, lo, n)
  {
    var t := CombsIndex(c, k, lo, n);
  }

  /** The position at which a combination is listed. */
  lemma {:induction false} CombsIndex(c: seq<int>, k: nat, lo: int, n: int) returns (t: nat)
    requires Within(c, k, lo, n)
    ensures t < |Combs(k, lo, n)| && Combs(k, lo, n)[t] == c
    decreases k, n - lo, 1
  {
    if k == 0 {
      assert c == [];
      t := 0;
    } else if c[0] == lo {
      TailComb(c, k, n);
      t := CombsIndexHead(c, k, lo, n);
    } else {
      CombsRaise(c, k, lo, n);
      t := CombsIndexRest(c, k, lo, n);
    }
  }

  /** CombsIndex for a combination that starts with `lo`: found among the tails. */
  lemma {:induction false} CombsIndexHead(c: seq<int>, k: nat, lo: int, n: int) returns (t: nat)
    requires k > 0 && |c| == k && c[0] == lo && lo < n && Within(c[1..], k - 1, lo + 1, n)
    ensures t < |Combs(k, lo, n)| && Combs(k, lo, n)[t] == c
    decreases k, n - lo, 0
  {
    var u := CombsIndex(c[1..], k - 1, lo + 1, n);
    CombsAtHead(k, lo, n, u);
    assert [c[0]] + c[1..] == c;
    t := u;
  }

  /** CombsIndex for a combination that starts above `lo`: found in the list from lo + 1. */
  lemma {:induction false} CombsIndexRest(c: seq<int>, k: nat, lo: int, n: int) returns (t: nat)
    requires k > 0 && lo < n && Within(c, k, lo + 1, n)
    ensures t < |Combs(k, lo, n)| && Combs(k, lo, n)[t] == c
    decreases k, n - lo, 0
  {
    var u := CombsIndex(c, k, lo + 1, n);
    CombsAtRest(k, lo, n, u);
    t := |Combs(k - 1, lo + 1, n)| + u;
  }

  /** The combinations that start with `lo` come first, in the order of their tails. */
  lemma CombsAtHead(k: nat, lo: int, n: int, t: nat)
    requires k > 0 && lo < n && t < |Combs(k - 1, lo + 1, n)|
    ensures t < |Combs(k, lo, n)| && Combs(k, lo, n)[t] == [lo] + Combs(k - 1, lo + 1, n)[t]
  {
    CombsUnfold(k, lo, n);
  }

  /** The combinations over [lo + 1, n) follow them. */
  lemma CombsAtRest(k: nat, lo: int, n: int, t: nat)
    requires k > 0 && lo < n && t < |Combs(k, lo + 1, n)|
    ensures |Combs(k - 1, lo + 1, n)| + t < |Combs(k, lo, n)|
    ensures Combs(k, lo, n)[|Combs(k - 1, lo + 1, n)| + t] == Combs(k, lo + 1, n)[t]
  {
    CombsUnfold(k, lo, n);
  }

  /** A combination that does not start at `lo` has all its entries above `lo`. */
  lemma CombsRaise(c: seq<int>, k: nat, lo: int, n: int)
    requires k > 0 && Within(c, k, lo, n) && c[0] != lo
    ensures lo < n && Within(c, k, lo + 1, n)
  {
    assert forall i :: 0 < i < k ==> c[0] < c[i];
  }

  /** The list is strictly increasing in lexicographic order, so no tuple appears twice. */
  lemma {:induction false} CombsSorted(k: nat, lo: int, n: int)
    requires 0 <= lo
    ensures forall s, t :: 0 <= s < t < |Combs(k, lo, n)| ==> LexLess(Combs(k, lo, n)[s], Combs(k, lo, n)[t])
    decreases k, n - lo
  {
    if k > 0 && lo < n {
      CombsSorted(k - 1, lo + 1, n);
      CombsSorted(k, lo + 1, n);
      CombsValid(k - 1, lo + 1, n);
      CombsValid(k, lo + 1, n);
      var tails := Combs(k - 1, lo + 1, n);
      var head := Prepend(lo, tails);
      var rest := Combs(k, lo + 1, n);
      var all := Combs(k, lo, n);
      assert all == head + rest;
      forall s, t | 0 <= s < t < |all|
        ensures LexLess(all[s], all[t])
      {
        if t < |head| {
          LexPrepend(lo, tails[s], tails[t]);
        } else if s >= |head| {
          assert all[s] == rest[s - |head|] && all[t] == rest[t - |head|];
        } else {
          var a, b := all[s], all[t];
          assert a == [lo] + tails[s] && b == rest[t - |head|];
          assert a[..0] == b[..0] && a[0] < b[0];
        }
      }
    }
  }

  /** The reference list for k <= n - lo starts with lo, lo+1, ..., lo+k-1. */
  lemma {:induction false} CombsFirst(k: nat, lo: int, n: int)
    requires lo + k <= n
    ensures |Combs(k, lo, n)| > 0 && Combs(k, lo, n)[0] == Iota(lo, k)
    decreases k
  {
    if k > 0 {
      CombsFirst(k - 1, lo + 1, n);
      CombsAtHead(k, lo, n, 0);
      IotaCons(lo, k);
    }
  }

  /** Iota starting at `lo` is `lo` followed by Iota starting at lo + 1. */
  lemma IotaCons(lo: int, k: nat)
    requires k > 0
    ensures Iota(lo, k) == [lo] + Iota(lo + 1, k - 1)
  {
    assert forall i :: 0 <= i < k ==> Iota(lo, k)[i] == ([lo] + Iota(lo + 1, k - 1))[i];
  }

  // ---------------------------------------------------------------------
  // The successor step

  /** When position p can still grow, the search from j >= p bumps some position m in [p, j]. */
  lemma {:induction false} AdvanceFinds(c: seq<int>, n: int, j: int, p: int) returns (m: int)
    requires 0 <= p <= j < |c| && c[p] < n - 1 - (|c| - 1 - p)
    ensures p <= m <= j && c[m] < n - 1 - (|c| - 1 - m) && Advance(c, n, j) == Some(Bump(c, m))
    decreases j
  {
    if c[j] < n - 1 - (|c| - 1 - j) {
      m := j;
    } else {
      m := AdvanceFinds(c, n, j - 1, p);
    }
  }

  /** A successful search bumps a position that could still grow. */
  lemma {:induction false} AdvancePivot(c: seq<int>, n: int, j: int) returns (m: int)
    requires -1 <= j < |c| && Advance(c, n, j).Some?
    ensures 0 <= m <= j && c[m] < n - 1 - (|c| - 1 - m) && Advance(c, n, j) == Some(Bump(c, m))
    decreases j + 1
  {
    if c[j] < n - 1 - (|c| - 1 - j) {
      m := j;
    } else {
      m := AdvancePivot(c, n, j - 1);
    }
  }

  /** The successor of a combination is a combination that comes after it. */
  lemma NextValid(c: seq<int>, k: nat, n: int)
    requires IsComb(c, k, n) && Next(c, n).Some?
    ensures IsComb(Next(c, n).value, k, n) && LexLess(c, Next(c, n).value)
  {
    var m := AdvancePivot(c, n, k - 1);
    var d := Bump(c, m);
    assert d[..m] == c[..m];
  }

  /** No combination lies strictly between a combination and its successor:
      the successor is the least combination after `c`. */
  lemma NextLeast(c: seq<int>, e: seq<int>, k: nat, n: int)
    requires IsComb(c, k, n) && IsComb(e, k, n) && LexLess(c, e)
    ensures Next(c, n).Some?
    ensures Next(c, n).value == e || LexLess(Next(c, n).value, e)
  {
    var p := LexPosition(c, e);
    CombBounds(e, k, n);
    var m := AdvanceFinds(c, n, k - 1, p);
    var d := Bump(c, m);
    if m > p || d[p] < e[p] {
      LexWitness(d, e, p);
    } else if d != e {
      BumpMeetsAt(c, e, k, n, p);
    }
  }

  /** When the bump happens at the first position where `c` and `e` differ and
      reaches e's value there, the bumped tuple is at most `e` from there on. */
  lemma BumpMeetsAt(c: seq<int>, e: seq<int>, k: nat, n: int, p: int)
    requires IsComb(c, k, n) && IsComb(e, k, n)
    requires 0 <= p < k && forall i :: 0 <= i < p ==> c[i] == e[i]
    requires c[p] + 1 == e[p] && Bump(c, p) != e
    ensures LexLess(Bump(c, p), e)
  {
    var d := Bump(c, p);
    forall i | p <= i < k
      ensures d[i] <= e[i]
    {
      CombGap(e, p, i);
    }
    var q := FirstDiff(d, e);
    assert forall i :: 0 <= i < q ==> d[i] == d[..q][i] == e[..q][i] == e[i];
    assert q > p;
    LexWitness(d, e, q);
  }

  /** The generator's step: from the t-th listed combination it moves to the
      (t+1)-th, and after the last one it reports that it is exhausted. */
  lemma CombsNext(k: nat, n: int, t: int)
    requires 0 <= t < |Combs(k, 0, n)|
    ensures Next(Combs(k, 0, n)[t], n) ==
      if t + 1 < |Combs(k, 0, n)| then Some(Combs(k, 0, n)[t + 1]) else None
  {
    var all := Combs(k, 0, n);
    CombsValid(k, 0, n);
    CombsSorted(k, 0, n);
    var c := all[t];
    if Next(c, n).Some? {
      var d := Next(c, n).value;
      NextValid(c, k, n);
      CombsComplete(d, k, 0, n);
      var m :| 0 <= m < |all| && all[m] == d;
      if m < t {
        LexAsym(all[m], all[t]);
      }
      assert m != t;
      NextLeast(c, all[t + 1], k, n);
      if m > t + 1 {
        LexAsym(all[t + 1], all[m]);
      }
    } else if t + 1 < |all| {
      NextLeast(c, all[t + 1], k, n);
    }
  }

  /** From the t-th entry of `combos` on, the generator steps to the following entry,
      and from the last one it reports that it is exhausted. */
  predicate StepsFrom(combos: seq<seq<int>>, n: int, t: nat)
    decreases |combos| - t
  {
    t < |combos| ==>
      if t + 1 < |combos| then Next(combos[t], n) == Some(combos[t + 1]) && StepsFrom(combos, n, t + 1)
      else Next(combos[t], n) == None
  }

  /** `combos` is what the generator visits: it starts at 0, 1, ..., k-1, steps from each
      listed combination to the next, and stops after the last one. */
  predicate Enumerates(combos: seq<seq<int>>, k: nat, n: int)
  {
    |combos| > 0 && combos[0] == Iota(0, k) && StepsFrom(combos, n, 0)
  }

  /** The generator visits exactly the reference list, in its order. */
  lemma CombsEnumerate(k: nat, n: int)
    requires k <= n
    ensures Enumerates(Combs(k, 0, n), k, n)
  {
    CombsFirst(k, 0, n);
    CombsStepsFrom(k, n, 0);
  }

  lemma {:induction false} CombsStepsFrom(k: nat, n: int, t: nat)
    ensures StepsFrom(Combs(k, 0, n), n, t)
    decreases |Combs(k, 0, n)| - t
  {
    if t < |Combs(k, 0, n)| {
      CombsNext(k, n, t);
      if t + 1 < |Combs(k, 0, n)| {
        CombsStepsFrom(k, n, t + 1);
      }
    }
  }

  /** The index-advance loop of engine.c:451-472, in place on the apparent indices.
      It moves to Next and sets the index to increment back to the last position, or
      leaves the indices alone and reports -1 when every combination has been visited. */
  method AdvanceIndices(indices: array<int>, n: int) returns (lastIndex: int)
    modifies indices
    ensures Next(old(indices[..]), n).None? ==> lastIndex == -1 && indices[..] == old(indices[..])
    ensures Next(old(indices[..]), n).Some? ==>
      lastIndex == indices.Length - 1 && indices[..] == Next(old(indices[..]), n).value
  {
    ghost var start := indices[..];
    lastIndex := indices.Length - 1;
    while lastIndex != -1
      invariant -1 <= lastIndex < indices.Length
      invariant indices[..] == start
      invariant Next(start, n) == Advance(start, n, lastIndex)
      decreases lastIndex + 1
    {
      if indices[lastIndex] < n - 1 - (indices.Length - 1 - lastIndex) {
        ghost var pivot := lastIndex;
        indices[lastIndex] := indices[lastIndex] + 1;
        for index := lastIndex + 1 to indices.Length
          invariant forall i :: 0 <= i < indices.Length ==>
            indices[i] == if i < index then Bump(start, pivot)[i] else start[i]
        {
          indices[index] := indices[lastIndex] + (index - lastIndex);
        }
        assert indices[..] == Bump(start, pivot);
        lastIndex := indices.Length - 1;
        return;
      }
      lastIndex := lastIndex - 1;
    }
  }
}
