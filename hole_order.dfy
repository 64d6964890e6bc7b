/**
 Hole ordering of excellon2mill.py (lines 61-62): the hole list is sorted in
 place twice with Python's stable `list.sort`, first by `y`, then by `x`, so the
 result is ordered by x and, among equal x, by y.

 The in-place sort is an insertion sort on an array; its result is specified by
 the functional `Sort`, and `StableSortIsUnique` shows that every stable sort
 (Python's included) produces that same sequence.
 */
module HoleOrder {
  import opened Excellon

  datatype SortKey = ByX | ByY

  /** `lambda h: h['x']` and `lambda h: h['y']`. */
  function Key(k: SortKey, h: Hole): real
  {
    match k
    case ByX => h.x
    case ByY => h.y
  }

  /** Non-decreasing by key `k`. */
  ghost predicate Sorted(k: SortKey, s: seq<Hole>)
  {
    forall i, j :: 0 <= i < j < |s| ==> Key(k, s[i]) <= Key(k, s[j])
  }

  /** The elements of `s` whose key `k` equals `v`, in their order in `s`. */
  function WithKey(k: SortKey, v: real, s: seq<Hole>): seq<Hole>
  {
    if s == [] then []
    else WithKey(k, v, s[..|s| - 1]) + (if Key(k, s[|s| - 1]) == v then [s[|s| - 1]] else [])
  }

  /** A sort by `k` is stable when the holes of each key value keep their relative order. */
  ghost predicate StableFor(k: SortKey, input: seq<Hole>, output: seq<Hole>)
  {
    forall v :: WithKey(k, v, output) == WithKey(k, v, input)
  }

  /**
   Where `h` goes when it is inserted into `s` from the back: after the last
   element whose key is not greater than its own.
   */
  function InsertPos(k: SortKey, s: seq<Hole>, h: Hole): (p: nat)
    ensures p <= |s|
    ensures forall i :: p <= i < |s| ==> Key(k, s[i]) > Key(k, h)
    ensures p > 0 ==> Key(k, s[p - 1]) <= Key(k, h)
  {
    if s == [] || Key(k, s[|s| - 1]) <= Key(k, h) then |s|
    else InsertPos(k, s[..|s| - 1], h)
  }

  function Insert(k: SortKey, s: seq<Hole>, h: Hole): seq<Hole>
  {
    var p := InsertPos(k, s, h);
    s[..p] + [h] + s[p..]
  }

  /** Insertion sort by key `k`, the specification of `SortInPlace`. */
  function Sort(k: SortKey, s: seq<Hole>): (r: seq<Hole>)
    ensures |r| == |s|
  {
    if s == [] then [] else Insert(k, Sort(k, s[..|s| - 1]), s[|s| - 1])
  }

  lemma InsertPosSkip(k: SortKey, s: seq<Hole>, h: Hole, j: nat)
    requires 0 < j <= |s|
    requires Key(k, s[j - 1]) > Key(k, h)
    ensures InsertPos(k, s[..j], h) == InsertPos(k, s[..j - 1], h)
  {
    assert s[..j][..j - 1] == s[..j - 1];
  }

  lemma InsertPosStop(k: SortKey, s: seq<Hole>, h: Hole, j: nat)
    requires j <= |s|
    requires j == 0 || Key(k, s[j - 1]) <= Key(k, h)
    ensures InsertPos(k, s[..j], h) == j
  {
  }

  /** One shift of the insertion loop moves the gap left by one place. */
  lemma ShiftedRight(prev: seq<Hole>, cur: seq<Hole>, sorted: seq<Hole>, j: nat, i: nat)
    requires 0 < j <= i == |sorted| < |prev|
    requires cur == prev[j := prev[j - 1]]
    requires prev[..j] == sorted[..j] && prev[j + 1..i + 1] == sorted[j..i]
    ensures cur[..j - 1] == sorted[..j - 1]
    ensures cur[j..i + 1] == sorted[j - 1..i]
    ensures cur[i + 1..] == prev[i + 1..]
  {
    assert cur[j..i + 1] == [sorted[j - 1]] + prev[j + 1..i + 1];
  }

  /** The array contents once the gap has been filled at the insertion point. */
  lemma InsertedAt(k: SortKey, sorted: seq<Hole>, h: Hole, cur: seq<Hole>, j: nat)
    requires j <= |sorted| < |cur|
    requires InsertPos(k, sorted, h) == j
    requires cur[..j] == sorted[..j] && cur[j] == h && cur[j + 1..|sorted| + 1] == sorted[j..]
    ensures cur[..|sorted| + 1] == Insert(k, sorted, h)
  {
    assert cur[..|sorted| + 1] == cur[..j] + [cur[j]] + cur[j + 1..|sorted| + 1];
  }

  /** Sorting one more element of the input is one more insertion. */
  lemma SortPrefixStep(k: SortKey, s: seq<Hole>, i: nat)
    requires i < |s|
    ensures Sort(k, s[..i + 1]) == Insert(k, Sort(k, s[..i]), s[i])
  {
    assert s[..i + 1][..i] == s[..i];
  }

  // ---------------------------------------------------------------------------
  // The in-place sort

  /**
   One round of the insertion sort: with `a[..i]` already in order, shift the
   larger elements right and drop `a[i]` into the gap.
   */
  method InsertInPlace(a: array<Hole>, k: SortKey, i: nat)
    requires i < a.Length
    modifies a
    ensures a[..i + 1] == Insert(k, old(a[..i]), old(a[i]))
    ensures a[i + 1..] == old(a[i + 1..])
  {
    ghost var sorted := a[..i];
    var h := a[i];
    var j := i;
    while j > 0 && Key(k, a[j - 1]) > Key(k, h)
      invariant 0 <= j <= i
      invariant a[..j] == sorted[..j]
      invariant a[j + 1..i + 1] == sorted[j..i]
      invariant a[i + 1..] == old(a[i + 1..])
      invariant InsertPos(k, sorted, h) == InsertPos(k, sorted[..j], h)
    {
      InsertPosSkip(k, sorted, h, j);
      ghost var prev := a[..];
      a[j] := a[j - 1];
      ShiftedRight(prev, a[..], sorted, j, i);
      j := j - 1;
    }
    a[j] := h;
    InsertPosStop(k, sorted, h, j);
    InsertedAt(k, sorted, h, a[..], j);
  }

  /** `holes.sort(key=...)` on the hole array. */
  method SortInPlace(a: array<Hole>, k: SortKey)
    modifies a
    ensures a[..] == Sort(k, old(a[..]))
    ensures Sorted(k, a[..]) && multiset(a[..]) == multiset(old(a[..])) && StableFor(k, old(a[..]), a[..])
  {
    ghost var input := a[..];
    var i := 0;
    while i < a.Length
      invariant 0 <= i <= a.Length
      invariant a[..i] == Sort(k, input[..i])
      invariant a[i..] == input[i..]
    {
      assert a[i] == input[i] by {
        assert a[i..][0] == input[i..][0];
      }
      SortPrefixStep(k, input, i);
      InsertInPlace(a, k, i);
      assert a[i + 1..] == input[i + 1..];
      i := i + 1;
    }
    assert a[..] == Sort(k, input) by {
      assert a[..] == a[..a.Length];
      assert input == input[..a.Length];
    }
    SortGuarantees(k, input);
  }

  /** Lines 61-62: sort by y, then by x. */
  method OrderHoles(a: array<Hole>)
    modifies a
    ensures a[..] == Sort(ByX, Sort(ByY, old(a[..])))
    ensures multiset(a[..]) == multiset(old(a[..])) && Sorted(ByX, a[..]) && XThenY(a[..])
  {
    ghost var input := a[..];
    SortInPlace(a, ByY);
    SortInPlace(a, ByX);
    TwoPassOrder(input);
  }

  // ---------------------------------------------------------------------------
  // What the sort promises

  /** Everything `list.sort` promises, for the insertion sort. */
  lemma SortGuarantees(k: SortKey, s: seq<Hole>)
    ensures Sorted(k, Sort(k, s)) && multiset(Sort(k, s)) == multiset(s) && StableFor(k, s, Sort(k, s))
  {
    SortSorts(k, s);
    SortPermutes(k, s);
    SortIsStable(k, s);
  }

  lemma InsertPermutes(k: SortKey, s: seq<Hole>, h: Hole)
    ensures multiset(Insert(k, s, h)) == multiset(s) + multiset{h}
  {
    var p := InsertPos(k, s, h);
    assert s == s[..p] + s[p..];
  }

  /** The sort only rearranges the holes. */
  lemma {:induction false} SortPermutes(k: SortKey, s: seq<Hole>)
    ensures multiset(Sort(k, s)) == multiset(s)
  {
    if s != [] {
      var n := |s| - 1;
      var t := Sort(k, s[..n]);
      assert multiset(t) == multiset(s[..n]) by {
        SortPermutes(k, s[..n]);
      }
      assert multiset(Sort(k, s)) == multiset(t) + multiset{s[n]} by {
        InsertPermutes(k, t, s[n]);
      }
      assert multiset(s) == multiset(s[..n]) + multiset{s[n]} by {
        assert s == s[..n] + [s[n]];
      }
    }
  }

  lemma InsertKeepsSorted(k: SortKey, s: seq<Hole>, h: Hole)
    requires Sorted(k, s)
    ensures Sorted(k, Insert(k, s, h))
  {
    var p := InsertPos(k, s, h);
    var r := Insert(k, s, h);
    forall i, j | 0 <= i < j < |r|
      ensures Key(k, r[i]) <= Key(k, r[j])
    {
      if i < p && j == p {
        assert Key(k, s[i]) <= Key(k, s[p - 1]);
      }
    }
  }

  /** The sort leaves the holes in non-decreasing key order. */
  lemma {:induction false} SortSorts(k: SortKey, s: seq<Hole>)
    ensures Sorted(k, Sort(k, s))
  {
    if s != [] {
      var n := |s| - 1;
      SortSorts(k, s[..n]);
      InsertKeepsSorted(k, Sort(k, s[..n]), s[n]);
    }
  }

  /** Unfolding `WithKey` at the last element. */
  lemma WithKeyLast(k: SortKey, v: real, s: seq<Hole>)
    requires s != []
    ensures WithKey(k, v, s) == WithKey(k, v, s[..|s| - 1]) + (if Key(k, s[|s| - 1]) == v then [s[|s| - 1]] else [])
  {
  }

  lemma {:induction false} WithKeyAppend(k: SortKey, v: real, a: seq<Hole>, b: seq<Hole>)
    ensures WithKey(k, v, a + b) == WithKey(k, v, a) + WithKey(k, v, b)
    decreases |b|
  {
    if b == [] {
      assert a + b == a;
    } else {
      var n := |b| - 1;
      assert (a + b)[..|a + b| - 1] == a + b[..n];
      WithKeyAppend(k, v, a, b[..n]);
      WithKeyLast(k, v, a + b);
      WithKeyLast(k, v, b);
    }
  }

  lemma {:induction false} WithKeyNone(k: SortKey, v: real, s: seq<Hole>)
    requires forall i :: 0 <= i < |s| ==> Key(k, s[i]) != v
    ensures WithKey(k, v, s) == []
  {
    if s != [] {
      WithKeyNone(k, v, s[..|s| - 1]);
    }
  }

  lemma {:induction false} WithKeyMembers(k: SortKey, v: real, s: seq<Hole>)
    ensures forall e :: e in WithKey(k, v, s) ==> e in s && Key(k, e) == v
  {
    if s != [] {
      WithKeyMembers(k, v, s[..|s| - 1]);
    }
  }

  lemma {:induction false} WithKeyContains(k: SortKey, s: seq<Hole>, e: Hole)
    requires e in s
    ensures e in WithKey(k, Key(k, e), s)
  {
    var n := |s| - 1;
    if s[n] != e {
      assert e in s[..n] by { assert s == s[..n] + [s[n]]; }
      WithKeyContains(k, s[..n], e);
    }
  }

  lemma WithKeySingle(k: SortKey, v: real, h: Hole)
    ensures WithKey(k, v, [h]) == if Key(k, h) == v then [h] else []
  {
    WithKeyLast(k, v, [h]);
    assert [h][..0] == [];
  }

  /** Placing `h` before holes of greater key only: its own group grows by `h` at the end. */
  lemma SpliceOwnGroup(k: SortKey, front: seq<Hole>, h: Hole, back: seq<Hole>)
    requires forall i :: 0 <= i < |back| ==> Key(k, back[i]) > Key(k, h)
    ensures WithKey(k, Key(k, h), front + [h] + back) == WithKey(k, Key(k, h), front + back) + [h]
  {
    var v := Key(k, h);
    var wf := WithKey(k, v, front);
    assert WithKey(k, v, back) == [] by {
      WithKeyNone(k, v, back);
    }
    assert WithKey(k, v, front + [h]) == wf + [h] by {
      WithKeyAppend(k, v, front, [h]);
      WithKeySingle(k, v, h);
    }
    assert WithKey(k, v, front + [h] + back) == wf + [h] by {
      WithKeyAppend(k, v, front + [h], back);
      assert wf + [h] + [] == wf + [h];
    }
    assert WithKey(k, v, front + back) == wf by {
      WithKeyAppend(k, v, front, back);
      assert wf + [] == wf;
    }
  }

  /** Inserting `h` anywhere leaves the groups of other key values as they were. */
  lemma SpliceOtherGroup(k: SortKey, v: real, front: seq<Hole>, h: Hole, back: seq<Hole>)
    requires Key(k, h) != v
    ensures WithKey(k, v, front + [h] + back) == WithKey(k, v, front + back)
  {
    var wf, wb := WithKey(k, v, front), WithKey(k, v, back);
    assert WithKey(k, v, front + [h]) == wf by {
      WithKeyAppend(k, v, front, [h]);
      WithKeySingle(k, v, h);
      assert wf + [] == wf;
    }
    assert WithKey(k, v, front + [h] + back) == wf + wb by {
      WithKeyAppend(k, v, front + [h], back);
    }
    WithKeyAppend(k, v, front, back);
  }

  lemma InsertStable(k: SortKey, v: real, s: seq<Hole>, h: Hole)
    ensures WithKey(k, v, Insert(k, s, h)) == WithKey(k, v, s) + (if Key(k, h) == v then [h] else [])
  {
    var p := InsertPos(k, s, h);
    var front, back := s[..p], s[p..];
    assert Insert(k, s, h) == front + [h] + back;
    assert front + back == s;
    if Key(k, h) == v {
      SpliceOwnGroup(k, front, h, back);
    } else {
      SpliceOtherGroup(k, v, front, h, back);
    }
  }

  lemma {:induction false} SortStableFor(k: SortKey, v: real, s: seq<Hole>)
    ensures WithKey(k, v, Sort(k, s)) == WithKey(k, v, s)
  {
    if s != [] {
      var n := |s| - 1;
      SortStableFor(k, v, s[..n]);
      InsertStable(k, v, Sort(k, s[..n]), s[n]);
    }
  }

  /** Holes with equal keys keep their relative order. */
  lemma SortIsStable(k: SortKey, s: seq<Hole>)
    ensures StableFor(k, s, Sort(k, s))
  {
    forall v {
      SortStableFor(k, v, s);
    }
  }

  /** Two key-sorted sequences with the same groups end in the same hole. */
  lemma SameGroupsSameLast(k: SortKey, t1: seq<Hole>, t2: seq<Hole>)
    requires t1 != [] && t2 != []
    requires Sorted(k, t1) && Sorted(k, t2)
    requires forall v :: WithKey(k, v, t1) == WithKey(k, v, t2)
    ensures t1[|t1| - 1] == t2[|t2| - 1]
  {
    var n, m := |t1| - 1, |t2| - 1;
    var a, b := t1[n], t2[m];
    var ka, kb := Key(k, a), Key(k, b);
    WithKeyContains(k, t1, a);
    WithKeyMembers(k, ka, t2);
    WithKeyContains(k, t2, b);
    WithKeyMembers(k, kb, t1);
    assert ka == kb;
    WithKeyLast(k, ka, t1);
    WithKeyLast(k, ka, t2);
    var w1, w2 := WithKey(k, ka, t1[..n]), WithKey(k, ka, t2[..m]);
    assert w1 + [a] == w2 + [b];
    assert a == (w1 + [a])[|w1|];
  }

  /** Removing the same last hole from two sequences with the same groups keeps their groups equal. */
  lemma DropLastKeepsGroups(k: SortKey, p1: seq<Hole>, p2: seq<Hole>, a: Hole)
    requires forall v :: WithKey(k, v, p1 + [a]) == WithKey(k, v, p2 + [a])
    ensures forall v :: WithKey(k, v, p1) == WithKey(k, v, p2)
  {
    forall v
      ensures WithKey(k, v, p1) == WithKey(k, v, p2)
    {
      WithKeyAppend(k, v, p1, [a]);
      WithKeyAppend(k, v, p2, [a]);
      WithKeySingle(k, v, a);
      var w1, w2 := WithKey(k, v, p1), WithKey(k, v, p2);
      assert WithKey(k, v, p1 + [a]) == WithKey(k, v, p2 + [a]);
      if Key(k, a) == v {
        assert w1 + [a] == w2 + [a];
        assert |w1| == |w2|;
        assert w1 == (w1 + [a])[..|w1|];
        assert w2 == (w2 + [a])[..|w2|];
      } else {
        assert w1 + [] == w1 && w2 + [] == w2;
      }
    }
  }

  lemma {:induction false} SameGroupsSameSequence(k: SortKey, t1: seq<Hole>, t2: seq<Hole>)
    requires Sorted(k, t1) && Sorted(k, t2)
    requires forall v :: WithKey(k, v, t1) == WithKey(k, v, t2)
    ensures t1 == t2
    decreases |t1| + |t2|
  {
    if t1 == [] || t2 == [] {
      if t1 != [] {
        WithKeyContains(k, t1, t1[0]);
      } else if t2 != [] {
        WithKeyContains(k, t2, t2[0]);
      }
    } else {
      var n, m := |t1| - 1, |t2| - 1;
      SameGroupsSameLast(k, t1, t2);
      assert t1 == t1[..n] + [t1[n]];
      assert t2 == t2[..m] + [t1[n]];
      DropLastKeepsGroups(k, t1[..n], t2[..m], t1[n]);
      SameGroupsSameSequence(k, t1[..n], t2[..m]);
    }
  }

  /**
   Any stable sort by `k` gives the same sequence as `Sort`; in particular
   Python's `list.sort`, which is stable, computes `Sort`.
   */
  lemma StableSortIsUnique(k: SortKey, s: seq<Hole>, t: seq<Hole>)
    requires Sorted(k, t)
    requires StableFor(k, s, t)
    ensures t == Sort(k, s)
  {
    SortSorts(k, s);
    SortIsStable(k, s);
    SameGroupsSameSequence(k, t, Sort(k, s));
  }

  /** Hole `a` comes no later than `b` in order of x, then y. */
  predicate XYOrdered(a: Hole, b: Hole)
  {
    a.x < b.x || (a.x == b.x && a.y <= b.y)
  }

  /** Ordered by x, and by y among holes of equal x. */
  ghost predicate XThenY(s: seq<Hole>)
  {
    forall i, j :: 0 <= i < j < |s| ==> XYOrdered(s[i], s[j])
  }

  /** Where each element of an insertion comes from. */
  lemma InsertIndex(k: SortKey, s: seq<Hole>, h: Hole, idx: nat)
    requires idx <= |s|
    ensures var p := InsertPos(k, s, h);
      Insert(k, s, h)[idx] == if idx < p then s[idx] else if idx == p then h else s[idx - 1]
  {
  }

  lemma InsertByXKeepsXThenY(s: seq<Hole>, h: Hole)
    requires XThenY(s)
    requires forall e :: e in s ==> e.y <= h.y
    ensures XThenY(Insert(ByX, s, h))
  {
    var p := InsertPos(ByX, s, h);
    var r := Insert(ByX, s, h);
    forall i, j | 0 <= i < j < |r|
      ensures XYOrdered(r[i], r[j])
    {
      InsertIndex(ByX, s, h, i);
      InsertIndex(ByX, s, h, j);
      if j < p {
        assert r[i] == s[i] && r[j] == s[j];
      } else if p < i {
        assert r[i] == s[i - 1] && r[j] == s[j - 1];
      } else if j == p {
        assert XYOrdered(s[i], s[p - 1]);
        assert s[i] in s;
      } else if i == p {
        assert h.x < s[j - 1].x;
      } else {
        assert XYOrdered(s[i], s[j - 1]);
      }
    }
  }

  /** Sorting a y-ordered list stably by x orders it by x, then y. */
  lemma {:induction false} SortByXOfYOrdered(s: seq<Hole>)
    requires Sorted(ByY, s)
    ensures XThenY(Sort(ByX, s))
  {
    if s != [] {
      var n := |s| - 1;
      SortByXOfYOrdered(s[..n]);
      SortPermutes(ByX, s[..n]);
      forall e | e in Sort(ByX, s[..n])
        ensures e.y <= s[n].y
      {
        assert e in multiset(s[..n]);
        var i :| 0 <= i < n && s[..n][i] == e;
        assert Key(ByY, s[i]) <= Key(ByY, s[n]);
      }
      InsertByXKeepsXThenY(Sort(ByX, s[..n]), s[n]);
    }
  }

  /**
   The two passes of lines 61-62 produce a rearrangement of the holes that is
   ordered by x, with holes of equal x in order of y.
   */
  lemma TwoPassOrder(s: seq<Hole>)
    ensures multiset(Sort(ByX, Sort(ByY, s))) == multiset(s)
    ensures Sorted(ByX, Sort(ByX, Sort(ByY, s)))
    ensures XThenY(Sort(ByX, Sort(ByY, s)))
  {
    SortPermutes(ByY, s);
    SortPermutes(ByX, Sort(ByY, s));
    SortSorts(ByY, s);
    SortSorts(ByX, Sort(ByY, s));
    SortByXOfYOrdered(Sort(ByY, s));
  }

  /** Every hole of a sequence ordered by x and then y comes no earlier than its first. */
  lemma FirstIsLeast(t: seq<Hole>, h: Hole)
    requires XThenY(t) && h in t
    ensures XYOrdered(t[0], h)
  {
    var i :| 0 <= i < |t| && t[i] == h;
    if i > 0 {
      assert XYOrdered(t[0], t[i]);
    }
  }

  lemma DropFirstKeepsXThenY(t: seq<Hole>)
    requires XThenY(t) && |t| > 0
    ensures XThenY(t[1..])
  {
    forall i, j | 0 <= i < j < |t| - 1
      ensures XYOrdered(t[1..][i], t[1..][j])
    {
      assert XYOrdered(t[i + 1], t[j + 1]);
    }
  }

  lemma DropSameFirst(t1: seq<Hole>, t2: seq<Hole>)
    requires |t1| > 0 && |t2| > 0 && t1[0] == t2[0] && multiset(t1) == multiset(t2)
    ensures multiset(t1[1..]) == multiset(t2[1..])
  {
    assert t1 == [t1[0]] + t1[1..];
    assert t2 == [t2[0]] + t2[1..];
    assert multiset(t1[1..]) == multiset(t1) - multiset([t1[0]]);
    assert multiset(t2[1..]) == multiset(t2) - multiset([t2[0]]);
  }

  /**
   Two sequences ordered by x and then y that hold the same holes are the same
   sequence, provided no two different holes share a position.
   */
  lemma {:induction false} XThenYUnique(t1: seq<Hole>, t2: seq<Hole>)
    requires XThenY(t1) && XThenY(t2) && multiset(t1) == multiset(t2)
    requires forall a, b :: a in t1 && b in t1 && a.x == b.x && a.y == b.y ==> a == b
    ensures t1 == t2
    decreases |t1|
  {
    if |t1| == 0 {
      assert |multiset(t2)| == 0;
    } else {
      assert |t2| == |multiset(t2)| == |t1|;
      var a, b := t1[0], t2[0];
      assert b in t1 && a in t2 by {
        assert b in multiset(t2) && a in multiset(t1);
      }
      FirstIsLeast(t1, b);
      FirstIsLeast(t2, a);
      assert a == b;
      DropSameFirst(t1, t2);
      DropFirstKeepsXThenY(t1);
      DropFirstKeepsXThenY(t2);
      assert forall u, v :: u in t1[1..] && v in t1[1..] && u.x == v.x && u.y == v.y ==> u == v by {
        assert forall u :: u in t1[1..] ==> u in t1;
      }
      XThenYUnique(t1[1..], t2[1..]);
      assert t1 == [a] + t1[1..] && t2 == [b] + t2[1..];
    }
  }

  /**
   When no two different holes share a position, the order the holes come in
   does not matter: any arrangement of the same holes sorts to the same sequence.
   */
  lemma OrderIgnoresInputOrder(s1: seq<Hole>, s2: seq<Hole>)
    requires multiset(s1) == multiset(s2)
    requires forall a, b :: a in s1 && b in s1 && a.x == b.x && a.y == b.y ==> a == b
    ensures Sort(ByX, Sort(ByY, s1)) == Sort(ByX, Sort(ByY, s2))
  {
    var t1, t2 := Sort(ByX, Sort(ByY, s1)), Sort(ByX, Sort(ByY, s2));
    TwoPassOrder(s1);
    TwoPassOrder(s2);
    forall a, b | a in t1 && b in t1 && a.x == b.x && a.y == b.y
      ensures a == b
    {
      assert a in multiset(t1) && b in multiset(t1);
      assert a in s1 && b in s1;
    }
    XThenYUnique(t1, t2);
  }

  /**
   Two holes at one position with different sizes keep the order they came in,
   so without the condition above the input order does show through.
   */
  lemma SamePositionKeepsInputOrder()
    ensures var a, b := Hole(0.0, 0.0, 1.0), Hole(0.0, 0.0, 2.0);
      Sort(ByX, Sort(ByY, [a, b])) == [a, b] && Sort(ByX, Sort(ByY, [b, a])) == [b, a]
  {
    var a, b := Hole(0.0, 0.0, 1.0), Hole(0.0, 0.0, 2.0);
    forall k: SortKey, u: Hole, v: Hole | u in [a, b] && v in [a, b]
      ensures Sort(k, [u, v]) == [u, v]
    {
      assert [u, v][..1] == [u];
      assert Sort(k, [u]) == [u] by {
        assert [u][..0] == [];
      }
      assert InsertPos(k, [u], v) == 1;
      assert [u][..1] + [v] + [u][1..] == [u, v];
    }
  }
}
