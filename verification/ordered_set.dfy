/**
 * A JavaScript `Set` of strings, which remembers insertion order and is iterated (and spread
 * with `[...set]`) in that order, modelled as a sequence without duplicates.
 */
module InsertionSet {

  predicate NoDup<T(==)>(s: seq<T>) {
    forall i, j :: 0 <= i < j < |s| ==> s[i] != s[j]
  }

  /** `set.add(x)`: a value already present keeps its place; a new one goes to the end. */
  function Add<T(==)>(s: seq<T>, x: T): (r: seq<T>)
    ensures NoDup(s) ==> NoDup(r)
    ensures x in r && |s| <= |r| <= |s| + 1 && r[..|s|] == s
  {
    if x in s then s else s + [x]
  }

  /** `for (const x of xs) set.add(x)` */
  function AddAll<T(==)>(s: seq<T>, xs: seq<T>): seq<T>
    decreases |xs|
  {
    if xs == [] then s else AddAll(Add(s, xs[0]), xs[1..])
  }

  lemma AddAllCons<T>(s: seq<T>, x: T, xs: seq<T>)
    ensures AddAll(s, [x] + xs) == AddAll(Add(s, x), xs)
  {
    assert ([x] + xs)[1..] == xs;
  }

  /** `[...new Set(xs)]` */
  function Dedup<T(==)>(xs: seq<T>): seq<T> {
    AddAll([], xs)
  }

  /** The position of the first occurrence of `x` in `xs`. */
  function FirstIndex<T(==)>(xs: seq<T>, x: T): (i: nat)
    requires x in xs
    ensures i < |xs| && xs[i] == x && forall k :: 0 <= k < i ==> xs[k] != x
  {
    if xs[0] == x then 0
    else
      var k := FirstIndex(xs[1..], x);
      assert xs[..k + 1] == [xs[0]] + xs[1..][..k];
      k + 1
  }

  lemma FirstIndexUnique<T>(xs: seq<T>, x: T, i: nat)
    requires i < |xs| && xs[i] == x && x !in xs[..i]
    ensures FirstIndex(xs, x) == i
  {
    var k := FirstIndex(xs, x);
  }

  lemma FirstIndexInPrefix<T>(a: seq<T>, b: seq<T>, y: T)
    requires y in a
    ensures FirstIndex(a + b, y) == FirstIndex(a, y)
  {
    var k := FirstIndex(a, y);
    assert (a + b)[..k] == a[..k];
    FirstIndexUnique(a + b, y, k);
  }

  lemma {:induction false} AddAllSnoc<T>(s: seq<T>, xs: seq<T>, x: T)
    ensures AddAll(s, xs + [x]) == Add(AddAll(s, xs), x)
    decreases |xs|
  {
    if xs == [] {
      assert AddAll(Add(s, x), []) == Add(s, x);
    } else {
      assert (xs + [x])[1..] == xs[1..] + [x];
      AddAllSnoc(Add(s, xs[0]), xs[1..], x);
    }
  }

  /** Adding two lists in a row is adding their concatenation: the three scans of one text and the scans of successive scripts compose. */
  lemma {:induction false} AddAllAppend<T>(s: seq<T>, xs: seq<T>, ys: seq<T>)
    ensures AddAll(s, xs + ys) == AddAll(AddAll(s, xs), ys)
    decreases |xs|
  {
    if xs == [] {
      assert xs + ys == ys;
    } else {
      assert (xs + ys)[1..] == xs[1..] + ys;
      AddAllAppend(Add(s, xs[0]), xs[1..], ys);
    }
  }

  /** Adding to a set never loses or reorders what was there, never duplicates, and holds exactly the old and the added values. */
  lemma AddAllFacts<T>(s: seq<T>, xs: seq<T>)
    requires NoDup(s)
    ensures NoDup(AddAll(s, xs))
    ensures |s| <= |AddAll(s, xs)| && AddAll(s, xs)[..|s|] == s
    ensures forall y :: y in AddAll(s, xs) <==> y in s || y in xs
  {
    AddAllNoDup(s, xs);
    AddAllKeepsPrefix(s, xs);
    AddAllMembers(s, xs);
  }

  lemma {:induction false} AddAllNoDup<T>(s: seq<T>, xs: seq<T>)
    requires NoDup(s)
    ensures NoDup(AddAll(s, xs))
    decreases |xs|
  {
    if xs != [] {
      AddAllNoDup(Add(s, xs[0]), xs[1..]);
    }
  }

  lemma {:induction false} AddAllKeepsPrefix<T>(s: seq<T>, xs: seq<T>)
    ensures |s| <= |AddAll(s, xs)| && AddAll(s, xs)[..|s|] == s
    decreases |xs|
  {
    if xs != [] {
      var s' := Add(s, xs[0]);
      AddAllKeepsPrefix(s', xs[1..]);
      assert AddAll(s, xs)[..|s'|][..|s|] == s;
    }
  }

  lemma {:induction false} AddAllMembers<T>(s: seq<T>, xs: seq<T>)
    ensures forall y :: y in AddAll(s, xs) <==> y in s || y in xs
    decreases |xs|
  {
    if xs != [] {
      AddAllMembers(Add(s, xs[0]), xs[1..]);
      assert xs == [xs[0]] + xs[1..];
    }
  }

  /** An already duplicate-free list is its own set: `new Set(list)` for a list that came out of a set. */
  lemma {:induction false} AddAllToEmpty<T>(xs: seq<T>)
    requires NoDup(xs)
    ensures Dedup(xs) == xs
    decreases |xs|
  {
    if xs != [] {
      var init := xs[..|xs| - 1];
      assert xs == init + [xs[|xs| - 1]];
      AddAllToEmpty(init);
      AddAllSnoc([], init, xs[|xs| - 1]);
    }
  }

  /** Every value of `r` occurs in `xs`, and `r` lists them in the order of their first occurrence there. */
  predicate InFirstOccurrenceOrder<T(==)>(r: seq<T>, xs: seq<T>) {
    (forall k :: 0 <= k < |r| ==> r[k] in xs) &&
    forall i, j :: 0 <= i < j < |r| ==> FirstIndex(xs, r[i]) < FirstIndex(xs, r[j])
  }

  /**
   * `[...new Set(xs)]` holds each value of `xs` exactly once, and lists them in the order of
   * their first occurrence in `xs`.
   */
  lemma DedupFacts<T>(xs: seq<T>)
    ensures NoDup(Dedup(xs))
    ensures forall y :: y in Dedup(xs) <==> y in xs
    ensures InFirstOccurrenceOrder(Dedup(xs), xs)
  {
    AddAllNoDup([], xs);
    AddAllMembers([], xs);
    DedupOrder(xs);
  }

  lemma {:induction false} DedupOrder<T>(xs: seq<T>)
    ensures InFirstOccurrenceOrder(Dedup(xs), xs)
    decreases |xs|
  {
    if xs != [] {
      AddAllMembers([], xs[..|xs| - 1]);
      var init, x := xs[..|xs| - 1], xs[|xs| - 1];
      assert xs == init + [x];
      AddAllSnoc([], init, x);
      DedupOrder(init);
      OrderAfterAdd(Dedup(init), init, x);
    }
  }

  lemma OrderAfterAdd<T>(d: seq<T>, init: seq<T>, x: T)
    requires InFirstOccurrenceOrder(d, init)
    requires x in d <==> x in init
    ensures InFirstOccurrenceOrder(Add(d, x), init + [x])
  {
    var xs := init + [x];
    var r := Add(d, x);
    forall y | y in init ensures FirstIndex(xs, y) == FirstIndex(init, y) {
      FirstIndexInPrefix(init, [x], y);
    }
    if x !in d {
      FirstIndexUnique(xs, x, |init|);
      assert r == d + [x];
      forall i, j | 0 <= i < j < |r| ensures FirstIndex(xs, r[i]) < FirstIndex(xs, r[j]) {
        assert r[i] == d[i] && r[i] in init;
        if j < |d| {
          assert r[j] == d[j] && r[j] in init;
        }
      }
    }
  }

  /** The loop `for (const x of xs) set.add(x)`, run on a set held as a sequence. */
  method AddEach<T(==)>(s: seq<T>, xs: seq<T>) returns (r: seq<T>)
    ensures r == AddAll(s, xs)
  {
    r := s;
    var i := 0;
    while i < |xs|
      invariant i <= |xs|
      invariant AddAll(r, xs[i..]) == AddAll(s, xs)
    {
      assert xs[i..][1..] == xs[i + 1..];
      r := Add(r, xs[i]);
      i := i + 1;
    }
  }
}
