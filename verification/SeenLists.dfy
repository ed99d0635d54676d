/** Lists of ids in first-seen order, and how batches of new ids extend them. */
module SeenLists {

  /** The list after the first n ids: blanks and ids already listed are skipped. */
  function Extend<T(==)>(list: seq<T>, ids: seq<T>, blank: T, n: nat): seq<T>
    requires n <= |ids|
  {
    if n == 0 then list
    else
      var rest := Extend(list, ids, blank, n - 1);
      if ids[n - 1] == blank || ids[n - 1] in rest then rest else rest + [ids[n - 1]]
  }

  /** Without blanks and repetitions, in first-seen order. */
  function FirstSeen<T(==)>(ids: seq<T>, blank: T): seq<T> {
    Extend([], ids, blank, |ids|)
  }

  predicate Clean<T(==)>(ids: seq<T>, blank: T) {
    blank !in ids && forall i, j :: 0 <= i < j < |ids| ==> ids[i] != ids[j]
  }

  lemma {:induction false} ExtendKeeps<T>(list: seq<T>, ids: seq<T>, blank: T, n: nat, x: T)
    requires n <= |ids|
    ensures x in Extend(list, ids, blank, n) <==> x in list || (x != blank && x in ids[..n])
  {
    if n > 0 {
      ExtendKeeps(list, ids, blank, n - 1, x);
      assert ids[..n] == ids[..n - 1] + [ids[n - 1]];
    }
  }

  lemma {:induction false} ExtendClean<T>(list: seq<T>, ids: seq<T>, blank: T, n: nat)
    requires n <= |ids| && Clean(list, blank)
    ensures Clean(Extend(list, ids, blank, n), blank) && list <= Extend(list, ids, blank, n)
  {
    if n > 0 {
      ExtendClean(list, ids, blank, n - 1);
    }
  }

  lemma {:induction false} CleanExtendsEmpty<T>(ids: seq<T>, blank: T, n: nat)
    requires n <= |ids| && Clean(ids, blank)
    ensures Extend([], ids, blank, n) == ids[..n]
  {
    if n > 0 {
      CleanExtendsEmpty(ids, blank, n - 1);
      assert ids[..n] == ids[..n - 1] + [ids[n - 1]];
    }
  }

  lemma {:induction false} ExtendConcat<T>(list: seq<T>, a: seq<T>, b: seq<T>, blank: T, n: nat)
    requires n <= |b|
    ensures Extend(list, a + b, blank, |a| + n) == Extend(Extend(list, a, blank, |a|), b, blank, n)
  {
    if n == 0 {
      SamePrefix(list, a, a + b, blank, |a|);
    } else {
      ExtendConcat(list, a, b, blank, n - 1);
    }
  }

  lemma {:induction false} SamePrefix<T>(list: seq<T>, a: seq<T>, b: seq<T>, blank: T, n: nat)
    requires n <= |a| && n <= |b| && forall k :: 0 <= k < n ==> a[k] == b[k]
    ensures Extend(list, a, blank, n) == Extend(list, b, blank, n)
  {
    if n > 0 {
      SamePrefix(list, a, b, blank, n - 1);
    }
  }

  /** Cleaning a list before appending makes no difference: the new ids just extend it. */
  lemma {:induction false} FirstSeenAbsorbs<T>(a: seq<T>, b: seq<T>, blank: T)
    ensures FirstSeen(FirstSeen(a, blank) + b, blank) == FirstSeen(a + b, blank)
    ensures FirstSeen(a + b, blank) == Extend(FirstSeen(a, blank), b, blank, |b|)
  {
    var first := FirstSeen(a, blank);
    FirstSeenConcat(a, b, blank);
    FirstSeenConcat(first, b, blank);
    FirstSeenTwice(a, blank);
  }

  lemma {:induction false} FirstSeenConcat<T>(a: seq<T>, b: seq<T>, blank: T)
    ensures FirstSeen(a + b, blank) == Extend(FirstSeen(a, blank), b, blank, |b|)
  {
    assert |a + b| == |a| + |b|;
    ExtendConcat([], a, b, blank, |b|);
  }

  lemma FirstSeenTwice<T>(a: seq<T>, blank: T)
    ensures FirstSeen(FirstSeen(a, blank), blank) == FirstSeen(a, blank)
  {
    var first := FirstSeen(a, blank);
    ExtendClean([], a, blank, |a|);
    CleanExtendsEmpty(first, blank, |first|);
    assert first[..|first|] == first;
  }

  /** The list after n batches. */
  function Extended<T(==)>(start: seq<T>, batches: seq<seq<T>>, blank: T, n: nat): seq<T>
    requires n <= |batches|
  {
    if n == 0 then start
    else Extend(Extended(start, batches, blank, n - 1), batches[n - 1], blank, |batches[n - 1]|)
  }

  lemma {:induction false} ExtendedStep<T>(start: seq<T>, batches: seq<seq<T>>, blank: T, n: nat, ids: seq<T>)
    requires n < |batches| && batches[n] == ids
    ensures Extended(start, batches, blank, n + 1) == Extend(Extended(start, batches, blank, n), ids, blank, |ids|)
  {
  }

  function Joined<T>(batches: seq<seq<T>>, n: nat): seq<T>
    requires n <= |batches|
  {
    if n == 0 then [] else Joined(batches, n - 1) + batches[n - 1]
  }

  /** The list is the first-seen order of everything so far. */
  lemma {:induction false} ExtendedIsHistory<T>(start: seq<T>, batches: seq<seq<T>>, blank: T, n: nat)
    requires n <= |batches|
    ensures Extended(start, batches, blank, n) == Extend(start, Joined(batches, n), blank, |Joined(batches, n)|)
  {
    if n > 0 {
      ExtendedIsHistory(start, batches, blank, n - 1);
      ExtendConcat(start, Joined(batches, n - 1), batches[n - 1], blank, |batches[n - 1]|);
    }
  }

  /** It only grows at its end. */
  lemma {:induction false} ExtendedGrows<T>(start: seq<T>, batches: seq<seq<T>>, blank: T, m: nat, n: nat)
    requires m <= n <= |batches| && Clean(start, blank)
    ensures Extended(start, batches, blank, m) <= Extended(start, batches, blank, n)
    ensures Clean(Extended(start, batches, blank, n), blank)
    decreases n
  {
    if n > 0 {
      ExtendedGrows(start, batches, blank, if m < n then m else 0, n - 1);
      ExtendClean(Extended(start, batches, blank, n - 1), batches[n - 1], blank, |batches[n - 1]|);
    }
  }

  /** If a batch only brings ids that are not in the list yet, no later batch brings one of them again. */
  lemma {:induction false} NewBatchesDisjoint<T>(start: seq<T>, batches: seq<seq<T>>, blank: T, i: nat, j: nat, x: T)
    requires i < |batches| && j < |batches| && Clean(start, blank) && x != blank
    requires x in batches[i] && x !in Extended(start, batches, blank, j)
    ensures j <= i
  {
    if i < j {
      ExtendKeeps(Extended(start, batches, blank, i), batches[i], blank, |batches[i]|, x);
      ExtendedGrows(start, batches, blank, i + 1, j);
    }
  }
}
