/** The array behind the timer queue, as values: the binary min-heap that TimerQueue.cpp keeps in
    `timerList_`, its sift-up and sift-down, removal at any index, and the drain of due timers.

    Cancelling a timer moves the last timer into the hole and only sifts it down, so heap order is
    not an invariant of the queue. The lemmas below say what holds of every queue, what holds of a
    heap-ordered one, and exactly when a cancellation breaks the order. */
module TimerOrder {

  /** A queued timer. `interval == 0` means one-shot. */
  datatype Timer = Timer(expiration: int, interval: nat, id: int) {
    predicate Repeat() { interval != 0 }

    predicate Due(now: int) { expiration <= now }

    /** The timer that replaces a repeating one when it fires. */
    function Next(now: int): Timer { Timer(now + interval, interval, id) }
  }

  // ---------- heap order ----------

  function Parent(i: nat): (p: nat)
    requires 0 < i
    ensures p < i
  {
    (i - 1) / 2
  }

  ghost predicate EdgeOk(s: seq<Timer>, i: nat)
    requires 0 < i < |s|
  {
    s[Parent(i)].expiration <= s[i].expiration
  }

  ghost predicate HeapOrdered(s: seq<Timer>) {
    forall i :: 0 < i < |s| ==> EdgeOk(s, i)
  }

  /** Order may be broken between `k` and its children only, and the parent of `k` is not later
      than those children. */
  ghost predicate OrderedExceptBelow(s: seq<Timer>, k: nat) {
    && (forall i :: 0 < i < |s| && Parent(i) != k ==> EdgeOk(s, i))
    && (forall i :: 0 < k && 0 < i < |s| && Parent(i) == k ==> s[Parent(k)].expiration <= s[i].expiration)
  }

  /** Order may be broken between `k` and its parent only, and that parent is not later than the
      children of `k`. */
  ghost predicate OrderedExceptAbove(s: seq<Timer>, k: nat) {
    && (forall i :: 0 < i < |s| && i != k ==> EdgeOk(s, i))
    && (forall i :: 0 < k < |s| && 0 < i < |s| && Parent(i) == k ==> s[Parent(k)].expiration <= s[i].expiration)
  }

  ghost predicate InSubtree(root: nat, i: nat) {
    i == root || (root < i && InSubtree(root, Parent(i)))
  }

  lemma {:induction false} ChildSubtree(root: nat, child: nat, i: nat)
    requires 0 < child && Parent(child) == root && InSubtree(child, i)
    ensures InSubtree(root, i)
  {
    if i != child {
      ChildSubtree(root, child, Parent(i));
    }
  }

  /** Along an unbroken path to the root nothing is earlier than the root. */
  lemma {:induction false} RootIsEarliest(s: seq<Timer>, i: nat)
    requires i < |s| && forall j :: 0 < j <= i ==> EdgeOk(s, j)
    ensures s[0].expiration <= s[i].expiration
  {
    if i != 0 {
      RootIsEarliest(s, Parent(i));
      assert EdgeOk(s, i);
    }
  }

  // ---------- sifting ----------

  function Swap(s: seq<Timer>, i: nat, j: nat): (r: seq<Timer>)
    requires i < |s| && j < |s|
    ensures |r| == |s| && multiset(r) == multiset(s)
  {
    s[i := s[j]][j := s[i]]
  }

  /** The earliest of `k` and its children, preferring `k`, then the left child. */
  function Candidate(s: seq<Timer>, k: nat): (c: nat)
    requires k < |s|
    ensures c < |s| && (c == k || (0 < c && Parent(c) == k))
  {
    var left := 2 * k + 1;
    var right := 2 * k + 2;
    var c := if left < |s| && s[left].expiration < s[k].expiration then left else k;
    if right < |s| && s[right].expiration < s[c].expiration then right else c
  }

  function SiftDown(s: seq<Timer>, k: nat): (r: seq<Timer>)
    requires k < |s|
    ensures |r| == |s| && multiset(r) == multiset(s)
    decreases |s| - k
  {
    var c := Candidate(s, k);
    if c == k then s else SiftDown(Swap(s, k, c), c)
  }

  /** Returns the sifted array and whether the timer that started at `k` reached the root. */
  function SiftUp(s: seq<Timer>, k: nat): (r: (seq<Timer>, bool))
    requires k < |s|
    ensures |r.0| == |s| && multiset(r.0) == multiset(s)
    decreases k
  {
    if k == 0 then (s, true)
    else if s[k].expiration < s[Parent(k)].expiration then SiftUp(Swap(s, k, Parent(k)), Parent(k))
    else (s, false)
  }

  /** If neither child of `k` is earlier, nothing is out of order... */
  lemma NoCandidate(s: seq<Timer>, k: nat)
    requires k < |s| && OrderedExceptBelow(s, k) && Candidate(s, k) == k
    ensures HeapOrdered(s)
  {
    forall i | 0 < i < |s| ensures EdgeOk(s, i) {
      if Parent(i) == k { assert i == 2 * k + 1 || i == 2 * k + 2; }
    }
  }

  /** ... and otherwise a swap with the earlier child moves the break down to that child. */
  lemma SwapMovesBreakDown(s: seq<Timer>, k: nat, c: nat)
    requires k < |s| && OrderedExceptBelow(s, k) && c == Candidate(s, k) != k
    ensures OrderedExceptBelow(Swap(s, k, c), c)
  {
    var t := Swap(s, k, c);
    forall i | 0 < i < |t| && Parent(i) != c ensures EdgeOk(t, i) {
      if Parent(i) == k {
        assert i == 2 * k + 1 || i == 2 * k + 2;
      } else {
        assert EdgeOk(s, i);
      }
    }
    forall i | 0 < i < |t| && Parent(i) == c ensures t[Parent(c)].expiration <= t[i].expiration {
      assert EdgeOk(s, i);
    }
  }

  /** Sifting down repairs the one place where order may be broken. */
  lemma {:induction false} SiftDownRestoresOrder(s: seq<Timer>, k: nat)
    requires k < |s| && OrderedExceptBelow(s, k)
    ensures HeapOrdered(SiftDown(s, k))
    decreases |s| - k
  {
    var c := Candidate(s, k);
    if c == k {
      NoCandidate(s, k);
    } else {
      SwapMovesBreakDown(s, k, c);
      SiftDownRestoresOrder(Swap(s, k, c), c);
    }
  }

  /** Sifting down from `k` moves nothing outside the subtree of `k`. */
  lemma {:induction false} SiftDownStaysInSubtree(s: seq<Timer>, k: nat, i: nat)
    requires k < |s| && i < |s| && !InSubtree(k, i)
    ensures SiftDown(s, k)[i] == s[i]
    decreases |s| - k
  {
    var c := Candidate(s, k);
    if c != k {
      if InSubtree(c, i) { ChildSubtree(k, c, i); }
      SiftDownStaysInSubtree(Swap(s, k, c), c, i);
    }
  }

  /** Sifting up repairs the one place where order may be broken, and reaches the root exactly when
      the sifted timer is strictly earlier than the root. */
  lemma {:induction false} SiftUpRestoresOrder(s: seq<Timer>, k: nat)
    requires k < |s| && OrderedExceptAbove(s, k)
    ensures HeapOrdered(SiftUp(s, k).0)
    ensures SiftUp(s, k).1 <==> k == 0 || s[k].expiration < s[0].expiration
    decreases k
  {
    if k != 0 {
      var p := Parent(k);
      RootIsEarliest(s, p);
      if s[k].expiration < s[p].expiration {
        var t := Swap(s, k, p);
        forall i | 0 < i < |t| && i != p ensures EdgeOk(t, i) {
          if i != k { assert EdgeOk(s, i); }
        }
        forall i | 0 < p && 0 < i < |t| && Parent(i) == p ensures t[Parent(p)].expiration <= t[i].expiration {
          assert EdgeOk(s, p);
          if i != k { assert EdgeOk(s, i); }
        }
        SiftUpRestoresOrder(t, p);
      } else {
        assert EdgeOk(s, k);
      }
    }
  }

  /** On any array, ordered or not: the sifted timer ends at the root, or the root is untouched. */
  lemma {:induction false} SiftUpRoot(s: seq<Timer>, k: nat)
    requires k < |s|
    ensures SiftUp(s, k).1 ==> SiftUp(s, k).0[0] == s[k]
    ensures !SiftUp(s, k).1 ==> 0 < k && SiftUp(s, k).0[0] == s[0]
    decreases k
  {
    if k != 0 && s[k].expiration < s[Parent(k)].expiration {
      SiftUpRoot(Swap(s, k, Parent(k)), Parent(k));
    }
  }

  // ---------- insertion and removal ----------

  function Insert(s: seq<Timer>, t: Timer): (r: (seq<Timer>, bool))
    ensures |r.0| == |s| + 1
  {
    SiftUp(s + [t], |s|)
  }

  /** Removal at index `k`: the last timer fills the hole and is sifted down. */
  function RemoveAt(s: seq<Timer>, k: nat): (r: seq<Timer>)
    requires k < |s|
    ensures |r| == |s| - 1
  {
    var n := |s| - 1;
    if k == n then s[..n] else SiftDown(s[..n][k := s[n]], k)
  }

  /** Insertion adds exactly the new timer, keeps heap order, and reports true exactly when the
      queue was empty or the new timer is strictly earlier than every queued one. */
  lemma {:induction false} InsertKeepsOrder(s: seq<Timer>, t: Timer)
    requires HeapOrdered(s)
    ensures HeapOrdered(Insert(s, t).0)
    ensures Insert(s, t).1 <==> forall u :: u in s ==> t.expiration < u.expiration
    ensures multiset(Insert(s, t).0) == multiset(s) + multiset{t}
  {
    var e := s + [t];
    forall i | 0 < i < |e| && i != |s| ensures EdgeOk(e, i) {
      assert EdgeOk(s, i);
    }
    SiftUpRestoresOrder(e, |s|);
    forall i | 0 <= i < |s| ensures s[0].expiration <= s[i].expiration {
      RootIsEarliest(s, i);
    }
    assert |s| > 0 ==> s[0] in s;
  }

  /** Removal takes out exactly the timer at `k`. */
  lemma RemoveAtContents(s: seq<Timer>, k: nat)
    requires k < |s|
    ensures multiset(RemoveAt(s, k)) == multiset(s) - multiset{s[k]}
  {
    var n := |s| - 1;
    assert s == s[..n] + [s[n]];
  }

  /** The array just before the moved timer is sifted: only edges at `k` may be broken. */
  lemma HoleFilled(s: seq<Timer>, k: nat, i: nat)
    requires HeapOrdered(s) && k < |s| - 1 && 0 < i < |s| - 1
    ensures var t := s[..|s| - 1][k := s[|s| - 1]];
            && (i != k && Parent(i) != k ==> EdgeOk(t, i))
            && (Parent(i) == k && 0 < k ==> t[Parent(k)].expiration <= t[i].expiration)
  {
    assert EdgeOk(s, i);
    if 0 < k { assert EdgeOk(s, k); }
  }

  lemma RemoveKeepsOrder(s: seq<Timer>, k: nat)
    requires k < |s| && HeapOrdered(s)
    requires k == 0 || k == |s| - 1 || s[Parent(k)].expiration <= s[|s| - 1].expiration
    ensures HeapOrdered(RemoveAt(s, k))
  {
    var n := |s| - 1;
    if k == n {
      InitIsOrdered(s);
      SameOrder(s[..n], RemoveAt(s, k));
    } else {
      FilledIsOrderedExceptBelow(s, k);
      SiftDownRestoresOrder(s[..n][k := s[n]], k);
      SameOrder(SiftDown(s[..n][k := s[n]], k), RemoveAt(s, k));
    }
  }

  lemma SameOrder(s: seq<Timer>, t: seq<Timer>)
    requires s == t && HeapOrdered(s)
    ensures HeapOrdered(t)
  {
  }

  lemma InitIsOrdered(s: seq<Timer>)
    requires s != [] && HeapOrdered(s)
    ensures HeapOrdered(s[..|s| - 1])
  {
    var t := s[..|s| - 1];
    forall i | 0 < i < |t| ensures EdgeOk(t, i) { assert EdgeOk(s, i); }
  }

  lemma FilledIsOrderedExceptBelow(s: seq<Timer>, k: nat)
    requires HeapOrdered(s) && k < |s| - 1
    requires k == 0 || s[Parent(k)].expiration <= s[|s| - 1].expiration
    ensures OrderedExceptBelow(s[..|s| - 1][k := s[|s| - 1]], k)
  {
    var t := s[..|s| - 1][k := s[|s| - 1]];
    forall i | 0 < i < |t|
      ensures Parent(i) != k ==> EdgeOk(t, i)
      ensures 0 < k && Parent(i) == k ==> t[Parent(k)].expiration <= t[i].expiration
    {
      HoleFilled(s, k, i);
    }
  }

  lemma SiftDownStays(s: seq<Timer>, k: nat)
    requires k < |s| && forall i :: 0 < i < |s| && Parent(i) == k ==> EdgeOk(s, i)
    ensures SiftDown(s, k) == s
  {
    assert 2 * k + 1 < |s| ==> EdgeOk(s, 2 * k + 1);
    assert 2 * k + 2 < |s| ==> EdgeOk(s, 2 * k + 2);
  }

  /** A moved timer that is earlier than the parent of the hole stays in the hole... */
  lemma FilledStays(s: seq<Timer>, k: nat, t: seq<Timer>)
    requires 0 < k < |s| - 1 && HeapOrdered(s) && t == s[..|s| - 1][k := s[|s| - 1]]
    requires s[|s| - 1].expiration < s[Parent(k)].expiration
    ensures forall i :: 0 < i < |t| && i != k ==> EdgeOk(t, i)
    ensures RemoveAt(s, k) == t
  {
    forall i | 0 < i < |t| && i != k ensures EdgeOk(t, i) {
      HoleFilled(s, k, i);
    }
    SiftDownStays(t, k);
  }

  /** ... and leaves that one edge out of order. */
  lemma RemoveBreaksOneEdge(s: seq<Timer>, k: nat)
    requires 0 < k < |s| - 1 && HeapOrdered(s)
    requires s[|s| - 1].expiration < s[Parent(k)].expiration
    ensures forall i :: 0 < i < |s| - 1 ==> (EdgeOk(RemoveAt(s, k), i) <==> i != k)
  {
    FilledStays(s, k, s[..|s| - 1][k := s[|s| - 1]]);
  }

  /** Cancellation in a heap-ordered queue leaves it heap-ordered exactly when the hole is the root,
      the cancelled timer was the last entry, or the moved timer is not earlier than the parent of
      the hole; otherwise exactly the edge above the hole is out of order. */
  lemma RemoveAtOrder(s: seq<Timer>, k: nat)
    requires k < |s| && HeapOrdered(s)
    ensures HeapOrdered(RemoveAt(s, k)) <==>
            k == 0 || k == |s| - 1 || s[Parent(k)].expiration <= s[|s| - 1].expiration
    ensures !HeapOrdered(RemoveAt(s, k)) ==>
              forall i :: 0 < i < |s| - 1 ==> (EdgeOk(RemoveAt(s, k), i) <==> i != k)
  {
    if k == 0 || k == |s| - 1 || s[Parent(k)].expiration <= s[|s| - 1].expiration {
      RemoveKeepsOrder(s, k);
    } else {
      RemoveBreaksOneEdge(s, k);
      assert !EdgeOk(RemoveAt(s, k), k);
    }
  }

  // ---------- draining due timers ----------

  function DueCount(s: seq<Timer>, now: int): nat {
    if s == [] then 0 else (if s[0].Due(now) then 1 else 0) + DueCount(s[1..], now)
  }

  lemma {:induction false} DueCountConcat(a: seq<Timer>, b: seq<Timer>, now: int)
    ensures DueCount(a + b, now) == DueCount(a, now) + DueCount(b, now)
  {
    if a == [] {
      assert a + b == b;
    } else {
      assert (a + b)[1..] == a[1..] + b;
      DueCountConcat(a[1..], b, now);
    }
  }

  lemma DueCountUpdate(s: seq<Timer>, i: nat, t: Timer, now: int)
    requires i < |s|
    ensures DueCount(s[i := t], now) ==
            DueCount(s, now) - (if s[i].Due(now) then 1 else 0) + (if t.Due(now) then 1 else 0)
  {
    var a, b := s[..i], s[i + 1..];
    assert s == a + ([s[i]] + b) && s[i := t] == a + ([t] + b);
    DueCountConcat(a, [s[i]] + b, now);
    DueCountConcat(a, [t] + b, now);
    assert ([s[i]] + b)[1..] == b && ([t] + b)[1..] == b;
  }

  lemma {:induction false} DueCountSiftDown(s: seq<Timer>, k: nat, now: int)
    requires k < |s|
    ensures DueCount(SiftDown(s, k), now) == DueCount(s, now)
    decreases |s| - k
  {
    var c := Candidate(s, k);
    if c != k {
      DueCountUpdate(s, k, s[c], now);
      DueCountUpdate(s[k := s[c]], c, s[k], now);
      DueCountSiftDown(Swap(s, k, c), c, now);
    }
  }

  /** What one iteration of the drain leaves: a repeating root is replaced in place and sifted down,
      a one-shot root is removed. */
  function FireRoot(s: seq<Timer>, now: int): (r: seq<Timer>)
    requires s != []
  {
    if s[0].Repeat() then SiftDown(s[0 := s[0].Next(now)], 0) else RemoveAt(s, 0)
  }

  lemma FireRootDecreases(s: seq<Timer>, now: int)
    requires s != [] && s[0].Due(now)
    ensures DueCount(FireRoot(s, now), now) < DueCount(s, now)
  {
    if s[0].Repeat() {
      DueCountUpdate(s, 0, s[0].Next(now), now);
      DueCountSiftDown(s[0 := s[0].Next(now)], 0, now);
    } else {
      var n := |s| - 1;
      assert s == s[..n] + [s[n]];
      DueCountConcat(s[..n], [s[n]], now);
      assert DueCount([s[n]], now) == if s[n].Due(now) then 1 else 0;
      if n != 0 {
        DueCountUpdate(s[..n], 0, s[n], now);
        DueCountSiftDown(s[..n][0 := s[n]], 0, now);
      }
    }
  }

  /** The drain at one clock reading: the fired timers in order, and the queue left behind. */
  function Drain(s: seq<Timer>, now: int): (r: (seq<Timer>, seq<Timer>))
    decreases DueCount(s, now)
  {
    if s == [] || !s[0].Due(now) then ([], s)
    else
      FireRootDecreases(s, now);
      var r := Drain(FireRoot(s, now), now);
      ([s[0]] + r.0, r.1)
  }

  lemma NothingDue(s: seq<Timer>, now: int)
    requires s == [] || !s[0].Due(now)
    ensures Drain(s, now) == ([], s)
  {
  }

  lemma DrainUnfold(s: seq<Timer>, now: int)
    requires s != [] && s[0].Due(now)
    ensures Drain(s, now).0 == [s[0]] + Drain(FireRoot(s, now), now).0
    ensures Drain(s, now).1 == Drain(FireRoot(s, now), now).1
  {
  }

  /** The replacements of the repeating timers among `fired`. */
  function Rescheduled(fired: seq<Timer>, now: int): (r: multiset<Timer>)
    ensures forall t :: t in r ==> !t.Due(now)
  {
    if fired == [] then multiset{}
    else (if fired[0].Repeat() then multiset{fired[0].Next(now)} else multiset{}) + Rescheduled(fired[1..], now)
  }

  lemma FireRootContents(s: seq<Timer>, now: int)
    requires s != []
    ensures multiset(FireRoot(s, now)) ==
            multiset(s) - multiset{s[0]} + (if s[0].Repeat() then multiset{s[0].Next(now)} else multiset{})
  {
    if !s[0].Repeat() { RemoveAtContents(s, 0); }
  }

  /** On any queue: the drain fires only due timers and stops at a root that is not due. */
  lemma {:induction false} DrainFiresDue(s: seq<Timer>, now: int)
    ensures forall t :: t in Drain(s, now).0 ==> t.Due(now)
    ensures Drain(s, now).1 == [] || !Drain(s, now).1[0].Due(now)
    decreases DueCount(s, now)
  {
    if s != [] && s[0].Due(now) {
      FireRootDecreases(s, now);
      DrainFiresDue(FireRoot(s, now), now);
    }
  }

  /** On any queue: each timer fires at most as often as it was queued, and the queue left is the
      old one without the fired timers plus the replacements of the repeating ones. */
  lemma {:induction false} DrainConserves(s: seq<Timer>, now: int)
    ensures multiset(Drain(s, now).0) <= multiset(s)
    ensures multiset(Drain(s, now).1) ==
            multiset(s) - multiset(Drain(s, now).0) + Rescheduled(Drain(s, now).0, now)
    decreases DueCount(s, now)
  {
    if s != [] && s[0].Due(now) {
      FireRootDecreases(s, now);
      FireRootContents(s, now);
      var s' := FireRoot(s, now);
      DrainConserves(s', now);
      DrainFiresDue(s', now);
      ConserveStep(multiset(s), s[0], multiset(s'), Drain(s', now).0, multiset(Drain(s', now).1), now);
    }
  }

  /** The bookkeeping of one iteration of the drain. */
  lemma ConserveStep(before: multiset<Timer>, root: Timer, after: multiset<Timer>,
                     fired: seq<Timer>, rest: multiset<Timer>, now: int)
    requires root in before
    requires after == before - multiset{root} + (if root.Repeat() then multiset{root.Next(now)} else multiset{})
    requires forall t :: t in fired ==> t.Due(now)
    requires multiset(fired) <= after && rest == after - multiset(fired) + Rescheduled(fired, now)
    ensures multiset([root] + fired) <= before
    ensures rest == before - multiset([root] + fired) + Rescheduled([root] + fired, now)
  {
    var next := if root.Repeat() then multiset{root.Next(now)} else multiset{};
    assert ([root] + fired)[1..] == fired;
    assert multiset([root] + fired) == multiset{root} + multiset(fired);
    forall t | t in multiset(fired) ensures t !in next { assert t in fired; }
    Exchange(before, root, next, multiset(fired), Rescheduled(fired, now));
  }

  lemma Exchange(before: multiset<Timer>, root: Timer, next: multiset<Timer>,
                 fired: multiset<Timer>, more: multiset<Timer>)
    requires root in before && fired !! next && fired <= before - multiset{root} + next
    ensures multiset{root} + fired <= before
    ensures before - multiset{root} + next - fired + more == before - (multiset{root} + fired) + (next + more)
  {
    forall t ensures fired[t] <= (before - multiset{root})[t] { }
  }

  ghost predicate InOrder(s: seq<Timer>) {
    forall i, j :: 0 <= i < j < |s| ==> s[i].expiration <= s[j].expiration
  }

  lemma FireRootKeepsOrder(s: seq<Timer>, now: int)
    requires s != [] && HeapOrdered(s) && s[0].Due(now)
    ensures HeapOrdered(FireRoot(s, now))
  {
    if s[0].Repeat() {
      var t := s[0 := s[0].Next(now)];
      forall i | 0 < i < |t| && Parent(i) != 0 ensures EdgeOk(t, i) { assert EdgeOk(s, i); }
      SiftDownRestoresOrder(t, 0);
    } else {
      RemoveAtOrder(s, 0);
    }
  }

  /** On a heap-ordered queue the drain keeps heap order. */
  lemma {:induction false} DrainKeepsOrder(s: seq<Timer>, now: int)
    requires HeapOrdered(s)
    ensures HeapOrdered(Drain(s, now).1)
    decreases DueCount(s, now)
  {
    if s == [] || !s[0].Due(now) {
      NothingDue(s, now);
    } else {
      FireRootDecreases(s, now);
      FireRootKeepsOrder(s, now);
      DrainKeepsOrder(FireRoot(s, now), now);
    }
  }

  // ---------- what a drain needs to miss nothing ----------

  ghost predicate EdgeClosed(s: seq<Timer>, i: nat, now: int)
    requires 0 < i < |s|
  {
    s[i].Due(now) ==> s[Parent(i)].Due(now)
  }

  /** The parent of every due timer is due. This is less than heap order. */
  ghost predicate DueClosed(s: seq<Timer>, now: int) {
    forall i :: 0 < i < |s| ==> EdgeClosed(s, i, now)
  }

  /** The same but for the edges between `k` and its children; if one of these is due, so is the parent
      of `k`. */
  ghost predicate DueClosedExceptBelow(s: seq<Timer>, k: nat, now: int) {
    && (forall i :: 0 < i < |s| && Parent(i) != k ==> EdgeClosed(s, i, now))
    && (forall i :: 0 < k && 0 < i < |s| && Parent(i) == k && s[i].Due(now) ==> s[Parent(k)].Due(now))
  }

  lemma OrderedIsDueClosed(s: seq<Timer>, now: int)
    requires HeapOrdered(s)
    ensures DueClosed(s, now)
  {
    forall i | 0 < i < |s| ensures EdgeClosed(s, i, now) { assert EdgeOk(s, i); }
  }

  lemma NoCandidateIsClosed(s: seq<Timer>, k: nat, now: int)
    requires k < |s| && DueClosedExceptBelow(s, k, now) && Candidate(s, k) == k
    ensures DueClosed(s, now)
  {
    forall i | 0 < i < |s| ensures EdgeClosed(s, i, now) {
      if Parent(i) == k { assert i == 2 * k + 1 || i == 2 * k + 2; }
    }
  }

  lemma SwapMovesOpenEdgeDown(s: seq<Timer>, k: nat, c: nat, now: int)
    requires k < |s| && DueClosedExceptBelow(s, k, now) && c == Candidate(s, k) != k
    ensures DueClosedExceptBelow(Swap(s, k, c), c, now)
  {
    var t := Swap(s, k, c);
    forall i | 0 < i < |t| && Parent(i) != c ensures EdgeClosed(t, i, now) {
      if Parent(i) == k {
        assert i == 2 * k + 1 || i == 2 * k + 2;
      } else {
        assert EdgeClosed(s, i, now);
      }
    }
    forall i | 0 < i < |t| && Parent(i) == c && t[i].Due(now) ensures t[Parent(c)].Due(now) {
      assert EdgeClosed(s, i, now);
    }
  }

  /** Sifting down restores this, too. */
  lemma {:induction false} SiftDownRestoresClosure(s: seq<Timer>, k: nat, now: int)
    requires k < |s| && DueClosedExceptBelow(s, k, now)
    ensures DueClosed(SiftDown(s, k), now)
    decreases |s| - k
  {
    var c := Candidate(s, k);
    if c == k {
      NoCandidateIsClosed(s, k, now);
    } else {
      SwapMovesOpenEdgeDown(s, k, c, now);
      SiftDownRestoresClosure(Swap(s, k, c), c, now);
    }
  }

  /** Whatever replaces the root of an array cut to `n`, sifting it down restores the closure. */
  lemma NewRootRestoresClosure(s: seq<Timer>, n: nat, t: Timer, now: int)
    requires 0 < n <= |s| && DueClosed(s, now)
    ensures DueClosed(SiftDown(s[..n][0 := t], 0), now)
  {
    var r := s[..n][0 := t];
    forall i | 0 < i < |r| && Parent(i) != 0 ensures EdgeClosed(r, i, now) { assert EdgeClosed(s, i, now); }
    SiftDownRestoresClosure(r, 0, now);
  }

  lemma FireRootKeepsClosure(s: seq<Timer>, now: int)
    requires s != [] && DueClosed(s, now)
    ensures DueClosed(FireRoot(s, now), now)
  {
    if s[0].Repeat() {
      NewRootRestoresClosure(s, |s|, s[0].Next(now), now);
      assert s[..|s|] == s;
    } else if |s| > 1 {
      NewRootRestoresClosure(s, |s| - 1, s[|s| - 1], now);
    }
  }

  /** If the root is not due, nothing is. */
  lemma {:induction false} NothingDueBelow(s: seq<Timer>, i: nat, now: int)
    requires DueClosed(s, now) && i < |s| && !s[0].Due(now)
    ensures !s[i].Due(now)
  {
    if i != 0 {
      NothingDueBelow(s, Parent(i), now);
      assert EdgeClosed(s, i, now);
    }
  }

  /** A drain leaves no due timer if the parent of every due timer is due. */
  lemma {:induction false} DrainLeavesNoneDue(s: seq<Timer>, now: int)
    requires DueClosed(s, now)
    ensures forall t :: t in Drain(s, now).1 ==> !t.Due(now)
    decreases DueCount(s, now)
  {
    if s == [] || !s[0].Due(now) {
      forall t | t in s ensures !t.Due(now) {
        var i :| 0 <= i < |s| && s[i] == t;
        NothingDueBelow(s, i, now);
      }
    } else {
      FireRootDecreases(s, now);
      FireRootKeepsClosure(s, now);
      DrainLeavesNoneDue(FireRoot(s, now), now);
    }
  }

  /** After a cancellation in a heap-ordered queue a drain at `now` still needs no more, exactly if the
      order was kept, or the moved timer is not due, or the parent of the hole is. */
  lemma CancelKeepsClosureIff(s: seq<Timer>, k: nat, now: int)
    requires k < |s| && HeapOrdered(s)
    ensures DueClosed(RemoveAt(s, k), now) <==>
            k == 0 || k == |s| - 1 || !s[|s| - 1].Due(now) || s[Parent(k)].Due(now)
  {
    if k == 0 || k == |s| - 1 || s[Parent(k)].expiration <= s[|s| - 1].expiration {
      RemoveKeepsOrder(s, k);
      OrderedIsDueClosed(RemoveAt(s, k), now);
    } else {
      var t := s[..|s| - 1][k := s[|s| - 1]];
      FilledStays(s, k, t);
      OneEdgeClosure(t, k, now);
    }
  }

  lemma OneEdgeClosure(s: seq<Timer>, k: nat, now: int)
    requires 0 < k < |s| && forall i :: 0 < i < |s| && i != k ==> EdgeOk(s, i)
    ensures DueClosed(s, now) <==> EdgeClosed(s, k, now)
  {
    forall i | 0 < i < |s| && i != k ensures EdgeClosed(s, i, now) { assert EdgeOk(s, i); }
  }

  /** On a heap-ordered queue timers fire in nondecreasing order of expiration. */
  lemma {:induction false} DrainInOrder(s: seq<Timer>, now: int)
    requires HeapOrdered(s)
    ensures InOrder(Drain(s, now).0)
    decreases DueCount(s, now)
  {
    if s != [] && s[0].Due(now) {
      FireRootDecreases(s, now);
      FireRootKeepsOrder(s, now);
      DrainInOrder(FireRoot(s, now), now);
      DrainConserves(s, now);
      var fired := Drain(s, now).0;
      forall i | 0 <= i < |fired| ensures s[0].expiration <= fired[i].expiration {
        assert fired[i] in multiset(fired) && fired[i] in multiset(s);
        var j :| 0 <= j < |s| && s[j] == fired[i];
        RootIsEarliest(s, j);
      }
    }
  }

  /** Then every due timer fires, exactly as often as it was queued. */
  lemma DrainFiresAllDue(s: seq<Timer>, now: int, t: Timer)
    requires DueClosed(s, now) && t.Due(now)
    ensures multiset(Drain(s, now).0)[t] == multiset(s)[t]
  {
    DrainConserves(s, now);
    DrainLeavesNoneDue(s, now);
    assert t !in multiset(Drain(s, now).1);
  }

  /** The assertion at the end of a drain, reached when the queue is not empty then, compares the old
      root with the new one. It holds exactly if the old root was due, ordered queue or not. */
  lemma DrainAssertion(s: seq<Timer>, now: int)
    requires s != [] && Drain(s, now).1 != []
    ensures s[0].expiration < Drain(s, now).1[0].expiration <==> s[0].Due(now)
  {
    if s[0].Due(now) {
      DrainFiresDue(s, now);
    } else {
      NothingDue(s, now);
    }
  }

  /** It does fail: a drain at time 4 of a queue whose only timer is due at 10. */
  lemma DrainAssertionCanFail()
    ensures var s := [OneShot(10)];
            && HeapOrdered(s) && Drain(s, 4).1 != []
            && !(s[0].expiration < Drain(s, 4).1[0].expiration)
  {
    NothingDue([OneShot(10)], 4);
  }

  function OneShot(expiration: int): Timer { Timer(expiration, 0, expiration) }

  /** One sift-down step, for stepping through a concrete array. */
  lemma SiftDownStep(s: seq<Timer>, k: nat, c: nat, t: seq<Timer>)
    requires k < |s| && c == Candidate(s, k) != k && t == Swap(s, k, c)
    ensures SiftDown(s, k) == SiftDown(t, c)
  {
  }

  lemma SiftUpStep(s: seq<Timer>, k: nat)
    requires 0 < k < |s| && s[k].expiration < s[Parent(k)].expiration
    ensures SiftUp(s, k) == SiftUp(Swap(s, k, Parent(k)), Parent(k))
  {
  }

  /** One iteration of the drain for a one-shot root, for stepping through a concrete array. */
  lemma DrainOneShot(s: seq<Timer>, now: int, hole: seq<Timer>, t: seq<Timer>)
    requires 1 < |s| && s[0].Due(now) && !s[0].Repeat()
    requires hole == s[..|s| - 1][0 := s[|s| - 1]] && SiftDown(hole, 0) == t
    ensures Drain(s, now) == ([s[0]] + Drain(t, now).0, Drain(t, now).1)
  {
  }

  lemma FirstFiring(s: seq<Timer>, t: seq<Timer>)
    requires s == [OneShot(1), OneShot(10), OneShot(2), OneShot(4), OneShot(12), OneShot(20)]
    requires t == [OneShot(2), OneShot(10), OneShot(20), OneShot(4), OneShot(12)]
    ensures Drain(s, 4) == ([OneShot(1)] + Drain(t, 4).0, Drain(t, 4).1)
  {
    var hole := [OneShot(20), OneShot(10), OneShot(2), OneShot(4), OneShot(12)];
    SiftDownStep(hole, 0, 2, t);
    SiftDownStays(t, 2);
    DrainOneShot(s, 4, hole, t);
  }

  lemma SecondFiring(s: seq<Timer>, t: seq<Timer>)
    requires s == [OneShot(2), OneShot(10), OneShot(20), OneShot(4), OneShot(12)]
    requires t == [OneShot(10), OneShot(4), OneShot(20), OneShot(12)]
    ensures Drain(s, 4) == ([OneShot(2)] + Drain(t, 4).0, Drain(t, 4).1)
  {
    var hole := [OneShot(12), OneShot(10), OneShot(20), OneShot(4)];
    var mid := [OneShot(10), OneShot(12), OneShot(20), OneShot(4)];
    SiftDownStep(hole, 0, 1, mid);
    SiftDownStep(mid, 1, 3, t);
    SiftDownStays(t, 3);
    DrainOneShot(s, 4, hole, t);
  }

  lemma StartIsOrdered(s: seq<Timer>)
    requires s == [OneShot(1), OneShot(10), OneShot(2), OneShot(11), OneShot(12), OneShot(20), OneShot(4)]
    ensures HeapOrdered(s)
  {
    assert Parent(1) == 0 && Parent(2) == 0 && Parent(3) == 1 && Parent(4) == 1 && Parent(5) == 2 && Parent(6) == 2;
  }

  lemma CancelledArray(s: seq<Timer>, t: seq<Timer>)
    requires s == [OneShot(1), OneShot(10), OneShot(2), OneShot(11), OneShot(12), OneShot(20), OneShot(4)]
    requires t == [OneShot(1), OneShot(10), OneShot(2), OneShot(4), OneShot(12), OneShot(20)]
    ensures RemoveAt(s, 3) == t
  {
    assert t == s[..6][3 := s[6]];
    SiftDownStays(t, 3);
  }

  lemma DrainStopsEarly(s: seq<Timer>)
    requires s == [OneShot(1), OneShot(10), OneShot(2), OneShot(4), OneShot(12), OneShot(20)]
    ensures Drain(s, 4).0 == [OneShot(1), OneShot(2)]
  {
    var s1 := [OneShot(2), OneShot(10), OneShot(20), OneShot(4), OneShot(12)];
    var s2 := [OneShot(10), OneShot(4), OneShot(20), OneShot(12)];
    FirstFiring(s, s1);
    SecondFiring(s1, s2);
    NothingDue(s2, 4);
  }

  /** A cancellation can make a later drain miss a due timer: in this heap-ordered queue, cancelling
      the timer at index 3 puts the timer due at 4 below the one due at 10, and the drain at time 4
      stops at the latter. */
  lemma CancellationCanDelayDueTimer(s: seq<Timer>)
    requires s == [OneShot(1), OneShot(10), OneShot(2), OneShot(11), OneShot(12), OneShot(20), OneShot(4)]
    ensures HeapOrdered(s) && s[6].Due(4)
    ensures Drain(RemoveAt(s, 3), 4).0 == [s[0], s[2]]
  {
    var t := [OneShot(1), OneShot(10), OneShot(2), OneShot(4), OneShot(12), OneShot(20)];
    StartIsOrdered(s);
    CancelledArray(s, t);
    DrainStopsEarly(t);
  }
}
