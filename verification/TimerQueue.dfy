/** TimerQueue.cpp: the indexed min-heap `TimerMinHeap` and the queue that drains it and keeps the
    timer descriptor armed at the next deadline. Every method is tied to a function of module
    TimerOrder, which holds the order theory; here the position index and the cached deadline are
    kept, and the queue is shown to refine a plain map from timer id to timer. */
module TimerQueues {
  import opened TimerOrder

  /** `TimePoint_t::max()`, the deadline of an empty queue. */
  const NEVER := 0x7FFF_FFFF_FFFF_FFFF

  // ---------- the position index ----------

  /** `positions` is the exact inverse of the array. */
  ghost predicate Indexed(s: seq<Timer>, positions: map<int, nat>) {
    && (forall i :: 0 <= i < |s| ==> s[i].id in positions && positions[s[i].id] == i)
    && (forall id :: id in positions ==> positions[id] < |s| && s[positions[id]].id == id)
  }

  /** The queue as a plain map from id to timer. */
  ghost function MapOf(s: seq<Timer>, positions: map<int, nat>): map<int, Timer>
    requires Indexed(s, positions)
  {
    map id | id in positions :: s[positions[id]]
  }

  lemma {:induction false} IndexedSizes(s: seq<Timer>, positions: map<int, nat>)
    requires Indexed(s, positions)
    ensures |s| == |positions|
  {
    if s == [] {
      assert forall id :: id !in positions;
      assert |positions| == 0;
    } else {
      var n := |s| - 1;
      var rest := positions - {s[n].id};
      assert Indexed(s[..n], rest);
      IndexedSizes(s[..n], rest);
      assert positions.Keys == rest.Keys + {s[n].id};
      assert |positions.Keys| == |rest.Keys| + 1;
    }
  }

  lemma SwapIndexed(s: seq<Timer>, p: map<int, nat>, i: nat, j: nat)
    requires Indexed(s, p) && i < |s| && j < |s|
    ensures Indexed(Swap(s, i, j), p[s[j].id := i][s[i].id := j])
    ensures Indexed(Swap(s, i, j), p[s[i].id := j][s[j].id := i])
  {
  }

  lemma PushIndexed(s: seq<Timer>, p: map<int, nat>, t: Timer)
    requires Indexed(s, p) && t.id !in p
    ensures Indexed(s + [t], p[t.id := |s|])
  {
  }

  /** Swapping the timer at `k` with the last one and dropping it. */
  lemma HoleIndexed(s: seq<Timer>, p: map<int, nat>, k: nat)
    requires Indexed(s, p) && k < |s|
    ensures k == |s| - 1 <==> s[|s| - 1].id == s[k].id
    ensures k == |s| - 1 ==> Swap(s, k, |s| - 1)[..|s| - 1] == s[..|s| - 1] && Indexed(s[..|s| - 1], p - {s[k].id})
    ensures k < |s| - 1 ==>
              && Swap(s, k, |s| - 1)[..|s| - 1] == s[..|s| - 1][k := s[|s| - 1]]
              && Indexed(s[..|s| - 1][k := s[|s| - 1]], (p - {s[k].id})[s[|s| - 1].id := k])
  {
  }

  lemma Member(s: seq<Timer>, positions: map<int, nat>, t: Timer)
    requires Indexed(s, positions)
    ensures t in multiset(s) <==> t.id in positions && s[positions[t.id]] == t
    ensures multiset(s)[t] <= 1
  {
    if t in multiset(s) {
      assert t in s;
      var i := positions[t.id];
      assert s == s[..i] + [s[i]] + s[i + 1..];
      assert t !in s[..i] && t !in s[i + 1..];
    }
  }

  lemma InsertedView(s: seq<Timer>, p: map<int, nat>, s': seq<Timer>, p': map<int, nat>, t: Timer)
    requires Indexed(s, p) && Indexed(s', p') && t.id !in p
    requires s' == Insert(s, t).0
    ensures MapOf(s', p') == MapOf(s, p)[t.id := t]
  {
    assert multiset(s') == multiset(s + [t]);
    var want := MapOf(s, p)[t.id := t];
    forall u: Timer
      ensures u.id in p' && s'[p'[u.id]] == u <==> u.id in want && want[u.id] == u
    {
      Member(s, p, u);
      Member(s', p', u);
    }
    SameMap(MapOf(s', p'), want);
  }

  lemma RemovedView(s: seq<Timer>, p: map<int, nat>, s': seq<Timer>, p': map<int, nat>, id: int)
    requires Indexed(s, p) && Indexed(s', p') && id in p
    requires s' == RemoveAt(s, p[id])
    ensures MapOf(s', p') == MapOf(s, p) - {id}
  {
    var want := MapOf(s, p) - {id};
    forall u: Timer
      ensures u.id in p' && s'[p'[u.id]] == u <==> u.id in want && want[u.id] == u
    {
      RemovedMember(s, p, s', id, u);
      Member(s', p', u);
    }
    SameMap(MapOf(s', p'), want);
  }

  lemma RemovedMember(s: seq<Timer>, p: map<int, nat>, s': seq<Timer>, id: int, u: Timer)
    requires Indexed(s, p) && id in p && s' == RemoveAt(s, p[id])
    ensures u in multiset(s') <==> u.id in p && u.id != id && s[p[u.id]] == u
  {
    var t := s[p[id]];
    RemoveAtContents(s, p[id]);
    Member(s, p, t);
    Member(s, p, u);
  }

  lemma SameMap(m: map<int, Timer>, n: map<int, Timer>)
    requires forall id :: id in m ==> m[id].id == id
    requires forall id :: id in n ==> n[id].id == id
    requires forall u: Timer :: u.id in m && m[u.id] == u <==> u.id in n && n[u.id] == u
    ensures m == n
  {
    forall id | id in m ensures id in n && n[id] == m[id] { assert m[id].id == id; }
    forall id | id in n ensures id in m && n[id] == m[id] { assert n[id].id == id; }
  }

  // ---------- what a drain does to the map ----------

  ghost function FiredIds(fired: seq<Timer>): set<int> {
    set t | t in fired :: t.id
  }

  /** Fired one-shot timers are gone, fired repeating ones are due again one interval from now, and
      every other timer is untouched. */
  ghost function AfterFiring(m: map<int, Timer>, ids: set<int>, now: int): map<int, Timer> {
    map id | id in m && (id in ids ==> m[id].Repeat()) :: if id in ids then m[id].Next(now) else m[id]
  }

  /** In plain terms: fired one-shot timers are gone, a fired repeating one is queued under its id for
      one interval from now, and all others are as they were. */
  lemma AfterFiringMeaning(m: map<int, Timer>, ids: set<int>, now: int)
    requires forall id :: id in m ==> m[id].id == id
    ensures var m' := AfterFiring(m, ids, now);
            && (m'.Keys == set id | id in m && (id in ids ==> m[id].interval != 0))
            && (forall id :: id in m' && id in ids ==> m'[id] == Timer(now + m[id].interval, m[id].interval, id))
            && (forall id :: id in m' && id !in ids ==> m'[id] == m[id])
  {
    var m' := AfterFiring(m, ids, now);
    assert m'.Keys == set id | id in m && (id in ids ==> m[id].interval != 0) by {
      forall id ensures id in m'.Keys <==> id in m && (id in ids ==> m[id].interval != 0) { }
    }
  }

  /** What fires was queued, and due. */
  lemma FiredWereQueued(s: seq<Timer>, p: map<int, nat>, now: int)
    requires Indexed(s, p)
    ensures forall t :: t in Drain(s, now).0 ==> t.id in p && s[p[t.id]] == t && t.expiration <= now
    ensures FiredIds(Drain(s, now).0) <= p.Keys
  {
    DrainFiresDue(s, now);
    DrainConserves(s, now);
    forall t | t in Drain(s, now).0 ensures t.id in p && s[p[t.id]] == t {
      assert t in multiset(Drain(s, now).0);
      Member(s, p, t);
    }
  }

  lemma {:induction false} RescheduledMember(fired: seq<Timer>, now: int, t: Timer)
    ensures t in Rescheduled(fired, now) <==> exists f :: f in fired && f.Repeat() && f.Next(now) == t
  {
    if fired != [] {
      RescheduledMember(fired[1..], now, t);
      if fired[0].Repeat() && fired[0].Next(now) == t {
        assert fired[0] in fired;
      }
      if f :| f in fired && f.Repeat() && f.Next(now) == t {
        assert f == fired[0] || f in fired[1..];
      }
    }
  }

  /** On any queue, ordered or not, the drain changes the map exactly as its fired timers say, and
      no timer fires twice. */
  lemma DrainView(s: seq<Timer>, p: map<int, nat>, p': map<int, nat>, now: int)
    requires Indexed(s, p) && Indexed(Drain(s, now).1, p')
    ensures MapOf(Drain(s, now).1, p') == AfterFiring(MapOf(s, p), FiredIds(Drain(s, now).0), now)
    ensures forall t: Timer :: multiset(Drain(s, now).0)[t] <= 1
  {
    var (fired, rest) := Drain(s, now);
    var m := MapOf(s, p);
    var want := AfterFiring(m, FiredIds(fired), now);
    DrainConserves(s, now);
    forall t: Timer ensures multiset(fired)[t] <= 1 { Member(s, p, t); }
    forall u: Timer
      ensures u.id in p' && rest[p'[u.id]] == u <==> u.id in want && want[u.id] == u
    {
      DrainMember(s, p, p', now, u);
    }
    SameMap(MapOf(rest, p'), want);
  }

  lemma FiredMember(s: seq<Timer>, p: map<int, nat>, now: int, id: int)
    requires Indexed(s, p)
    ensures id in FiredIds(Drain(s, now).0) <==> id in p && s[p[id]] in Drain(s, now).0
  {
    DrainConserves(s, now);
    var fired := Drain(s, now).0;
    if t :| t in fired && t.id == id {
      assert t in multiset(fired);
      Member(s, p, t);
    }
  }

  /** What is queued after a drain: what was queued and did not fire, and the replacements. */
  lemma RestMember(s: seq<Timer>, p: map<int, nat>, now: int, u: Timer)
    requires Indexed(s, p)
    ensures u in multiset(Drain(s, now).1) <==>
            (u in multiset(s) && u !in Drain(s, now).0) || u in Rescheduled(Drain(s, now).0, now)
  {
    DrainConserves(s, now);
    Member(s, p, u);
    assert u in Drain(s, now).0 <==> u in multiset(Drain(s, now).0);
  }

  lemma ReplacementMember(s: seq<Timer>, p: map<int, nat>, now: int, u: Timer)
    requires Indexed(s, p)
    ensures u in Rescheduled(Drain(s, now).0, now) <==>
            u.id in p && s[p[u.id]] in Drain(s, now).0 && s[p[u.id]].Repeat() && s[p[u.id]].Next(now) == u
  {
    var fired := Drain(s, now).0;
    RescheduledMember(fired, now, u);
    DrainConserves(s, now);
    if f :| f in fired && f.Repeat() && f.Next(now) == u {
      assert f in multiset(fired);
      Member(s, p, f);
    }
  }

  lemma DrainMember(s: seq<Timer>, p: map<int, nat>, p': map<int, nat>, now: int, u: Timer)
    requires Indexed(s, p) && Indexed(Drain(s, now).1, p')
    ensures var want := AfterFiring(MapOf(s, p), FiredIds(Drain(s, now).0), now);
            u.id in p' && Drain(s, now).1[p'[u.id]] == u <==> u.id in want && want[u.id] == u
  {
    Member(Drain(s, now).1, p', u);
    RestMember(s, p, now, u);
    ReplacementMember(s, p, now, u);
    Member(s, p, u);
    FiredMember(s, p, now, u.id);
  }

  /** If the parent of every due timer is due, the fired timers are exactly the due ones. */
  lemma FiredAreDue(s: seq<Timer>, p: map<int, nat>, now: int)
    requires Indexed(s, p) && DueClosed(s, now)
    ensures FiredIds(Drain(s, now).0) == set id | id in MapOf(s, p) && MapOf(s, p)[id].Due(now)
  {
    var fired := Drain(s, now).0;
    DrainFiresDue(s, now);
    forall id ensures id in FiredIds(fired) <==> id in p && s[p[id]].Due(now) {
      FiredMember(s, p, now, id);
      if id in p && s[p[id]].Due(now) {
        DrainFiresAllDue(s, now, s[p[id]]);
        Member(s, p, s[p[id]]);
        assert s[p[id]] in multiset(fired);
      }
    }
  }

  /** An empty queue stays empty, and one whose root is not due is left alone. */
  lemma DrainKeepsNotDue(s: seq<Timer>, now: int)
    ensures s == [] ==> Drain(s, now).1 == []
    ensures s != [] && !s[0].Due(now) ==> Drain(s, now).1 == s
  {
    if s == [] || !s[0].Due(now) { NothingDue(s, now); }
  }

  /** What order adds to all this. */
  lemma OrderedDrain(s: seq<Timer>, p: map<int, nat>, now: int)
    requires Indexed(s, p)
    ensures HeapOrdered(s) ==> InOrder(Drain(s, now).0) && HeapOrdered(Drain(s, now).1) && DueClosed(s, now)
    ensures DueClosed(s, now) ==>
              FiredIds(Drain(s, now).0) == set id | id in MapOf(s, p) && MapOf(s, p)[id].Due(now)
  {
    if HeapOrdered(s) {
      DrainInOrder(s, now);
      DrainKeepsOrder(s, now);
      OrderedIsDueClosed(s, now);
    }
    if DueClosed(s, now) {
      FiredAreDue(s, p, now);
    }
  }

  /** The loop of a drain of `s` has fired `fired` and is left with `q`. */
  ghost predicate Draining(s: seq<Timer>, now: int, fired: seq<Timer>, q: seq<Timer>) {
    Drain(s, now).0 == fired + Drain(q, now).0 && Drain(s, now).1 == Drain(q, now).1
  }

  lemma DrainStart(s: seq<Timer>, now: int)
    ensures Draining(s, now, [], s)
  {
    assert [] + Drain(s, now).0 == Drain(s, now).0;
  }

  lemma DrainStep(s: seq<Timer>, now: int, fired: seq<Timer>, q: seq<Timer>)
    requires Draining(s, now, fired, q) && q != [] && q[0].Due(now)
    ensures Draining(s, now, fired + [q[0]], FireRoot(q, now))
    ensures DueCount(FireRoot(q, now), now) < DueCount(q, now)
  {
    FireRootDecreases(q, now);
    DrainUnfold(q, now);
    Regroup(fired, q[0], Drain(FireRoot(q, now), now).0);
  }

  lemma Regroup(fired: seq<Timer>, t: Timer, rest: seq<Timer>)
    ensures fired + ([t] + rest) == (fired + [t]) + rest
  {
  }

  lemma DrainEnd(s: seq<Timer>, now: int, fired: seq<Timer>, q: seq<Timer>)
    requires Draining(s, now, fired, q) && (q == [] || !q[0].Due(now))
    ensures (fired, q) == Drain(s, now)
  {
    NothingDue(q, now);
    assert fired + [] == fired;
  }

  // ---------- TimerMinHeap ----------

  class TimerMinHeap {
    var timerList: seq<Timer>
    var positions: map<int, nat>

    ghost predicate Valid()
      reads this
    {
      Indexed(timerList, positions)
    }

    ghost function View(): map<int, Timer>
      requires Valid()
      reads this
    {
      MapOf(timerList, positions)
    }

    constructor ()
      ensures Valid() && timerList == [] && View() == map[]
    {
      timerList, positions := [], map[];
    }

    /** Returns whether the timer descriptor needs a new deadline. */
    method Add(t: Timer) returns (latest: bool)
      requires Valid() && t.id !in positions
      modifies this
      ensures Valid()
      ensures (timerList, latest) == Insert(old(timerList), t)
      ensures View() == old(View())[t.id := t]
    {
      ghost var s, p := timerList, positions;
      var idx := |timerList|;
      PushIndexed(timerList, positions, t);
      timerList := timerList + [t];
      positions := positions[t.id := idx];
      assert |timerList| == |positions| by { IndexedSizes(timerList, positions); }
      latest := idx == 0;
      if idx != 0 {
        latest := SiftUpFrom(idx);
      }
      InsertedView(s, p, timerList, positions, t);
    }

    /** The loop of `Add`. */
    method SiftUpFrom(k: nat) returns (latest: bool)
      requires Valid() && 0 < k < |timerList|
      modifies this
      ensures Valid()
      ensures (timerList, latest) == SiftUp(old(timerList), k)
    {
      ghost var s := timerList;
      var idx := k;
      var parent := Parent(idx);
      latest := false;
      while timerList[idx].expiration < timerList[parent].expiration
        invariant 0 < idx < |timerList| && parent == Parent(idx)
        invariant Valid() && !latest
        invariant SiftUp(timerList, idx) == SiftUp(s, k)
        decreases idx
      {
        SiftUpStep(timerList, idx);
        SwapEntries(idx, parent);
        if parent == 0 {
          return true;
        }
        idx := parent;
        parent := Parent(idx);
      }
    }

    /** The swap of two entries, with the update of their positions. */
    method SwapEntries(i: nat, j: nat)
      requires Valid() && i < |timerList| && j < |timerList|
      modifies this
      ensures Valid() && timerList == Swap(old(timerList), i, j)
    {
      SwapIndexed(timerList, positions, i, j);
      var first, second := timerList[i].id, timerList[j].id;
      timerList := Swap(timerList, i, j);
      positions := positions[second := i][first := j];
    }

    method Adjust(k: nat)
      requires Valid() && k < |timerList|
      modifies this
      ensures Valid()
      ensures timerList == SiftDown(old(timerList), k)
    {
      ghost var s := timerList;
      var cur := k;
      while cur * 2 + 1 < |timerList|
        invariant 0 <= cur < |timerList| && Valid()
        invariant SiftDown(timerList, cur) == SiftDown(s, k)
        decreases |timerList| - cur
      {
        var candidate := Candidate(timerList, cur);
        if candidate == cur {
          break;
        }
        SiftDownStep(timerList, cur, candidate, Swap(timerList, cur, candidate));
        SwapEntries(cur, candidate);
        cur := candidate;
      }
    }

    /** Moves the last timer into the place of a queued one, drops the latter and sifts down: the
        code shared by `PopMovedTimer` and `Del`. */
    method FillHole(id: int)
      requires Valid() && id in positions
      modifies this
      ensures Valid()
      ensures timerList == RemoveAt(old(timerList), old(positions[id]))
    {
      var idx := positions[id];
      var last := |timerList| - 1;
      HoleIndexed(timerList, positions, idx);
      var back := timerList[last].id;
      timerList := Swap(timerList, idx, last)[..last];
      positions := positions - {id};
      if back != id {
        positions := positions[back := idx];
        Adjust(idx);
      }
    }

    /** Removes a queued timer. */
    method PopMovedTimer(id: int)
      requires Valid() && id in positions
      modifies this
      ensures Valid()
      ensures timerList == RemoveAt(old(timerList), old(positions[id]))
      ensures View() == old(View()) - {id}
    {
      ghost var s, p := timerList, positions;
      IndexedSizes(s, p);
      if |timerList| > 1 {
        FillHole(id);
      } else {
        timerList, positions := [], map[];
      }
      RemovedView(s, p, timerList, positions, id);
    }

    /** Cancels by id; an unknown id changes nothing. Returns whether the root was removed. */
    method Del(id: int) returns (latest: bool)
      requires Valid()
      modifies this
      ensures Valid()
      ensures latest <==> id in old(positions) && old(positions[id]) == 0
      ensures timerList == if id in old(positions) then RemoveAt(old(timerList), old(positions[id])) else old(timerList)
      ensures View() == old(View()) - {id}
    {
      if id !in positions {
        assert View() == old(View()) - {id};
        return false;
      }
      if positions[id] == 0 {
        PopMovedTimer(timerList[0].id);
        return true;
      }
      ghost var s, p := timerList, positions;
      FillHole(id);
      RemovedView(s, p, timerList, positions, id);
      return false;
    }

    /** Replaces the moved-from root by the next occurrence of the same timer. */
    method ReplaceTop(t: Timer)
      requires Valid() && timerList != [] && t.id == timerList[0].id
      modifies this
      ensures Valid() && timerList == old(timerList)[0 := t] && positions == old(positions)
    {
      timerList := timerList[0 := t];
    }
  }

  // ---------- TimerQueue ----------

  class TimerQueue {
    const heap: TimerMinHeap
    var latestTime: int
    var armedAt: int

    /** The expiration of the root, or NEVER for an empty queue. */
    ghost function RootDeadline(): int
      reads heap
    {
      if heap.timerList == [] then NEVER else heap.timerList[0].expiration
    }

    /** The cached deadline and the armed descriptor follow the root of the heap, ordered or not. */
    ghost predicate Valid()
      reads this, heap
    {
      heap.Valid() && latestTime == armedAt == RootDeadline()
    }

    constructor ()
      ensures Valid() && fresh(heap) && heap.timerList == []
    {
      heap := new TimerMinHeap();
      latestTime, armedAt := NEVER, NEVER;
    }

    method ResetTimerfd()
      modifies this`armedAt
      ensures armedAt == latestTime
    {
      armedAt := latestTime;
    }

    method AddTimerInLoop(t: Timer)
      requires Valid() && t.id !in heap.positions && t.expiration != NEVER
      modifies this, heap
      ensures Valid()
      ensures heap.timerList == Insert(old(heap.timerList), t).0
      ensures heap.View() == old(heap.View())[t.id := t]
    {
      SiftUpRoot(heap.timerList + [t], |heap.timerList|);
      var latestNeedUpdate := heap.Add(t);
      if latestNeedUpdate {
        latestTime := t.expiration;
        ResetTimerfd();
      }
    }

    method CancelTimerInLoop(id: int)
      requires Valid()
      modifies this, heap
      ensures Valid()
      ensures id !in old(heap.positions) ==> heap.timerList == old(heap.timerList)
      ensures id in old(heap.positions) ==>
                heap.timerList == RemoveAt(old(heap.timerList), old(heap.positions[id]))
      ensures heap.View() == old(heap.View()) - {id}
    {
      if id in heap.positions && heap.positions[id] != 0 {
        RemoveKeepsRoot(heap.timerList, heap.positions[id]);
      }
      var latestNeedUpdate := heap.Del(id);
      if latestNeedUpdate {
        if heap.timerList == [] {
          latestTime := NEVER;
        } else {
          latestTime := heap.timerList[0].expiration;
        }
        ResetTimerfd();
      }
    }

    /** What one iteration does with the root it has moved out. */
    method RenewOrPop(top: Timer, now: int)
      requires heap.Valid() && heap.timerList != [] && top == heap.timerList[0]
      modifies heap
      ensures heap.Valid()
      ensures heap.timerList == FireRoot(old(heap.timerList), now)
    {
      if top.Repeat() {
        heap.ReplaceTop(Timer(now + top.interval, top.interval, top.id));
        heap.Adjust(0);
      } else {
        heap.PopMovedTimer(top.id);
      }
    }

    /** The loop of `GetExpiredTimers`. */
    method FireDue(now: int) returns (fired: seq<Timer>)
      requires heap.Valid()
      modifies heap
      ensures heap.Valid()
      ensures fired == Drain(old(heap.timerList), now).0
      ensures heap.timerList == Drain(old(heap.timerList), now).1
    {
      ghost var s := heap.timerList;
      fired := [];
      DrainStart(s, now);
      while heap.timerList != [] && heap.timerList[0].expiration <= now
        invariant heap.Valid() && Draining(s, now, fired, heap.timerList)
        decreases DueCount(heap.timerList, now)
      {
        DrainStep(s, now, fired, heap.timerList);
        var top := heap.timerList[0];
        fired := fired + [top];
        RenewOrPop(top, now);
      }
      DrainEnd(s, now, fired, heap.timerList);
    }

    /** Fires everything due at one clock reading. `assertHolds` is the outcome of the assertion
        that closes the drain. */
    method GetExpiredTimers(now: int) returns (fired: seq<Timer>, assertHolds: bool)
      requires Valid()
      modifies this, heap
      ensures Valid()
      ensures (fired, heap.timerList) == Drain(old(heap.timerList), now)
      ensures heap.View() == AfterFiring(old(heap.View()), FiredIds(fired), now)
      ensures FiredIds(fired) <= old(heap.View()).Keys && forall t: Timer :: multiset(fired)[t] <= 1
      ensures forall t :: t in fired ==> t.id in old(heap.View()) && old(heap.View())[t.id] == t && t.expiration <= now
      ensures heap.View().Keys == set id | id in old(heap.View()) && (id in FiredIds(fired) ==> old(heap.View())[id].interval != 0)
      ensures forall id :: id in heap.View() && id in FiredIds(fired) ==>
                heap.View()[id] == Timer(now + old(heap.View())[id].interval, old(heap.View())[id].interval, id)
      ensures forall id :: id in heap.View() && id !in FiredIds(fired) ==> heap.View()[id] == old(heap.View())[id]
      ensures HeapOrdered(old(heap.timerList)) ==>
                InOrder(fired) && HeapOrdered(heap.timerList) && DueClosed(old(heap.timerList), now)
      ensures DueClosed(old(heap.timerList), now) ==>
                FiredIds(fired) == set id | id in old(heap.View()) && old(heap.View())[id].expiration <= now
      ensures assertHolds <==> old(heap.timerList) == [] || old(heap.timerList)[0].expiration <= now
    {
      ghost var s, p := heap.timerList, heap.positions;
      fired := FireDue(now);
      assertHolds := Rearm(s, now);
      DrainView(s, p, heap.positions, now);
      FiredWereQueued(s, p, now);
      AfterFiringMeaning(MapOf(s, p), FiredIds(fired), now);
      OrderedDrain(s, p, now);
    }

    /** What follows the loop of a drain that started from `s`. */
    method Rearm(ghost s: seq<Timer>, ghost now: int) returns (assertHolds: bool)
      requires heap.Valid() && heap.timerList == Drain(s, now).1
      requires latestTime == if s == [] then NEVER else s[0].expiration
      modifies this
      ensures Valid()
      ensures assertHolds <==> s == [] || s[0].Due(now)
    {
      DrainKeepsNotDue(s, now);
      if heap.timerList != [] {
        DrainAssertion(s, now);
        assertHolds := latestTime < heap.timerList[0].expiration;
        latestTime := heap.timerList[0].expiration;
      } else {
        assertHolds := true;
        latestTime := NEVER;
      }
      ResetTimerfd();
    }
  }

  /** Removing below the root leaves the root in place, ordered queue or not. */
  lemma RemoveKeepsRoot(s: seq<Timer>, k: nat)
    requires 0 < k < |s|
    ensures RemoveAt(s, k)[0] == s[0]
  {
    var n := |s| - 1;
    if k != n {
      SiftDownStaysInSubtree(s[..n][k := s[n]], k, 0);
    }
  }

  // ---------- whole runs ----------

  datatype Op = Add(t: Timer) | Cancel(index: nat) | Expire(now: int)

  /** The branch condition under which a cancellation keeps heap order. */
  predicate KeepsOrder(s: seq<Timer>, op: Op) {
    op.Cancel? && op.index < |s| ==>
      op.index == 0 || op.index == |s| - 1 || s[Parent(op.index)].expiration <= s[|s| - 1].expiration
  }

  function Apply(s: seq<Timer>, op: Op): seq<Timer> {
    match op
    case Add(t) => Insert(s, t).0
    case Cancel(k) => if k < |s| then RemoveAt(s, k) else s
    case Expire(now) => Drain(s, now).1
  }

  function Run(s: seq<Timer>, ops: seq<Op>): seq<Timer>
    decreases |ops|
  {
    if ops == [] then s else Run(Apply(s, ops[0]), ops[1..])
  }

  ghost predicate AllKeepOrder(s: seq<Timer>, ops: seq<Op>)
    decreases |ops|
  {
    ops == [] || (KeepsOrder(s, ops[0]) && AllKeepOrder(Apply(s, ops[0]), ops[1..]))
  }

  /** A run stays heap-ordered as long as each cancellation meets its condition. */
  lemma {:induction false} RunsStayOrdered(s: seq<Timer>, ops: seq<Op>)
    requires HeapOrdered(s) && AllKeepOrder(s, ops)
    ensures HeapOrdered(Run(s, ops))
    decreases |ops|
  {
    if ops != [] {
      StepOrder(s, ops[0]);
      RunsStayOrdered(Apply(s, ops[0]), ops[1..]);
    }
  }

  /** A step keeps heap order exactly if it is not a cancellation that fails its condition. */
  lemma StepOrder(s: seq<Timer>, op: Op)
    requires HeapOrdered(s)
    ensures HeapOrdered(Apply(s, op)) <==> KeepsOrder(s, op)
  {
    match op
    case Add(t) => InsertKeepsOrder(s, t);
    case Cancel(k) => if k < |s| { RemoveAtOrder(s, k); }
    case Expire(now) => DrainKeepsOrder(s, now);
  }
}
