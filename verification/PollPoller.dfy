/** poller/PollPoller.cpp: the dense array of poll entries, the map from descriptor to channel and
    the back-index each channel stores. Removal swaps with the last entry. A channel without any
    interest stays in the array with its descriptor encoded as a negative number, which poll
    ignores. */
module PollPollers {

  const NONE_EVENT: int := 0

  datatype PollFd = PollFd(fd: int, events: int, revents: int)

  function Encode(fd: nat): int { 0 - fd - 1 }

  /** The descriptor behind an entry, encoded or not. */
  function Decode(fd: int): (d: nat) { if fd < 0 then 0 - fd - 1 else fd }

  lemma DecodeEncode(fd: nat)
    ensures Decode(Encode(fd)) == fd && Decode(fd) == fd && Encode(fd) < 0
  {
  }

  // ---------- the array and its index ----------

  /** `idx` maps each registered descriptor to its entry and is onto the array: entries and
      descriptors are in bijection, so the decoded descriptors are distinct. */
  ghost predicate Bijection(p: seq<PollFd>, idx: map<int, int>) {
    && (forall fd :: fd in idx ==> 0 <= idx[fd] < |p| && Decode(p[idx[fd]].fd) == fd)
    && (forall i :: 0 <= i < |p| ==> Decode(p[i].fd) in idx && idx[Decode(p[i].fd)] == i)
  }

  lemma BijectionIsInjective(p: seq<PollFd>, idx: map<int, int>, i: int, j: int)
    requires Bijection(p, idx) && 0 <= i < |p| && 0 <= j < |p| && Decode(p[i].fd) == Decode(p[j].fd)
    ensures i == j
  {
  }

  /** Removal of entry `i`: the last entry takes its place. */
  function SwapRemoved(p: seq<PollFd>, i: nat): (r: seq<PollFd>)
    requires i < |p|
    ensures |r| == |p| - 1
  {
    if i == |p| - 1 then p[..i] else p[i := p[|p| - 1]][..|p| - 1]
  }

  /** Exactly the entry at `i` goes, and every other entry is kept whole. */
  lemma SwapRemovedContents(p: seq<PollFd>, i: nat)
    requires i < |p|
    ensures multiset(SwapRemoved(p, i)) == multiset(p) - multiset{p[i]}
    ensures forall j :: 0 <= j < |p| - 1 ==> SwapRemoved(p, i)[j] == if j == i then p[|p| - 1] else p[j]
  {
    var last := |p| - 1;
    assert p == p[..last] + [p[last]];
    assert i < last ==> SwapRemoved(p, i) == p[..last][i := p[last]];
  }

  /** Every entry holds the interest last given for its descriptor. */
  ghost predicate Interested(p: seq<PollFd>, wanted: map<int, int>) {
    forall i :: 0 <= i < |p| ==> Decode(p[i].fd) in wanted && p[i].events == wanted[Decode(p[i].fd)]
  }

  lemma SwapRemoveKeepsInterested(p: seq<PollFd>, idx: map<int, int>, i: nat, wanted: map<int, int>)
    requires Bijection(p, idx) && Interested(p, wanted) && i < |p|
    ensures Interested(SwapRemoved(p, i), wanted - {Decode(p[i].fd)})
  {
    SwapRemovedContents(p, i);
    forall j | 0 <= j < |p| && j != i ensures Decode(p[j].fd) != Decode(p[i].fd) {
      if Decode(p[j].fd) == Decode(p[i].fd) { BijectionIsInjective(p, idx, i, j); }
    }
  }

  /** What becomes of the index: the removed descriptor is gone and the moved one points to `i`. */
  function SwapRemovedIndex(p: seq<PollFd>, idx: map<int, int>, i: nat): map<int, int>
    requires i < |p|
  {
    var rest := idx - {Decode(p[i].fd)};
    if i == |p| - 1 then rest else rest[Decode(p[|p| - 1].fd) := i]
  }

  lemma SwapRemoveKeepsBijection(p: seq<PollFd>, idx: map<int, int>, i: nat)
    requires Bijection(p, idx) && i < |p|
    ensures Bijection(SwapRemoved(p, i), SwapRemovedIndex(p, idx, i))
    ensures SwapRemovedIndex(p, idx, i).Keys == idx.Keys - {Decode(p[i].fd)}
  {
    var last := |p| - 1;
    var r, jdx := SwapRemoved(p, i), SwapRemovedIndex(p, idx, i);
    forall j | 0 <= j < |r| ensures Decode(r[j].fd) in jdx && jdx[Decode(r[j].fd)] == j {
      var k := if j == i then last else j;
      assert r[j] == p[k];
      if k == i { assert false; }
      assert Decode(p[k].fd) != Decode(p[i].fd);
    }
  }

  /** Every descriptor that stays keeps its whole entry. */
  lemma SwapRemovedEntries(p: seq<PollFd>, idx: map<int, int>, i: nat, fd: int)
    requires Bijection(p, idx) && i < |p| && fd in SwapRemovedIndex(p, idx, i)
    ensures fd in idx && fd != Decode(p[i].fd)
    ensures var j := SwapRemovedIndex(p, idx, i)[fd];
            0 <= j < |p| - 1 && SwapRemoved(p, i)[j] == p[idx[fd]]
  {
    SwapRemovedContents(p, i);
    SwapRemoveKeepsBijection(p, idx, i);
  }

  lemma AppendKeepsBijection(p: seq<PollFd>, idx: map<int, int>, e: PollFd)
    requires Bijection(p, idx) && Decode(e.fd) !in idx
    ensures Bijection(p + [e], idx[Decode(e.fd) := |p|])
  {
  }

  lemma RewriteKeepsBijection(p: seq<PollFd>, idx: map<int, int>, i: nat, e: PollFd)
    requires Bijection(p, idx) && i < |p| && Decode(e.fd) == Decode(p[i].fd)
    ensures Bijection(p[i := e], idx)
  {
  }

  /** Exactly the muted descriptors are encoded, that is, ignored by poll. */
  ghost predicate Ignored(p: seq<PollFd>, muted: set<int>) {
    forall i :: 0 <= i < |p| ==> (p[i].fd < 0 <==> Decode(p[i].fd) in muted)
  }

  lemma SwapRemoveKeepsIgnored(p: seq<PollFd>, idx: map<int, int>, i: nat, muted: set<int>)
    requires Bijection(p, idx) && Ignored(p, muted) && i < |p|
    ensures Ignored(SwapRemoved(p, i), muted - {Decode(p[i].fd)})
  {
    var r := SwapRemoved(p, i);
    forall j | 0 <= j < |r|
      ensures r[j].fd < 0 <==> Decode(r[j].fd) in muted - {Decode(p[i].fd)}
    {
      var k := if j == i then |p| - 1 else j;
      assert r[j] == p[k];
      assert Decode(p[k].fd) != Decode(p[i].fd);
    }
  }

  /** The array, its index, the muted descriptors and the interests. */
  datatype Table = Table(p: seq<PollFd>, idx: map<int, int>, muted: set<int>, wanted: map<int, int>)

  ghost predicate Consistent(t: Table) {
    && Bijection(t.p, t.idx) && Ignored(t.p, t.muted) && Interested(t.p, t.wanted)
    && t.muted <= t.idx.Keys && t.wanted.Keys == t.idx.Keys
  }

  /** A proof opens a table that agrees by mentioning `Open`; where it does not, tables are passed around
      without their quantified facts, which keeps those proofs small. */
  predicate Open(t: Table) { true }

  ghost predicate Agrees(t: Table) {
    forall u: Table {:trigger Open(u)} :: Open(u) && u == t ==> Consistent(u)
  }

  /** The entry of a registered descriptor. */
  lemma EntryOf(t: Table, fd: int)
    requires Agrees(t) && fd in t.idx
    ensures 0 <= t.idx[fd] < |t.p| && Decode(t.p[t.idx[fd]].fd) == fd
    ensures t.p[t.idx[fd]].fd < 0 <==> fd in t.muted
    ensures t.p[t.idx[fd]].fd == if fd in t.muted then 0 - fd - 1 else fd
  {
    assert Open(t);
  }

  /** The last entry is that of another registered descriptor. */
  lemma LastEntry(t: Table, i: nat)
    requires Agrees(t) && i < |t.p| - 1
    ensures Decode(t.p[|t.p| - 1].fd) in t.idx.Keys - {Decode(t.p[i].fd)}
  {
    assert Open(t);
  }

  /** The descriptor of an entry is registered. */
  lemma DescriptorOf(t: Table, i: nat)
    requires Agrees(t) && i < |t.p|
    ensures Decode(t.p[i].fd) in t.idx && t.idx[Decode(t.p[i].fd)] == i
  {
    assert Open(t);
  }

  lemma AppendKeepsTable(p: seq<PollFd>, idx: map<int, int>, muted: set<int>, wanted: map<int, int>, fd: nat, events: int)
    requires Agrees(Table(p, idx, muted, wanted)) && fd !in idx
    ensures Agrees(Table(p + [PollFd(fd, events, 0)], idx[fd as int := |p|], muted, wanted[fd as int := events]))
  {
    assert Open(Table(p, idx, muted, wanted));
    AppendKeepsBijection(p, idx, PollFd(fd, events, 0));
    forall i | 0 <= i < |p| ensures Decode(p[i].fd) != fd { assert Decode(p[i].fd) in idx; }
  }

  lemma RewriteKeepsTable(p: seq<PollFd>, idx: map<int, int>, muted: set<int>, wanted: map<int, int>, i: nat, e: PollFd)
    requires Agrees(Table(p, idx, muted, wanted)) && i < |p| && Decode(e.fd) == Decode(p[i].fd)
    requires p[i].fd < 0 ==> e.fd < 0
    ensures Agrees(Table(p[i := e], idx, if e.fd < 0 then muted + {Decode(e.fd) as int} else muted,
                         wanted[Decode(e.fd) as int := e.events]))
  {
    assert Open(Table(p, idx, muted, wanted));
    RewriteKeepsBijection(p, idx, i, e);
    forall j | 0 <= j < |p| && j != i ensures Decode(p[j].fd) != Decode(e.fd) {
      if Decode(p[j].fd) == Decode(p[i].fd) { BijectionIsInjective(p, idx, i, j); }
    }
  }

  lemma SwapRemoveKeepsTable(p: seq<PollFd>, idx: map<int, int>, muted: set<int>, wanted: map<int, int>, i: nat)
    requires Agrees(Table(p, idx, muted, wanted)) && i < |p|
    ensures Agrees(Table(SwapRemoved(p, i), SwapRemovedIndex(p, idx, i), muted - {Decode(p[i].fd)}, wanted - {Decode(p[i].fd)}))
    ensures SwapRemovedIndex(p, idx, i).Keys == idx.Keys - {Decode(p[i].fd)}
  {
    assert Open(Table(p, idx, muted, wanted));
    SwapRemoveKeepsBijection(p, idx, i);
    SwapRemoveKeepsIgnored(p, idx, i, muted);
    SwapRemoveKeepsInterested(p, idx, i, wanted);
  }

  // ---------- ready entries ----------

  /** The entries with returned events, in array order. */
  function Ready(p: seq<PollFd>): seq<PollFd> {
    if p == [] then []
    else
      var last := p[|p| - 1];
      Ready(p[..|p| - 1]) + if last.revents > 0 then [last] else []
  }

  /** poll(2) returns no events for a negative descriptor. */
  ghost predicate KernelIgnoresNegative(p: seq<PollFd>) {
    forall i :: 0 <= i < |p| && p[i].revents > 0 ==> 0 <= p[i].fd
  }

  lemma ReadyStep(p: seq<PollFd>, i: nat)
    requires i < |p|
    ensures Ready(p[..i + 1]) == if p[i].revents > 0 then Ready(p[..i]) + [p[i]] else Ready(p[..i])
  {
    assert p[..i + 1][..i] == p[..i];
  }

  lemma {:induction false} ReadyPrefix(p: seq<PollFd>, i: nat)
    requires i <= |p|
    ensures Ready(p[..i]) <= Ready(p)
    decreases |p| - i
  {
    if i < |p| {
      ReadyStep(p, i);
      ReadyPrefix(p, i + 1);
    } else {
      assert p[..i] == p;
    }
  }

  function FirstReady(p: seq<PollFd>, n: nat): seq<PollFd> {
    if n < |Ready(p)| then Ready(p)[..n] else Ready(p)
  }

  /** A scan may stop at the end of the array or when it has found as many as announced. */
  lemma ReadyFound(p: seq<PollFd>, i: nat, n: nat)
    requires i <= |p| && |Ready(p[..i])| <= n
    requires i == |p| || |Ready(p[..i])| == n
    ensures Ready(p[..i]) == FirstReady(p, n)
  {
    ReadyPrefix(p, i);
    if i == |p| { assert p[..i] == p; }
  }

  /** The ready entries are exactly those with events... */
  lemma {:induction false} ReadyMember(p: seq<PollFd>, e: PollFd)
    ensures e in Ready(p) <==> e in p && e.revents > 0
  {
    if p != [] {
      ReadyMember(p[..|p| - 1], e);
      assert p == p[..|p| - 1] + [p[|p| - 1]];
    }
  }

  /** A ready entry of a prefix has another descriptor than the entry that follows the prefix. */
  lemma ReadyBefore(p: seq<PollFd>, idx: map<int, int>, n: nat, e: PollFd)
    requires Bijection(p, idx) && n < |p| && e in Ready(p[..n])
    ensures e.fd != p[n].fd
  {
    ReadyMember(p[..n], e);
    var i :| 0 <= i < n && p[..n][i] == e;
    if p[i].fd == p[n].fd { BijectionIsInjective(p, idx, i, n); }
  }

  ghost predicate DistinctFds(q: seq<PollFd>) {
    forall a, b :: 0 <= a < b < |q| ==> q[a].fd != q[b].fd
  }

  /** ... each descriptor listed once. */
  lemma {:induction false} ReadyDistinct(p: seq<PollFd>, idx: map<int, int>, n: nat)
    requires Bijection(p, idx) && n <= |p|
    ensures DistinctFds(Ready(p[..n]))
  {
    if n != 0 {
      ReadyDistinct(p, idx, n - 1);
      ReadyStep(p, n - 1);
      forall e | e in Ready(p[..n - 1]) ensures e.fd != p[n - 1].fd {
        ReadyBefore(p, idx, n - 1, e);
      }
      DistinctSnoc(Ready(p[..n - 1]), p[n - 1]);
    }
  }

  lemma DistinctSnoc(q: seq<PollFd>, e: PollFd)
    requires DistinctFds(q) && forall d :: d in q ==> d.fd != e.fd
    ensures DistinctFds(q + [e])
  {
  }

  /** A muted channel is never reported again, whatever interest it registers later. */
  lemma MutedIsNeverReady(p: seq<PollFd>, muted: set<int>, e: PollFd)
    requires Ignored(p, muted) && KernelIgnoresNegative(p) && e in Ready(p)
    ensures 0 <= e.fd && e.fd !in muted
  {
    ReadyMember(p, e);
    var i :| 0 <= i < |p| && p[i] == e;
  }

  lemma TableReady(t: Table, n: nat)
    requires Agrees(t) && n <= |t.p|
    ensures DistinctFds(Ready(t.p[..n]))
  {
    assert Open(t);
    ReadyDistinct(t.p, t.idx, n);
  }

  // ---------- the objects ----------

  class Channel {
    const fd: nat
    var events: int
    var revents: int
    var index: int

    constructor (fd: nat)
      ensures this.fd == fd && events == NONE_EVENT && index < 0
    {
      this.fd := fd;
      events, revents, index := NONE_EVENT, NONE_EVENT, -1;
    }
  }

  class PollPoller {
    var pollfds: seq<PollFd>
    var channels: map<int, Channel>

    /** The registered descriptors that some update has found without interest. */
    ghost var muted: set<int>

    /** The interest each registered channel had at its last update. */
    ghost var wanted: map<int, int>

    /** The index each registered channel stores. */
    ghost var index: map<int, int>

    ghost predicate Indexed()
      reads this, channels.Values`index
    {
      && index.Keys == channels.Keys
      && forall fd :: fd in channels ==> channels[fd].fd == fd && channels[fd].index == index[fd]
    }

    ghost predicate Valid()
      reads this, channels.Values`index
    {
      Indexed() && Agrees(Table(pollfds, index, muted, wanted))
    }

    constructor ()
      ensures Valid() && channels == map[] && pollfds == []
    {
      pollfds, channels, muted, wanted, index := [], map[], {}, map[], map[];
    }

    /** Registers a new channel, or updates the interest of a registered one. */
    method UpdateChannel(c: Channel)
      requires Valid()
      requires if c.index < 0 then c.fd !in channels else c.fd in channels && channels[c.fd] == c
      modifies this, c`index
      ensures Valid()
      ensures channels == old(channels)[c.fd := c] && wanted == old(wanted)[c.fd := c.events]
      ensures old(c.index) < 0 ==>
                && pollfds == old(pollfds) + [PollFd(c.fd, c.events, 0)] && c.index == |old(pollfds)|
                && muted == old(muted)
      ensures old(c.index) >= 0 ==>
                && c.index == old(c.index) < |old(pollfds)|
                && muted == (if c.events == NONE_EVENT then old(muted) + {c.fd as int} else old(muted))
                && pollfds == old(pollfds)[old(c.index) := PollFd(if c.fd in muted then Encode(c.fd) else c.fd, c.events, 0)]
    {
      if c.index < 0 {
        Register(c);
      } else {
        Revise(c);
        assert channels == channels[c.fd as int := c];
      }
    }

    method Register(c: Channel)
      requires Valid() && c.fd !in channels
      modifies this, c`index
      ensures Valid()
      ensures channels == old(channels)[c.fd := c] && wanted == old(wanted)[c.fd := c.events]
      ensures pollfds == old(pollfds) + [PollFd(c.fd, c.events, 0)] && c.index == |old(pollfds)|
      ensures muted == old(muted)
    {
      assert forall fd :: fd in channels ==> channels[fd] != c;
      AppendKeepsTable(pollfds, index, muted, wanted, c.fd, c.events);
      pollfds := pollfds + [PollFd(c.fd, c.events, 0)];
      c.index := |pollfds| - 1;
      channels := channels[c.fd := c];
      wanted, index := wanted[c.fd := c.events], index[c.fd := c.index];
    }

    /** The encoding is never undone: an entry that was muted stays ignored by poll whatever its
        interest is now. */
    method Revise(c: Channel)
      requires Valid() && c.fd in channels && channels[c.fd] == c
      modifies this`pollfds, this`muted, this`wanted
      ensures Valid() && 0 <= c.index < |old(pollfds)| && wanted == old(wanted)[c.fd := c.events]
      ensures muted == (if c.events == NONE_EVENT then old(muted) + {c.fd as int} else old(muted))
      ensures pollfds == old(pollfds)[c.index := PollFd(if c.fd in muted then Encode(c.fd) else c.fd, c.events, 0)]
    {
      var i := c.index;
      ghost var t := Table(pollfds, index, muted, wanted);
      EntryOf(t, c.fd);
      var e := pollfds[i].(events := c.events, revents := 0);
      if c.events == NONE_EVENT {
        e := e.(fd := Encode(c.fd));
        muted := muted + {c.fd};
      }
      DecodeEncode(c.fd);
      RewriteKeepsTable(pollfds, index, old(muted), wanted, i, e);
      assert muted == if e.fd < 0 then old(muted) + {c.fd as int} else old(muted);
      pollfds := pollfds[i := e];
      wanted := wanted[c.fd := c.events];
    }

    /** A registered channel meets the assertions of `RemoveChannel` if and only if it has no interest
        now, and some update since its registration has found it without interest: registering it
        without interest is not enough, and neither is having been muted once. */
    lemma RemovableIff(c: Channel)
      requires Valid() && c.fd in channels && channels[c.fd] == c
      ensures 0 <= c.index < |pollfds|
      ensures pollfds[c.index].fd == Encode(c.fd) <==> c.fd in muted
      ensures c.events == NONE_EVENT && pollfds[c.index].fd == Encode(c.fd) <==> c.events == NONE_EVENT && c.fd in muted
    {
      EntryOf(Table(pollfds, index, muted, wanted), c.fd);
    }

    /** Only a channel without interest, whose entry is muted, is removed. The channel keeps its
        stale index, so it does not meet the precondition of `UpdateChannel` again. */
    method RemoveChannel(c: Channel)
      requires Valid() && c.fd in channels && channels[c.fd] == c
      requires c.events == NONE_EVENT && 0 <= c.index < |pollfds| && pollfds[c.index].fd == Encode(c.fd)
      modifies this, channels.Values`index
      ensures Valid()
      ensures channels == old(channels) - {c.fd} && muted == old(muted) - {c.fd} && wanted == old(wanted) - {c.fd}
      ensures c.index == old(c.index)
      ensures pollfds == SwapRemoved(old(pollfds), old(c.index))
      ensures multiset(pollfds) == multiset(old(pollfds)) - multiset{old(pollfds)[old(c.index)]}
      ensures index == SwapRemovedIndex(old(pollfds), old(index), old(c.index))
    {
      ghost var p, i := pollfds, c.index;
      Unlist(c);
      SwapRemovedContents(p, i);
    }

    /** The two erasures of `RemoveChannel`. */
    method Unlist(c: Channel)
      requires Valid() && c.fd in channels && channels[c.fd] == c
      modifies this, channels.Values`index
      ensures Valid()
      ensures channels == old(channels) - {c.fd} && muted == old(muted) - {c.fd} && wanted == old(wanted) - {c.fd}
      ensures c.index == old(c.index) && 0 <= c.index < |old(pollfds)|
      ensures pollfds == SwapRemoved(old(pollfds), c.index)
      ensures index == SwapRemovedIndex(old(pollfds), old(index), c.index)
    {
      var i, last := c.index, |pollfds| - 1;
      ghost var t := Table(pollfds, index, muted, wanted);
      EntryOf(t, c.fd);
      SwapRemoveKeepsTable(pollfds, index, muted, wanted, i);
      channels := channels - {c.fd};
      muted, wanted := muted - {c.fd}, wanted - {c.fd};
      if i == last {
        pollfds, index := pollfds[..last], index - {c.fd};
      } else {
        LastEntry(t, i);
        MoveLast(i);
      }
    }

    /** The last entry takes the place of entry `i`, and its channel is told. */
    method MoveLast(i: nat)
      requires i < |pollfds| - 1 && Decode(pollfds[|pollfds| - 1].fd) in channels
      requires channels.Keys == index.Keys - {Decode(pollfds[i].fd)}
      requires forall fd :: fd in channels ==> channels[fd].fd == fd && channels[fd].index == index[fd]
      modifies this`pollfds, this`index, channels.Values`index
      ensures pollfds == SwapRemoved(old(pollfds), i)
      ensures Indexed() && index == SwapRemovedIndex(old(pollfds), old(index), i)
    {
      var last := |pollfds| - 1;
      var atEnd := pollfds[last].fd;
      if atEnd < 0 {
        atEnd := 0 - atEnd - 1;
      }
      assert forall fd :: fd in channels && fd != atEnd ==> channels[fd] != channels[atEnd];
      index := (index - {Decode(pollfds[i].fd)})[atEnd := i];
      pollfds := pollfds[i := pollfds[last]][last := pollfds[i]];
      channels[atEnd].index := i;
      pollfds := pollfds[..last];
    }

    /** `active` are the channels of these entries, each told its events. */
    ghost predicate Reported(active: seq<Channel>, ready: seq<PollFd>)
      reads this, channels.Values
    {
      && |active| == |ready|
      && (forall k :: 0 <= k < |active| ==> active[k] in channels.Values)
      && forall k :: 0 <= k < |active| ==> active[k].fd == ready[k].fd && active[k].revents == ready[k].revents
    }

    /** Given the true number of entries with events, every channel that has events, and no other,
        is listed, once each (ReadyMember, ReadyDistinct), and is told its events. */
    method FillActiveChannels(numReady: nat) returns (active: seq<Channel>)
      requires Valid() && KernelIgnoresNegative(pollfds)
      modifies channels.Values`revents
      ensures Valid()
      ensures Reported(active, FirstReady(pollfds, numReady))
      ensures forall d :: d in channels.Values && d !in active ==> d.revents == old(d.revents)
    {
      active := [];
      var remaining, i := numReady, 0;
      while i < |pollfds| && remaining > 0
        invariant 0 <= i <= |pollfds| && 0 <= remaining == numReady - |active|
        invariant Reported(active, Ready(pollfds[..i]))
        invariant forall d :: d in channels.Values && d !in active ==> d.revents == old(d.revents)
      {
        ReadyStep(pollfds, i);
        if pollfds[i].revents > 0 {
          remaining := remaining - 1;
          var target := ReportEntry(active, i);
          active := active + [target];
        }
        i := i + 1;
      }
      ReadyFound(pollfds, i, numReady);
    }

    method ReportEntry(ghost before: seq<Channel>, i: nat) returns (target: Channel)
      requires Valid() && KernelIgnoresNegative(pollfds)
      requires i < |pollfds| && pollfds[i].revents > 0 && Reported(before, Ready(pollfds[..i]))
      modifies channels.Values`revents
      ensures Reported(before + [target], Ready(pollfds[..i + 1]))
      ensures forall d :: d in channels.Values && d != target ==> d.revents == old(d.revents)
    {
      ReadyStep(pollfds, i);
      ghost var t := Table(pollfds, index, muted, wanted);
      DescriptorOf(t, i);
      TableReady(t, i + 1);
      target := channels[pollfds[i].fd];
      ghost var ready := Ready(pollfds[..i + 1]);
      assert ready == Ready(pollfds[..i]) + [pollfds[i]];
      forall k | 0 <= k < |before| ensures before[k] != target {
        assert ready[k].fd != ready[|before|].fd;
      }
      target.revents := pollfds[i].revents;
    }
  }

  /** A channel that is muted and then given interest again has a muted entry and cannot be removed. */
  method MuteThenInterest(p: PollPoller, c: Channel, events: int)
    requires p.Valid() && c.fd in p.channels && p.channels[c.fd] == c && events != NONE_EVENT
    modifies p, c`events, c`index
    ensures p.Valid() && c.fd in p.channels && p.channels[c.fd] == c && 0 <= c.index < |p.pollfds|
    ensures p.pollfds[c.index].fd == Encode(c.fd) && c.events != NONE_EVENT
  {
    p.RemovableIff(c);
    c.events := NONE_EVENT;
    p.UpdateChannel(c);
    c.events := events;
    p.UpdateChannel(c);
    p.RemovableIff(c);
  }

  /** After its first registration no channel meets that assertion, not even one without interest. */
  method FirstRegistration(p: PollPoller, c: Channel)
    requires p.Valid() && c.index < 0 && c.fd !in p.channels
    modifies p, c`index
    ensures p.Valid() && c.fd in p.channels && p.channels[c.fd] == c && 0 <= c.index < |p.pollfds|
    ensures c.events == old(c.events) && p.pollfds[c.index].fd != Encode(c.fd)
  {
    p.UpdateChannel(c);
    p.RemovableIff(c);
  }
}
