/** base/allocator/mem_pool: the loop-level allocator. Requests of 1..512 bytes are served from 64
    segregated free lists threaded through the free blocks themselves, refilled in batches from a
    bump region, which in turn is refilled from malloc, from larger free blocks, or from the
    first-level allocator. The invariant is a sound `Layout` of module Blocks plus intact chains. */
module MemPools {
  import opened Blocks

  const MAX_BYTES: nat := 512
  const BATCH: nat := 20

  function RoundUp(n: nat): (r: nat)
    ensures r % ALIGN == 0 && n <= r < n + ALIGN
  {
    (n + 7) / 8 * 8
  }

  /** What to ask malloc for: two batches and a sixteenth of the heap so far. */
  function BytesToGet(total: nat, heapSize: nat): (bytes: nat)
    requires total % ALIGN == 0
    ensures bytes % ALIGN == 0 && 2 * total <= bytes
  {
    var extra := RoundUp(heapSize / 16);
    AlignedSum(total, extra);
    2 * total + extra
  }

  lemma AlignedSum(total: nat, extra: nat)
    requires total % ALIGN == 0 && extra % ALIGN == 0
    ensures (2 * total + extra) % ALIGN == 0
  {
    var t, e := total / 8, extra / 8;
    assert 2 * total + extra == 8 * (2 * t + e);
  }

  function ListIndex(n: nat): int { (n + 7) / 8 - 1 }

  /** Rounding gives the least sufficient multiple of eight, and the list index of a request is the
      one list whose blocks have exactly that size. */
  lemma SizeClasses(n: nat)
    requires 1 <= n <= MAX_BYTES
    ensures n <= RoundUp(n) < n + ALIGN && RoundUp(n) % ALIGN == 0 && RoundUp(n) <= MAX_BYTES
    ensures 0 <= ListIndex(n) < LISTS && ClassSize(ListIndex(n)) == RoundUp(n)
    ensures ListIndex(RoundUp(n)) == ListIndex(n)
  {
  }

  // ---------- words and chains ----------

  /** The word at an address; memory never written reads as some fixed word. */
  function Word(words: map<int, int>, x: int): int { if x in words then words[x] else 0 }

  /** Following `next` words from `head` visits exactly `nodes` and then arrives at `end`. */
  ghost predicate Segment(words: map<int, int>, head: int, nodes: seq<int>, end: int)
    decreases |nodes|
  {
    if nodes == [] then head == end
    else head == nodes[0] && Segment(words, Word(words, head), nodes[1..], end)
  }

  ghost predicate Agree(w: map<int, int>, w': map<int, int>, s: set<Block>) {
    forall x :: Covered(x, s) ==> Word(w', x) == Word(w, x)
  }

  lemma AgreeWrite(w0: map<int, int>, w: map<int, int>, s: set<Block>, t: set<Block>, a: int)
    requires Agree(w0, w, s) && s <= t && forall x :: Covered(x, t) ==> x != a
    ensures forall v: int {:trigger w[a := v]} :: Agree(w0, w[a := v], s)
  {
    forall x | Covered(x, s) ensures Covered(x, t) {
      var b :| b in s && In(x, b);
      assert b in t;
    }
  }

  /** A write elsewhere leaves a segment alone. */
  lemma {:induction false} SegmentFrame(w: map<int, int>, w': map<int, int>, head: int, nodes: seq<int>, end: int)
    requires Segment(w, head, nodes, end)
    requires forall i :: 0 <= i < |nodes| ==> Word(w', nodes[i]) == Word(w, nodes[i])
    ensures Segment(w', head, nodes, end)
    decreases |nodes|
  {
    if nodes != [] {
      SegmentFrame(w, w', Word(w, head), nodes[1..], end);
    }
  }

  /** Writing the link of the node at the end makes it part of the segment. */
  lemma {:induction false} SegmentSnoc(w: map<int, int>, head: int, nodes: seq<int>, end: int, v: int)
    requires Segment(w, head, nodes, end) && forall i :: 0 <= i < |nodes| ==> nodes[i] != end
    ensures Segment(w[end := v], head, nodes + [end], v)
    decreases |nodes|
  {
    var more := nodes + [end];
    if nodes == [] {
      assert more[1..] == [];
    } else {
      assert more[1..] == nodes[1..] + [end];
      SegmentSnoc(w, Word(w, head), nodes[1..], end, v);
    }
  }

  /** A null head means an empty list: no block lives at null. */
  lemma NodesAreNotNull(l: SoundLayout, k: int)
    requires 0 <= k < LISTS
    ensures l.lists[k] != [] ==> 0 < l.lists[k][0]
  {
    assert Open(l);
    if l.lists[k] != [] {
      FreeMember(l.lists, k, 0);
      assert Block(l.lists[k][0], ClassSize(k)) in Pieces(l);
    }
  }

  /** The list heads thread exactly the free lists. */
  ghost predicate Chains(w: map<int, int>, heads: seq<int>, lists: seq<seq<int>>) {
    && |heads| == |lists| == LISTS
    && forall k :: 0 <= k < LISTS ==> Segment(w, heads[k], lists[k], 0)
  }

  lemma PoolIsProper(l: SoundLayout)
    ensures 0 < l.pool.size ==> Proper(l.pool)
  {
    assert Open(l);
    assert 0 < l.pool.size ==> l.pool in Pieces(l);
  }

  lemma InHandIsNotLive(l: SoundLayout, a: int, size: int, n: int)
    requires Block(a, size) in l.loose && 0 < size
    ensures Block(a, n) !in l.live || n <= 0
  {
    assert Open(l);
    var b, c := Block(a, size), Block(a, n);
    assert b in Pieces(l);
    assert c in l.live && 0 < n ==> c in Pieces(l) && (c == b || !Apart(b, c));
  }

  /** No byte of a live block lies inside a free block's link. */
  lemma StoreKeepsChains(l: SoundLayout, b: Block, x: int, v: int, w: map<int, int>, heads: seq<int>)
    requires b in l.live && In(x, b) && Chains(w, heads, l.lists)
    ensures forall k, i :: 0 <= k < LISTS && 0 <= i < |l.lists[k]| ==> !InLink(x, l.lists[k][i])
    ensures Chains(w[x := v], heads, l.lists)
  {
    assert Open(l);
    forall k, i | 0 <= k < LISTS && 0 <= i < |l.lists[k]| ensures !InLink(x, l.lists[k][i]) {
      FreeMember(l.lists, k, i);
      var c := Block(l.lists[k][i], ClassSize(k));
      assert b in Pieces(l) && c in Pieces(l) && b != c && Apart(b, c);
    }
    forall k | 0 <= k < LISTS ensures Segment(w[x := v], heads[k], l.lists[k], 0) {
      SegmentFrame(w, w[x := v], heads[k], l.lists[k], 0);
    }
  }

  lemma PieceIsElsewhere(l: SoundLayout, a: Block, b: Block, x: int)
    requires forall c :: c in l.areas ==> Apart(c, a)
    requires b in Pieces(l) && In(x, b)
    ensures !In(x, a)
  {
    assert Open(l);
    assert Covered(x, Pieces(l));
    var c :| c in l.areas && In(x, c);
    assert Apart(c, a);
  }

  /** Whatever malloc leaves in a fresh area, no chain and no live byte is affected. */
  lemma FreshArea(l: SoundLayout, a: Block, w: map<int, int>, w': map<int, int>, heads: seq<int>)
    requires forall c :: c in l.areas ==> Apart(c, a)
    requires forall x :: !In(x, a) ==> Word(w', x) == Word(w, x)
    requires Chains(w, heads, l.lists)
    ensures Agree(w, w', l.live)
    ensures Chains(w', heads, l.lists)
  {
    assert Open(l);
    forall x | Covered(x, l.live) ensures !In(x, a) {
      var b :| b in l.live && In(x, b);
      PieceIsElsewhere(l, a, b, x);
    }
    forall k, i | 0 <= k < LISTS && 0 <= i < |l.lists[k]| ensures !In(l.lists[k][i], a) {
      FreeMember(l.lists, k, i);
      PieceIsElsewhere(l, a, Block(l.lists[k][i], ClassSize(k)), l.lists[k][i]);
    }
    forall k | 0 <= k < LISTS ensures Segment(w', heads[k], l.lists[k], 0) {
      SegmentFrame(w, w', heads[k], l.lists[k], 0);
    }
  }

  lemma PopChains(l: SoundLayout, w: map<int, int>, heads: seq<int>, k: int)
    requires Chains(w, heads, l.lists) && 0 <= k < LISTS && l.lists[k] != []
    ensures heads[k] == l.lists[k][0]
    ensures Chains(w, heads[k := Word(w, heads[k])], Take(l, k).lists)
  {
  }

  /** Linking a block in hand in at the front of its list disturbs no other chain and no live byte. */
  lemma PushChains(l: SoundLayout, w: map<int, int>, heads: seq<int>, k: int, a: int)
    requires Chains(w, heads, l.lists) && 0 <= k < LISTS && Block(a, ClassSize(k)) in l.loose
    ensures Chains(w[a := heads[k]], heads[k := a], PutFront(l, k, a).lists)
    ensures Agree(w, w[a := heads[k]], l.live)
    ensures forall x :: InLink(x, a) ==> !Covered(x, l.live)
  {
    LooseIsElsewhere(l, Block(a, ClassSize(k)));
    assert InLink(a, a);
    var w' := w[a := heads[k]];
    forall j | 0 <= j < LISTS ensures Segment(w', heads[j], l.lists[j], 0) {
      SegmentFrame(w, w', heads[j], l.lists[j], 0);
    }
    assert ([a] + l.lists[k])[1..] == l.lists[k];
  }

  // ---------- the process heap ----------

  /** A request for an area, and the address it got. */
  datatype Asked = Asked(bytes: nat, answer: int)

  /** The process heap behind malloc. `owned` are all areas ever handed out, to anyone. */
  class Heap {
    var words: map<int, int>
    ghost var owned: set<Block>
    var top: int

    /** What malloc and the first-level allocator were asked for, and answered. */
    ghost var mallocs: seq<Asked>
    ghost var masters: seq<Asked>

    ghost predicate Valid()
      reads this
    {
      && 0 < top && top % ALIGN == 0
      && forall b :: b in owned ==> b.addr + b.size <= top
    }

    constructor ()
      ensures Valid() && owned == {} && mallocs == masters == []
    {
      words, owned, top, mallocs, masters := map[], {}, ALIGN, [], [];
    }

    /** Null, or a fresh aligned area disjoint from every other one; its contents are arbitrary. */
    method Grant(n: nat) returns (p: int)
      requires Valid() && 0 < n && n % ALIGN == 0
      modifies this`words, this`owned, this`top
      ensures Valid()
      ensures p == 0 ==> owned == old(owned) && words == old(words)
      ensures p != 0 ==>
                && Proper(Block(p, n)) && owned == old(owned) + {Block(p, n)}
                && (forall b :: b in old(owned) ==> Apart(b, Block(p, n)))
                && (forall x :: !In(x, Block(p, n)) ==> Word(words, x) == Word(old(words), x))
    {
      if * {
        p := 0;
      } else {
        p := top;
        owned := owned + {Block(top, n)};
        top := top + n;
      }
    }

    /** malloc(3). Clients rely on this contract only. */
    method Malloc(n: nat) returns (p: int)
      requires Valid() && 0 < n && n % ALIGN == 0
      modifies this
      ensures Valid()
      ensures mallocs == old(mallocs) + [Asked(n, p)] && masters == old(masters)
      ensures p == 0 ==> owned == old(owned) && words == old(words)
      ensures p != 0 ==>
                && Proper(Block(p, n)) && owned == old(owned) + {Block(p, n)}
                && (forall b :: b in old(owned) ==> Apart(b, Block(p, n)))
                && (forall x :: !In(x, Block(p, n)) ==> Word(words, x) == Word(old(words), x))
    {
      p := Grant(n);
      mallocs := mallocs + [Asked(n, p)];
    }

    /** free(3); null is ignored. */
    method Free(p: int)
      requires Valid()
      modifies this`owned
      ensures Valid() && owned == set b | b in old(owned) && (p == 0 || b.addr != p)
    {
      owned := set b | b in owned && (p == 0 || b.addr != p);
    }

    /** The first-level allocator: malloc, then rounds of calling the out-of-memory handler and trying
        again, as long as there is a handler. Null stands for the exception thrown when there is none;
        what a handler frees is not in `owned`. */
    method MasterAllocate(n: nat) returns (p: int)
      requires Valid() && 0 < n && n % ALIGN == 0
      modifies this
      ensures Valid()
      ensures masters == old(masters) + [Asked(n, p)] && mallocs == old(mallocs)
      ensures p == 0 ==> owned == old(owned) && words == old(words)
      ensures p != 0 ==>
                && Proper(Block(p, n)) && owned == old(owned) + {Block(p, n)}
                && (forall b :: b in old(owned) ==> Apart(b, Block(p, n)))
                && (forall x :: !In(x, Block(p, n)) ==> Word(words, x) == Word(old(words), x))
    {
      p := Grant(n);
      var rounds: nat := *;
      while p == 0 && rounds > 0
        invariant Valid() && masters == old(masters) && mallocs == old(mallocs)
        invariant p == 0 ==> owned == old(owned) && words == old(words)
        invariant p != 0 ==>
                && Proper(Block(p, n)) && owned == old(owned) + {Block(p, n)}
                && (forall b :: b in old(owned) ==> Apart(b, Block(p, n)))
                && (forall x :: !In(x, Block(p, n)) ==> Word(words, x) == Word(old(words), x))
        decreases rounds
      {
        p := Grant(n);
        rounds := rounds - 1;
      }
      masters := masters + [Asked(n, p)];
    }
  }

  // ---------- the pool ----------

  /** `recorded` are the areas the destructor returns: all but those in `unrecorded`. */
  ghost predicate Recorded(recorded: seq<int>, areas: set<Block>, unrecorded: set<Block>) {
    && unrecorded <= areas
    && (forall b :: b in areas - unrecorded ==> b.addr in recorded)
    && (forall b :: b in unrecorded ==> b.addr !in recorded)
    && (forall p :: p in recorded && p != 0 ==> exists b :: b in areas && b.addr == p)
  }

  /** Recording a failed malloc's null changes nothing. */
  lemma RecordNull(recorded: seq<int>, l: SoundLayout, unrecorded: set<Block>)
    requires Recorded(recorded, l.areas, unrecorded)
    ensures Recorded(recorded + [0], l.areas, unrecorded)
  {
    assert Open(l);
  }

  lemma RecordArea(recorded: seq<int>, l: SoundLayout, unrecorded: set<Block>, a: Block)
    requires Recorded(recorded, l.areas, unrecorded) && Proper(a)
    requires forall b :: b in l.areas ==> Apart(b, a)
    ensures Recorded(recorded + [a.addr], l.areas + {a}, unrecorded)
    ensures Recorded(recorded, l.areas + {a}, unrecorded + {a})
  {
    assert Open(l);
    forall b | b in l.areas ensures b.addr != a.addr { assert Apart(b, a) && Proper(b); }
    forall p | p in recorded && p != 0 ensures exists b :: b in l.areas + {a} && b.addr == p {
      var b :| b in l.areas && b.addr == p;
      assert b in l.areas + {a};
    }
    assert a in l.areas + {a};
  }

  /** What the destructor depends on, and what the allocators were asked. */
  datatype Books = Books(recorded: seq<int>, heapSize: nat, unrecorded: set<Block>, mallocs: seq<Asked>, masters: seq<Asked>)

  /** The branch of `chunk_alloc` that asks the first-level allocator was taken, and succeeded: the
      heap has grown although malloc failed. */
  predicate Rescued(b: Books, b': Books) {
    b'.heapSize != b.heapSize && b'.recorded == b.recorded + [0]
  }

  /** The unrecorded areas grow by exactly the area at `p` if that branch was taken, and not otherwise. */
  ghost predicate Kept(b: Books, b': Books, p: int) {
    if Rescued(b, b') then
      b.heapSize < b'.heapSize && Block(p, b'.heapSize - b.heapSize) !in b.unrecorded
      && b'.unrecorded == b.unrecorded + {Block(p, b'.heapSize - b.heapSize)}
    else b'.unrecorded == b.unrecorded
  }

  ghost predicate Booked(b: Books, b': Books) { exists p: int :: Kept(b, b', p) }

  /** The books over the life of a pool, one entry per call of the client. */
  ghost predicate BooksRun(bs: seq<Books>) {
    && bs != [] && bs[0].unrecorded == {}
    && forall i :: 0 <= i < |bs| - 1 ==> Booked(bs[i], bs[i + 1])
  }

  lemma BookedGrows(b: Books, b': Books)
    requires Booked(b, b')
    ensures b'.unrecorded == {} <==> b.unrecorded == {} && !Rescued(b, b')
  {
    var p :| Kept(b, b', p);
    if Rescued(b, b') { assert Block(p, b'.heapSize - b.heapSize) in b'.unrecorded; }
  }

  /** The destructor returns everything if and only if no call took that branch. */
  lemma {:induction false} NothingUnrecordedIff(bs: seq<Books>, n: nat)
    requires BooksRun(bs) && n < |bs|
    ensures bs[n].unrecorded == {} <==> forall i :: 0 <= i < n ==> !Rescued(bs[i], bs[i + 1])
  {
    if n != 0 {
      NothingUnrecordedIff(bs, n - 1);
      BookedGrows(bs[n - 1], bs[n - 1 + 1]);
    }
  }

  /** The first non-empty list from `k` on, or LISTS. */
  function FirstFree(lists: seq<seq<int>>, k: int): (f: int)
    requires 0 <= k <= |lists|
    ensures k <= f <= |lists| && (forall j :: k <= j < f ==> lists[j] == []) && (f < |lists| ==> lists[f] != [])
    decreases |lists| - k
  {
    if k == |lists| || lists[k] != [] then k else FirstFree(lists, k + 1)
  }

  /** A batch of blocks of `n` bytes has been cut from a bump region that started at `p`: `list` are all
      but the first, and there are twenty of them unless fewer than `n` bytes are left. */
  ghost predicate Dealt(list: seq<int>, n: nat, p: int, begin: int, end: int) {
    && Steps(list, p + n, begin, n)
    && |list| < 20 && (|list| + 1 < 20 ==> end - begin < n)
  }

  /** Where a refill of the bump region comes from. malloc is asked first, and its answer is recorded;
      the first-level allocator is asked only if malloc has nothing and no list holds a large enough
      block; the refill fails only if it has nothing either. The heap grows by what was asked for
      exactly if one of the two gave it. */
  ghost predicate Sourced(b: Books, b': Books, bytes: nat, free: bool, ok: bool) {
    && |b'.recorded| > |b.recorded| && b'.recorded == b.recorded + [b'.recorded[|b.recorded|]]
    && var a := b'.recorded[|b.recorded|];
    && b'.mallocs == b.mallocs + [Asked(bytes, a)]
    && if a != 0 then ok && b'.heapSize == b.heapSize + bytes && b'.masters == b.masters
       else if free then ok && b'.heapSize == b.heapSize && b'.masters == b.masters
       else
         && |b'.masters| > |b.masters| && b'.masters == b.masters + [b'.masters[|b.masters|]]
         && b'.masters[|b.masters|].bytes == bytes && ok == (b'.masters[|b.masters|].answer != 0)
         && b'.heapSize == if ok then b.heapSize + bytes else b.heapSize
  }

  /** What becomes of the lists from `k` on and of the bump region, `len` bytes at `begin`: a block is
      taken off the first list that has one if malloc had nothing, and otherwise none is touched. */
  ghost predicate Supplied(b: Books, b': Books, lists: seq<seq<int>>, lists': seq<seq<int>>, k: int, bytes: nat, ok: bool,
                           begin: int, len: int) {
    match b'
    case Books(recorded, _, _, _, _) =>
      && |lists| == |lists'| == LISTS && 0 <= k < LISTS
      && var f := FirstFree(lists, k);
      && Sourced(b, b', bytes, f < LISTS, ok)
      && if recorded[|b.recorded|] == 0 && f < LISTS then
           && (forall j :: k <= j < LISTS ==> lists'[j] == if j == f then lists[j][1..] else lists[j])
           && begin == lists[f][0] && len == ClassSize(f)
         else
           && (forall j :: k <= j < LISTS ==> lists'[j] == lists[j])
           && (ok ==> len == bytes)
  }

  class MemPool {
    const heap: Heap
    const freeLists: array<int>
    var beginFree: int
    var endFree: int
    var heapSize: nat
    var allocatedArea: seq<int>

    /** The blocks handed out, the free lists, the bump region and the areas. */
    ghost var layout: SoundLayout
    ghost var unrecorded: set<Block>

    /** What holds between any two steps; the bump region may be in transit. */
    ghost predicate Inv()
      reads this, freeLists, heap
    {
      && freeLists.Length == LISTS
      && heap.Valid() && layout.areas <= heap.owned
      && heapSize == Bytes(layout.areas)
      && Chains(heap.words, freeLists[..], layout.lists)
      && Recorded(allocatedArea, layout.areas, unrecorded)
    }

    ghost predicate Valid()
      reads this, freeLists, heap
    {
      Inv() && layout.loose == {} && layout.pool == Block(beginFree, endFree - beginFree)
    }

    ghost function Account(): Books
      reads this, heap
    {
      Books(allocatedArea, heapSize, unrecorded, heap.mallocs, heap.masters)
    }

    constructor (heap: Heap)
      requires heap.Valid()
      ensures Valid() && fresh(freeLists) && this.heap == heap
      ensures layout.live == {} && layout.areas == {} && allocatedArea == [] && heapSize == 0 && unrecorded == {}
    {
      this.heap := heap;
      freeLists := new int[LISTS](_ => 0);
      beginFree, endFree, heapSize, allocatedArea := 0, 0, 0, [];
      layout, unrecorded := NOTHING, {};
    }

    // ---------- list heads ----------

    /** Unlinks the front block of list `k` and takes it in hand. */
    method PopHead(k: int) returns (a: int)
      requires 0 <= k < LISTS && Inv() && layout.lists[k] != []
      modifies this`layout, freeLists
      ensures Inv() && a == old(layout).lists[k][0]
      ensures layout == Take(old(layout), k)
    {
      PopChains(layout, heap.words, freeLists[..], k);
      a := freeLists[k];
      freeLists[k] := Word(heap.words, a);
      layout := Take(layout, k);
    }

    /** Links a block in hand in at the front of list `k`. */
    method PushHead(k: int, a: int)
      requires 0 <= k < LISTS && Inv() && Block(a, ClassSize(k)) in layout.loose
      modifies this`layout, freeLists, heap`words
      ensures Inv()
      ensures layout == PutFront(old(layout), k, a)
      ensures Agree(old(heap.words), heap.words, layout.live)
    {
      PushChains(layout, heap.words, freeLists[..], k, a);
      heap.words := heap.words[a := freeLists[k]];
      freeLists[k] := a;
      layout := PutFront(layout, k, a);
    }

    // ---------- chunk_alloc ----------

    /** Files a leftover that is too small for one block into the list of its exact size. */
    method FileLeftover(size: nat)
      requires Valid() && size % ALIGN == 0 && endFree - beginFree < size <= MAX_BYTES
      modifies this`layout, freeLists, heap`words
      ensures Inv() && layout.loose == {} && layout.pool == Block(0, 0)
      ensures layout.live == old(layout).live && layout.areas == old(layout).areas
      ensures forall k :: ListIndex(size) <= k < LISTS ==> layout.lists[k] == old(layout).lists[k]
      ensures Agree(old(heap.words), heap.words, layout.live)
    {
      var left := endFree - beginFree;
      PoolIsProper(layout);
      layout := EmptyPool(layout, Block(0, 0));
      if left > 0 {
        PushHead(ListIndex(left), beginFree);
      }
    }

    /** Makes the front block of list `k` the bump region. */
    method Adopt(k: int, size: int)
      requires 0 <= k < LISTS && size == ClassSize(k)
      requires Inv() && layout.loose == {} && layout.pool == Block(0, 0) && layout.lists[k] != []
      modifies this`layout, this`beginFree, this`endFree, freeLists
      ensures Valid() && endFree - beginFree == size && beginFree == old(layout).lists[k][0]
      ensures layout.live == old(layout).live && layout.areas == old(layout).areas
      ensures layout.lists == old(layout).lists[k := old(layout).lists[k][1..]]
    {
      var a := PopHead(k);
      beginFree := a;
      endFree := a + size;
      layout := FillPool(layout, Block(a, size));
    }

    /** Looks for a free block of at least `size` bytes, smallest class first, and makes it the bump
        region. */
    method Scavenge(size: nat) returns (found: bool)
      requires Inv() && layout.loose == {} && layout.pool == Block(0, 0)
      requires size % ALIGN == 0 && 0 < size <= MAX_BYTES
      modifies this`layout, this`beginFree, this`endFree, freeLists
      ensures 0 <= ListIndex(size) < LISTS && (found <==> FirstFree(old(layout).lists, ListIndex(size)) < LISTS)
      ensures found ==> var f := FirstFree(old(layout).lists, ListIndex(size));
                && beginFree == old(layout).lists[f][0] && endFree - beginFree == ClassSize(f)
                && layout.lists == old(layout).lists[f := old(layout).lists[f][1..]]
      ensures found ==> Valid() && size <= endFree - beginFree
      ensures !found ==> Inv() && layout == old(layout) && beginFree == old(beginFree)
      ensures !found ==> forall k :: ListIndex(size) <= k < LISTS ==> layout.lists[k] == []
      ensures layout.live == old(layout).live && layout.areas == old(layout).areas
      ensures forall k :: ListIndex(size) <= k < LISTS && old(layout).lists[k] == [] ==> layout.lists[k] == []
    {
      var i := size;
      while i <= MAX_BYTES
        invariant size <= i && i % ALIGN == 0
        invariant Inv() && layout == old(layout) && beginFree == old(beginFree)
        invariant forall k :: ListIndex(size) <= k < ListIndex(i) && k < LISTS ==> layout.lists[k] == []
      {
        var k := ListIndex(i);
        NodesAreNotNull(layout, k);
        if freeLists[k] != 0 {
          Adopt(k, i);
          return true;
        }
        i := i + 8;
      }
      return false;
    }

    /** A fresh area becomes the bump region. */
    method AdoptArea(area: int, n: nat, ghost recorded: bool)
      requires freeLists.Length == LISTS && heap.Valid() && heapSize == Bytes(layout.areas)
      requires Chains(heap.words, freeLists[..], layout.lists)
      requires layout.loose == {} && layout.pool == Block(0, 0)
      requires Proper(Block(area, n)) && layout.areas + {Block(area, n)} <= heap.owned
      requires forall b :: b in layout.areas ==> Apart(b, Block(area, n))
      requires Recorded(allocatedArea, layout.areas + {Block(area, n)},
                        unrecorded + if recorded then {} else {Block(area, n)})
      modifies this`layout, this`beginFree, this`endFree, this`heapSize, this`unrecorded
      ensures Valid() && beginFree == area && endFree - beginFree == n && heapSize == old(heapSize) + n
      ensures layout.live == old(layout).live && layout.lists == old(layout).lists
      ensures layout.areas == old(layout).areas + {Block(area, n)}
      ensures unrecorded == old(unrecorded) + if recorded then {} else {Block(area, n)}
    {
      ghost var a := Block(area, n);
      GrowIsSound(layout, layout.(pool := a, areas := layout.areas + {a}), a);
      beginFree := area;
      heapSize := heapSize + n;
      endFree := beginFree + n;
      layout := Grow(layout, a);
      unrecorded := unrecorded + if recorded then {} else {a};
    }

    /** The last resort: an area of the first-level allocator, which is not recorded. */
    method Rescue(bytes: nat) returns (ok: bool)
      requires Inv() && layout.loose == {} && layout.pool == Block(0, 0) && beginFree == 0
      requires 0 < bytes && bytes % ALIGN == 0
      modifies this, heap
      ensures Valid() && allocatedArea == old(allocatedArea)
      ensures layout.live == old(layout).live && layout.lists == old(layout).lists
      ensures ok ==> heapSize == old(heapSize) + bytes && endFree - beginFree == bytes
      ensures ok ==> layout.areas == old(layout).areas + {Block(beginFree, bytes)}
      ensures ok ==> unrecorded == old(unrecorded) + {Block(beginFree, bytes)} && Block(beginFree, bytes) !in old(unrecorded)
      ensures !ok ==> layout == old(layout) && heapSize == old(heapSize) && unrecorded == old(unrecorded)
      ensures heap.masters == old(heap.masters) + [Asked(bytes, if ok then beginFree else 0)] && (ok ==> beginFree != 0)
      ensures heap.mallocs == old(heap.mallocs)
      ensures Agree(old(heap.words), heap.words, layout.live)
    {
      ghost var w := heap.words;
      endFree := 0;
      var area := heap.MasterAllocate(bytes);
      ok := area != 0;
      if ok {
        FreshArea(layout, Block(area, bytes), w, heap.words, freeLists[..]);
        RecordArea(allocatedArea, layout, unrecorded, Block(area, bytes));
        AdoptArea(area, bytes, false);
      }
    }

    /** Refills the empty bump region: from malloc, else from a larger free block, else from the
        first-level allocator. */
    method Replenish(size: nat, bytes: nat) returns (ok: bool)
      requires Inv() && layout.loose == {} && layout.pool == Block(0, 0)
      requires 0 < size <= MAX_BYTES && size % ALIGN == 0 && size <= bytes && bytes % ALIGN == 0
      modifies this, freeLists, heap
      ensures Valid() && layout.live == old(layout).live && old(layout).areas <= layout.areas
      ensures ok ==> size <= endFree - beginFree
      ensures heapSize == old(heapSize) || (ok && heapSize == old(heapSize) + bytes && endFree - beginFree == bytes)
      ensures !ok ==> layout == old(layout) && heapSize == old(heapSize)
      ensures !ok ==> forall k :: ListIndex(size) <= k < LISTS ==> layout.lists[k] == []
      ensures forall k :: ListIndex(size) <= k < LISTS && old(layout).lists[k] == [] ==> layout.lists[k] == []
      ensures Agree(old(heap.words), heap.words, layout.live)
      ensures Kept(old(Account()), Account(), beginFree)
      ensures 0 <= ListIndex(size) < LISTS
      ensures Supplied(old(Account()), Account(), old(layout).lists, layout.lists, ListIndex(size), bytes, ok, beginFree, endFree - beginFree)
    {
      ok := TryMalloc(bytes);
      if ok {
        assert allocatedArea[|old(allocatedArea)|] != 0;
        return;
      }
      ok := Scavenge(size);
      if !ok {
        ok := Rescue(bytes);
        assert ok ==> heapSize - old(heapSize) == bytes;
      }
    }

    /** Asks malloc for an area, and records what it returns, be it null. */
    method TryMalloc(bytes: nat) returns (ok: bool)
      requires Inv() && layout.loose == {} && layout.pool == Block(0, 0)
      requires 0 < bytes && bytes % ALIGN == 0
      modifies this, heap
      ensures Inv() && (ok ==> Valid() && endFree - beginFree == bytes)
      ensures layout.live == old(layout).live && layout.lists == old(layout).lists
      ensures unrecorded == old(unrecorded) && allocatedArea == old(allocatedArea) + [beginFree]
      ensures heap.mallocs == old(heap.mallocs) + [Asked(bytes, beginFree)] && heap.masters == old(heap.masters)
      ensures ok ==> beginFree != 0 && heapSize == old(heapSize) + bytes
      ensures ok ==> layout.areas == old(layout).areas + {Block(beginFree, bytes)}
      ensures !ok ==> beginFree == 0 && heapSize == old(heapSize) && layout == old(layout)
      ensures Agree(old(heap.words), heap.words, layout.live)
    {
      ghost var w := heap.words;
      var area := heap.Malloc(bytes);
      beginFree := area;
      ok := area != 0;
      if ok {
        FreshArea(layout, Block(area, bytes), w, heap.words, freeLists[..]);
        RecordArea(allocatedArea, layout, unrecorded, Block(area, bytes));
        allocatedArea := allocatedArea + [area];
        AdoptArea(area, bytes, true);
      } else {
        RecordNull(allocatedArea, layout, unrecorded);
        allocatedArea := allocatedArea + [area];
      }
    }

    /** Takes the first `n` bytes of the bump region in hand. */
    method TakeFromPool(n: nat) returns (chunk: int)
      requires Valid() && 0 < n <= endFree - beginFree && n % ALIGN == 0
      modifies this`layout, this`beginFree
      ensures Inv() && layout.pool == Block(beginFree, endFree - beginFree)
      ensures layout == Carve(old(layout), n) && layout.loose == {Block(chunk, n)}
      ensures chunk == old(beginFree) && beginFree == chunk + n
    {
      layout := Carve(layout, n);
      chunk := beginFree;
      beginFree := beginFree + n;
    }

    /** The two branches of `ChunkAlloc` in which the bump region holds at least one block. */
    method ServeFromPool(size: nat, nObjs: nat) returns (chunk: int, count: nat)
      requires Valid() && 0 < size <= endFree - beginFree && size % ALIGN == 0 && 0 < nObjs
      modifies this`layout, this`beginFree
      ensures Inv() && layout.pool == Block(beginFree, endFree - beginFree)
      ensures layout == old(layout).(pool := layout.pool, loose := {Block(chunk, size * count)})
      ensures 1 <= count <= nObjs && chunk == old(beginFree) && beginFree == chunk + size * count
      ensures old(endFree - beginFree) >= size * nObjs ==>
                count == nObjs && endFree - beginFree == old(endFree - beginFree) - size * nObjs
      ensures count < nObjs ==> endFree - beginFree < size
    {
      var left := endFree - beginFree;
      BatchSize(size, nObjs);
      if left >= size * nObjs {
        count := nObjs;
      } else {
        PartialBatch(size, nObjs, left);
        count := left / size;
      }
      chunk := TakeFromPool(size * count);
    }

    /** The branch of `ChunkAlloc` in which the bump region holds no block, up to the nested call. */
    method Restock(size: nat, total: nat) returns (ok: bool)
      requires Valid() && endFree - beginFree < size <= MAX_BYTES && size % ALIGN == 0
      requires size <= total && total % ALIGN == 0
      modifies this, freeLists, heap
      ensures Valid() && layout.live == old(layout).live && old(layout).areas <= layout.areas
      ensures ok ==> size <= endFree - beginFree
      ensures heapSize == old(heapSize) || (ok && 2 * total <= endFree - beginFree)
      ensures !ok ==> heapSize == old(heapSize)
      ensures !ok ==> forall k :: ListIndex(size) <= k < LISTS ==> old(layout).lists[k] == []
      ensures forall k :: ListIndex(size) <= k < LISTS && old(layout).lists[k] == [] ==> layout.lists[k] == []
      ensures Agree(old(heap.words), heap.words, layout.live)
      ensures Kept(old(Account()), Account(), beginFree)
      ensures Supplied(old(Account()), Account(), old(layout).lists, layout.lists, ListIndex(size),
                       2 * total + RoundUp(old(heapSize) / 16), ok, beginFree, endFree - beginFree)
    {
      var bytes := BytesToGet(total, heapSize);
      FileLeftover(size);
      ok := Replenish(size, bytes);
    }

    /** Up to `nObjs` contiguous blocks of `size` bytes, taken in hand. Not `ok` means the
        first-level allocator threw. `calls` counts the nested calls. */
    method ChunkAlloc(size: nat, nObjs: nat) returns (ok: bool, chunk: int, count: nat, ghost calls: nat)
      requires Valid() && 0 < size <= MAX_BYTES && size % ALIGN == 0 && 0 < nObjs
      modifies this, freeLists, heap
      ensures Inv() && layout.live == old(layout).live && old(layout).areas <= layout.areas
      ensures layout.pool == Block(beginFree, endFree - beginFree)
      ensures layout.loose == if ok then {Block(chunk, size * count)} else {}
      ensures ok ==> 1 <= count <= nObjs
      ensures ok && heapSize != old(heapSize) ==> count == nObjs && size * nObjs <= endFree - beginFree
      ensures !ok ==> heapSize == old(heapSize) && old(endFree - beginFree) < size
      ensures !ok ==> forall k :: ListIndex(size) <= k < LISTS ==> old(layout).lists[k] == []
      ensures forall k :: ListIndex(size) <= k < LISTS && old(layout).lists[k] == [] ==> layout.lists[k] == []
      ensures old(endFree - beginFree) >= size ==> ok && layout.lists == old(layout).lists && heapSize == old(heapSize)
      ensures old(endFree - beginFree) >= size * nObjs >= size ==>
                count == nObjs && endFree - beginFree == old(endFree - beginFree) - size * nObjs
      ensures old(endFree - beginFree) >= size ==> chunk == old(beginFree) && endFree == old(endFree) && Account() == old(Account())
      ensures ok ==> beginFree == chunk + size * count && (count < nObjs ==> endFree - beginFree < size)
      ensures 0 <= ListIndex(size) < LISTS
      ensures old(endFree - beginFree) < size ==>
                Supplied(old(Account()), Account(), old(layout).lists, layout.lists, ListIndex(size),
                         2 * (size * nObjs) + RoundUp(old(heapSize) / 16), ok, chunk, endFree - chunk)
      ensures Kept(old(Account()), Account(), chunk)
      ensures Agree(old(heap.words), heap.words, layout.live)
      ensures calls <= (if old(endFree - beginFree) >= size then 0 else 1)
      decreases if endFree - beginFree >= size then 0 else 2
    {
      if endFree - beginFree >= size {
        ok, calls := true, 0;
        chunk, count := ServeFromPool(size, nObjs);
      } else {
        ok, chunk, count, calls := RestockAndRetry(size, nObjs);
      }
    }

    /** The branch of `ChunkAlloc` in which the bump region holds no block. */
    method RestockAndRetry(size: nat, nObjs: nat) returns (ok: bool, chunk: int, count: nat, ghost calls: nat)
      requires Valid() && 0 < size <= MAX_BYTES && size % ALIGN == 0 && 0 < nObjs && endFree - beginFree < size
      modifies this, freeLists, heap
      ensures Inv() && layout.live == old(layout).live && old(layout).areas <= layout.areas
      ensures layout.pool == Block(beginFree, endFree - beginFree)
      ensures layout.loose == if ok then {Block(chunk, size * count)} else {}
      ensures ok ==> 1 <= count <= nObjs && beginFree == chunk + size * count && (count < nObjs ==> endFree - beginFree < size)
      ensures ok && heapSize != old(heapSize) ==> count == nObjs && size * nObjs <= endFree - beginFree
      ensures !ok ==> heapSize == old(heapSize)
      ensures !ok ==> forall k :: ListIndex(size) <= k < LISTS ==> old(layout).lists[k] == []
      ensures forall k :: ListIndex(size) <= k < LISTS && old(layout).lists[k] == [] ==> layout.lists[k] == []
      ensures 0 <= ListIndex(size) < LISTS
      ensures Supplied(old(Account()), Account(), old(layout).lists, layout.lists, ListIndex(size),
                       2 * (size * nObjs) + RoundUp(old(heapSize) / 16), ok, chunk, endFree - chunk)
      ensures Kept(old(Account()), Account(), chunk)
      ensures Agree(old(heap.words), heap.words, layout.live)
      ensures calls <= 1
      decreases 1
    {
      chunk, count, calls := 0, 0, 0;
      BatchSize(size, nObjs);
      ok := Restock(size, size * nObjs);
      if ok {
        ok, chunk, count, calls := ChunkAlloc(size, nObjs);
        calls := calls + 1;
      }
    }

    // ---------- refill ----------

    /** The linking loop of `Refill`: hands out the first of `count` contiguous blocks and threads
        the others, in address order, onto their empty list `k`. */
    method LinkChunk(k: int, chunk: int, count: nat, ghost rest: nat, ghost end: int)
      requires 0 <= k < LISTS && Inv() && 2 <= count
      requires layout.loose == {Block(chunk, ClassSize(k) + rest)} && layout.lists[k] == []
      requires rest == Span(ClassSize(k), count - 1) && end == chunk + ClassSize(k) + rest
      modifies this`layout, freeLists, heap`words
      ensures Inv()
      ensures layout == old(layout).(live := old(layout).live + {Block(chunk, ClassSize(k))}, loose := {},
                                     lists := old(layout).lists[k := layout.lists[k]])
      ensures |layout.lists[k]| == count - 1 && Steps(layout.lists[k], chunk + ClassSize(k), end, ClassSize(k))
      ensures Agree(old(heap.words), heap.words, old(layout).live)
    {
      var cur := chunk + ClassSize(k);
      ghost var l0, heads := layout, freeLists[..];
      layout := SplitHandOut(layout, chunk, ClassSize(k), rest);
      ThreadStart(l0, layout, heap.words, heads, k, chunk, cur, rest);
      freeLists[k] := cur;
      assert freeLists[..] == heads[k := cur];
      LinkRest(k, chunk, cur, count, l0, rest, end);
    }

    /** The loop proper: from the second block on, each link is written before the next block is
        reached, and the last one is null. */
    method LinkRest(k: int, ghost chunk: int, first: int, count: nat, ghost l0: Layout, ghost rest0: nat, ghost end: int)
      requires 0 <= k < LISTS && 2 <= count && freeLists.Length == LISTS && layout.lists[k] == []
      requires rest0 == Span(ClassSize(k), count - 1) && first + rest0 == end
      requires Threading(l0, layout, k, chunk, first, rest0)
      requires Linking(heap.words, freeLists[..], layout.lists, k, first)
      modifies this`layout, heap`words
      ensures Chains(heap.words, freeLists[..], layout.lists)
      ensures layout == l0.(live := l0.live + {Block(chunk, ClassSize(k))}, loose := {},
                            lists := l0.lists[k := layout.lists[k]])
      ensures |layout.lists[k]| == count - 1 && Steps(layout.lists[k], chunk + ClassSize(k), end, ClassSize(k))
      ensures Agree(old(heap.words), heap.words, l0.live)
    {
      var n, cur, i := ClassSize(k), first, 1;
      ghost var rest := rest0;
      while true
        invariant 1 <= i < count && |layout.lists[k]| == i - 1
        invariant rest == Span(n, count - i) && cur + rest == end
        invariant Threading(l0, layout, k, chunk, cur, rest)
        invariant Linking(heap.words, freeLists[..], layout.lists, k, cur)
        invariant Agree(old(heap.words), heap.words, l0.live)
        decreases count - i
      {
        var next := cur + n;
        var link := if count - 1 == i then 0 else next;
        LinkStep(layout, heap.words, freeLists[..], k, cur, rest, link);
        AgreeWrite(old(heap.words), heap.words, l0.live, layout.live, cur);
        heap.words := heap.words[cur := link];
        if count - 1 == i {
          ThreadEnd(l0, layout, ThreadLast(layout, k, cur, rest), k, chunk, cur, rest, end);
          layout := ThreadLast(layout, k, cur, rest);
          break;
        }
        ghost var rest' := Span(n, count - i - 1);
        ThreadStep(l0, layout, Thread(layout, k, cur, rest, next, rest'), k, chunk, cur, rest, next, rest');
        layout := Thread(layout, k, cur, rest, next, rest');
        cur, rest := next, rest';
        i := i + 1;
      }
    }

    /** A block of `n` bytes for the client when its list is empty; the rest of the batch, if any,
        fills that list. */
    method Refill(n: nat) returns (ok: bool, p: int, ghost count: nat)
      requires Valid() && 0 < n <= MAX_BYTES && n % ALIGN == 0 && layout.lists[ListIndex(n)] == []
      modifies this, freeLists, heap
      ensures Valid() && old(layout).areas <= layout.areas
      ensures ok ==> Block(p, n) !in old(layout).live && layout.live == old(layout).live + {Block(p, n)}
      ensures ok ==> 1 <= count <= BATCH && |layout.lists[ListIndex(n)]| == count - 1
      ensures ok ==> Steps(layout.lists[ListIndex(n)], p + n, p + n * count, n)
      ensures ok && heapSize != old(heapSize) ==> count == BATCH && n * BATCH <= endFree - beginFree
      ensures !ok ==> layout.live == old(layout).live && heapSize == old(heapSize)
      ensures !ok ==> old(endFree - beginFree) < n
      ensures !ok ==> forall k :: ListIndex(n) <= k < LISTS ==> old(layout).lists[k] == []
      ensures Kept(old(Account()), Account(), p)
      ensures ok ==> beginFree == p + n * count && (count < BATCH ==> endFree - beginFree < n)
      ensures old(endFree - beginFree) >= n ==>
                && ok && p == old(beginFree) && endFree == old(endFree) && Account() == old(Account())
                && layout.lists[ListIndex(n) := []] == old(layout).lists
      ensures old(endFree - beginFree) < n ==>
                Supplied(old(Account()), Account(), old(layout).lists, layout.lists[ListIndex(n) := []], ListIndex(n),
                         2 * (n * BATCH) + RoundUp(old(heapSize) / 16), ok, p, endFree - p)
      ensures Agree(old(heap.words), heap.words, old(layout).live)
    {
      var chunk, objs;
      ghost var calls;
      ok, chunk, objs, calls := ChunkAlloc(n, BATCH);
      p, count := chunk, objs;
      if ok {
        ghost var before := layout.lists;
        DealOut(n, chunk, objs);
        ClearedList(before, layout.lists, ListIndex(n));
      }
    }

    /** The first of `count` contiguous blocks in hand goes to the client, the others to their list. */
    method DealOut(n: nat, chunk: int, count: nat)
      requires Inv() && layout.pool == Block(beginFree, endFree - beginFree) && 1 <= count
      requires 0 < n <= MAX_BYTES && n % ALIGN == 0 && layout.lists[ListIndex(n)] == []
      requires layout.loose == {Block(chunk, n * count)}
      modifies this`layout, freeLists, heap`words
      ensures Valid() && Block(chunk, n) !in old(layout).live && layout.areas == old(layout).areas
      ensures layout.live == old(layout).live + {Block(chunk, n)}
      ensures layout.lists == old(layout).lists[ListIndex(n) := layout.lists[ListIndex(n)]]
      ensures |layout.lists[ListIndex(n)]| == count - 1
      ensures Steps(layout.lists[ListIndex(n)], chunk + n, chunk + n * count, n)
      ensures Agree(old(heap.words), heap.words, old(layout).live)
    {
      var k := ListIndex(n);
      SpanIsProduct(n, count);
      InHandIsNotLive(layout, chunk, n * count, n);
      if count == 1 {
        layout := HandOut(layout, Block(chunk, n));
      } else {
        LinkChunk(k, chunk, count, Span(n, count - 1), chunk + n * count);
      }
    }

    // ---------- the client interface ----------

    /** A block for `n` bytes: the front of its list if there is one, else a refill. It fails only
        when the first-level allocator throws, and then no block large enough was free anywhere.
        No live byte is ever touched. */
    method Allocate(n: nat) returns (ok: bool, p: int)
      requires Valid() && 1 <= n <= MAX_BYTES
      modifies this, freeLists, heap
      ensures Valid() && old(layout).areas <= layout.areas
      ensures ok ==> Block(p, RoundUp(n)) !in old(layout).live
      ensures ok ==> layout.live == old(layout).live + {Block(p, RoundUp(n))}
      ensures !ok ==> layout.live == old(layout).live && heapSize == old(heapSize)
      ensures !ok ==> old(endFree - beginFree) < RoundUp(n)
      ensures !ok ==> forall k :: ListIndex(n) <= k < LISTS ==> old(layout).lists[k] == []
      ensures old(layout).lists[ListIndex(n)] != [] ==>
                && ok && p == old(layout).lists[ListIndex(n)][0]
                && layout.lists == old(layout).lists[ListIndex(n) := old(layout).lists[ListIndex(n)][1..]]
                && layout.areas == old(layout).areas && layout.pool == old(layout).pool
      ensures old(layout).lists[ListIndex(n)] != [] || old(endFree - beginFree) >= RoundUp(n) ==> Account() == old(Account())
      ensures old(layout).lists[ListIndex(n)] == [] && old(endFree - beginFree) >= RoundUp(n) ==>
                ok && p == old(beginFree) && endFree == old(endFree) && layout.lists[ListIndex(n) := []] == old(layout).lists
      ensures old(layout).lists[ListIndex(n)] == [] && old(endFree - beginFree) < RoundUp(n) ==>
                Supplied(old(Account()), Account(), old(layout).lists, layout.lists[ListIndex(n) := []], ListIndex(n),
                         40 * RoundUp(n) + RoundUp(old(heapSize) / 16), ok, p, endFree - p)
      ensures old(layout).lists[ListIndex(n)] == [] && ok ==> Dealt(layout.lists[ListIndex(n)], RoundUp(n), p, beginFree, endFree)
      ensures Kept(old(Account()), Account(), p)
      ensures Agree(old(heap.words), heap.words, old(layout).live)
    {
      SizeClasses(n);
      var k := ListIndex(n);
      NodesAreNotNull(layout, k);
      if freeLists[k] == 0 {
        ghost var count;
        ok, p, count := Refill(RoundUp(n));
      } else {
        ok := true;
        p := FromList(k, RoundUp(n));
      }
    }

    /** The front block of list `k` goes to the client. */
    method FromList(k: int, size: nat) returns (p: int)
      requires Valid() && 0 <= k < LISTS && size == ClassSize(k) && layout.lists[k] != []
      modifies this`layout, freeLists
      ensures Valid() && p == old(layout).lists[k][0] && Block(p, size) !in old(layout).live
      ensures layout == old(layout).(live := old(layout).live + {Block(p, size)},
                                     lists := old(layout).lists[k := old(layout).lists[k][1..]])
    {
      p := PopHead(k);
      InHandIsNotLive(layout, p, size, size);
      layout := HandOut(layout, Block(p, size));
    }

    /** A live block of `n` requested bytes comes back to the front of its list. */
    method Deallocate(p: int, n: nat)
      requires Valid() && 1 <= n <= MAX_BYTES && Block(p, RoundUp(n)) in layout.live
      modifies this`layout, freeLists, heap`words
      ensures Valid()
      ensures layout == old(layout).(live := old(layout).live - {Block(p, RoundUp(n))},
                                     lists := old(layout).lists[ListIndex(n) := [p] + old(layout).lists[ListIndex(n)]])
      ensures Agree(old(heap.words), heap.words, layout.live)
    {
      SizeClasses(n);
      layout := TakeBack(layout, Block(p, RoundUp(n)));
      PushHead(ListIndex(n), p);
    }

    /** What clients may do with a block: store anything, anywhere inside it. */
    method Store(ghost b: Block, x: int, v: int)
      requires Valid() && b in layout.live && In(x, b)
      modifies heap`words
      ensures Valid() && Word(heap.words, x) == v
    {
      StoreKeepsChains(layout, b, x, v, heap.words, freeLists[..]);
      heap.words := heap.words[x := v];
    }

    /** The destructor returns the recorded areas, and only those: what it leaves allocated are
        exactly the areas that came from the first-level allocator. */
    method Destroy()
      requires Valid()
      modifies this`allocatedArea, heap`owned
      ensures allocatedArea == [] && heap.owned * layout.areas == unrecorded
    {
      assert Open(layout);
      var i := 0;
      while i < |allocatedArea|
        invariant allocatedArea == old(allocatedArea) && i <= |allocatedArea| && heap.Valid()
        invariant heap.owned == set b | b in old(heap.owned) && (b.addr == 0 || b.addr !in allocatedArea[..i])
      {
        heap.Free(allocatedArea[i]);
        assert allocatedArea[..i + 1] == allocatedArea[..i] + [allocatedArea[i]];
        i := i + 1;
      }
      assert allocatedArea[..i] == allocatedArea;
      forall b ensures b in heap.owned * layout.areas <==> b in unrecorded {
        if b in layout.areas {
          assert Proper(b) && b in old(heap.owned);
          assert b in layout.areas - unrecorded || b in unrecorded;
        }
      }
      allocatedArea := [];
    }
  }

  /** The addresses from `first` on in steps of `n`, up to but not including `end`. */
  ghost predicate Steps(s: seq<int>, first: int, end: int, n: int)
    decreases |s|
  {
    if s == [] then first == end else s[0] == first && Steps(s[1..], first + n, end, n)
  }

  lemma {:induction false} StepsSnoc(s: seq<int>, first: int, end: int, n: int)
    requires Steps(s, first, end, n)
    ensures Steps(s + [end], first, end + n, n)
    decreases |s|
  {
    if s == [] {
      assert (s + [end])[1..] == [];
    } else {
      assert (s + [end])[1..] == s[1..] + [end];
      StepsSnoc(s[1..], first + n, end, n);
    }
  }

  /** Every chain is intact except that of list `k`, which so far ends at `tail`. */
  ghost predicate Linking(w: map<int, int>, heads: seq<int>, lists: seq<seq<int>>, k: int, tail: int) {
    && |heads| == |lists| == LISTS && 0 <= k < LISTS
    && (forall j :: 0 <= j < LISTS && j != k ==> Segment(w, heads[j], lists[j], 0))
    && Segment(w, heads[k], lists[k], tail)
  }

  /** The first block of a chunk in hand is handed out. */
  ghost function SplitHandOut(l: SoundLayout, chunk: int, n: int, rest: int): (l': SoundLayout)
    requires l.loose == {Block(chunk, n + rest)} && 0 < n && n % ALIGN == 0 && 0 < rest
    ensures l' == l.(live := l.live + {Block(chunk, n)}, loose := {Block(chunk + n, rest)})
  {
    var whole := Block(chunk, n + rest);
    assert SplitOf({whole}, whole, n) - {Block(chunk, n)} == {Block(chunk + n, rest)};
    HandOut(Split(l, whole, n), Block(chunk, n))
  }

  /** Writing the link of the block at `cur`, which is in hand, extends the chain by that block and
      disturbs no other chain. */
  lemma LinkStep(l: SoundLayout, w: map<int, int>, heads: seq<int>, k: int, cur: int, rest: int, v: int)
    requires l.loose == {Block(cur, rest)} && Linking(w, heads, l.lists, k, cur)
    ensures Linking(w[cur := v], heads, l.lists[k := l.lists[k] + [cur]], k, v)
    ensures forall x :: Covered(x, l.live) ==> !InLink(x, cur)
  {
    LooseIsElsewhere(l, Block(cur, rest));
    forall j | 0 <= j < LISTS && j != k ensures Segment(w[cur := v], heads[j], l.lists[j], 0) {
      SegmentFrame(w, w[cur := v], heads[j], l.lists[j], 0);
    }
    SegmentSnoc(w, heads[k], l.lists[k], cur, v);
  }

  /** The linking loop, about to write the link of its `i`-th block at `cur`: what has become of
      the layout `l0` it started from. */
  ghost predicate Threading(l0: Layout, l: Layout, k: int, chunk: int, cur: int, rest: int) {
    match l
    case Layout(live, lists, pool, loose, areas) =>
      && 0 <= k < |l0.lists| && loose == {Block(cur, rest)}
      && live == l0.live + {Block(chunk, ClassSize(k))} && pool == l0.pool && areas == l0.areas
      && 0 <= k < |lists| && lists == l0.lists[k := lists[k]]
      && Steps(lists[k], chunk + ClassSize(k), cur, ClassSize(k))
  }

  /** The block at `cur` joins the back of the list; the rest of the chunk stays in hand. */
  ghost function Thread(l: SoundLayout, k: int, cur: int, rest: int, next: int, rest': int): (l': SoundLayout)
    requires 0 <= k < LISTS && l.loose == {Block(cur, rest)} && 0 < rest'
    requires next == cur + ClassSize(k) && rest == ClassSize(k) + rest'
    ensures l' == l.(lists := l.lists[k := l.lists[k] + [cur]], loose := {Block(next, rest')})
  {
    var n, b := ClassSize(k), Block(cur, rest);
    assert SplitOf({b}, b, n) - {Block(cur, n)} == {Block(next, rest')};
    PutBack(Split(l, b, n), k, cur)
  }

  /** The last block joins the list. */
  ghost function ThreadLast(l: SoundLayout, k: int, cur: int, rest: int): (l': SoundLayout)
    requires 0 <= k < LISTS && l.loose == {Block(cur, rest)} && rest == ClassSize(k)
    ensures l' == l.(lists := l.lists[k := l.lists[k] + [cur]], loose := {})
  {
    PutBack(l, k, cur)
  }

  lemma ThreadStart(l: Layout, l': Layout, w: map<int, int>, heads: seq<int>, k: int, chunk: int, cur: int, rest: int)
    requires 0 <= k < |l.lists| && l.lists[k] == [] && cur == chunk + ClassSize(k)
    requires l' == l.(live := l.live + {Block(chunk, ClassSize(k))}, loose := {Block(cur, rest)})
    requires Chains(w, heads, l.lists)
    ensures Threading(l, l', k, chunk, cur, rest)
    ensures Linking(w, heads[k := cur], l'.lists, k, cur)
  {
  }

  lemma ThreadStep(l0: Layout, l: Layout, l': Layout, k: int, chunk: int, cur: int, rest: int, next: int, rest': int)
    requires Threading(l0, l, k, chunk, cur, rest)
    requires l' == l.(lists := l.lists[k := l.lists[k] + [cur]], loose := {Block(next, rest')})
    requires next == cur + ClassSize(k)
    ensures Threading(l0, l', k, chunk, next, rest')
  {
    StepsSnoc(l.lists[k], chunk + ClassSize(k), cur, ClassSize(k));
    UpdateTwice(l0.lists, l.lists, k, l.lists[k] + [cur]);
  }

  lemma ThreadEnd(l0: Layout, l: Layout, l': Layout, k: int, chunk: int, cur: int, rest: int, end: int)
    requires Threading(l0, l, k, chunk, cur, rest) && rest == ClassSize(k) && end == cur + rest
    requires l' == l.(lists := l.lists[k := l.lists[k] + [cur]], loose := {})
    ensures l' == l0.(live := l0.live + {Block(chunk, ClassSize(k))}, loose := {}, lists := l0.lists[k := l'.lists[k]])
    ensures Steps(l'.lists[k], chunk + ClassSize(k), end, ClassSize(k))
  {
    StepsSnoc(l.lists[k], chunk + ClassSize(k), cur, ClassSize(k));
    UpdateTwice(l0.lists, l.lists, k, l.lists[k] + [cur]);
  }

  lemma ClearedList(s: seq<seq<int>>, t: seq<seq<int>>, k: int)
    requires 0 <= k < |s| == |t| && s[k] == [] && t == s[k := t[k]]
    ensures t[k := []] == s
  {
  }

  lemma UpdateTwice(s: seq<seq<int>>, t: seq<seq<int>>, k: int, v: seq<int>)
    requires 0 <= k < |s| == |t| && t == s[k := t[k]]
    ensures t[k := v] == s[k := v]
  {
  }

  /** `m` times `n`, as the linking loop consumes it. */
  ghost function Span(n: nat, m: nat): (r: nat)
    ensures 0 < n && 0 < m ==> n <= r
  {
    if m == 0 then 0 else n + Span(n, m - 1)
  }

  lemma {:induction false} SpanIsProduct(n: nat, m: nat)
    ensures Span(n, m) == n * m
  {
    if m != 0 { SpanIsProduct(n, m - 1); }
  }

  lemma BatchSize(size: nat, n: nat)
    requires 0 < size && 0 < n && size % ALIGN == 0
    ensures size <= size * n && (size * n) % ALIGN == 0
  {
    var m := size / 8;
    assert size * n == 8 * (m * n);
  }

  lemma PartialBatch(size: nat, n: nat, left: nat)
    requires 0 < size <= left < size * n && size % ALIGN == 0
    ensures 1 <= left / size <= n
    ensures size <= size * (left / size) <= left && (size * (left / size)) % ALIGN == 0
  {
    var q := left / size;
    assert left == size * q + left % size;
    assert q == 0 ==> size * q == 0;
    BatchSize(size, q);
    assert n < q ==> size * n <= size * q;
  }
}
