/** The layout of a pooled heap, as values: blocks of bytes, what it means for a set of blocks to
    tile a set of areas exactly, and the moves by which an allocator reclassifies, splits and adds
    blocks. Every move keeps a sound layout sound; the moves are composed in module MemPool. */
module Blocks {

  const ALIGN: int := 8
  const LISTS: int := 64

  /** The `size` bytes from `addr` on. */
  datatype Block = Block(addr: int, size: int)

  predicate In(x: int, b: Block) { b.addr <= x < b.addr + b.size }

  predicate Apart(a: Block, b: Block) { a.addr + a.size <= b.addr || b.addr + b.size <= a.addr }

  ghost predicate Covered(x: int, s: set<Block>) { exists b :: b in s && In(x, b) }

  ghost predicate AllApart(s: set<Block>) { forall a, b :: a in s && b in s && a != b ==> Apart(a, b) }

  /** Non-empty, away from null, and a whole number of aligned words. */
  ghost predicate Proper(b: Block) { 0 < b.addr && b.addr % ALIGN == 0 && 0 < b.size && b.size % ALIGN == 0 }

  ghost predicate AllProper(s: set<Block>) { forall b :: b in s ==> Proper(b) }

  /** The pieces are pairwise disjoint and cover exactly the bytes of the areas. */
  ghost predicate Tiles(pieces: set<Block>, areas: set<Block>) {
    && AllProper(pieces)
    && AllApart(pieces)
    && forall x :: Covered(x, pieces) <==> Covered(x, areas)
  }

  ghost function Bytes(s: set<Block>): int {
    if s == {} then 0 else var b :| b in s; b.size + Bytes(s - {b})
  }

  lemma {:induction false} BytesRemove(s: set<Block>, b: Block)
    requires b in s
    ensures Bytes(s) == b.size + Bytes(s - {b})
    decreases s
  {
    var c :| c in s && Bytes(s) == c.size + Bytes(s - {c});
    if c != b {
      BytesRemove(s - {c}, b);
      BytesRemove(s - {b}, c);
      assert s - {c} - {b} == s - {b} - {c};
    }
  }

  lemma BytesAdd(s: set<Block>, b: Block)
    requires b !in s
    ensures Bytes(s + {b}) == Bytes(s) + b.size
  {
    BytesRemove(s + {b}, b);
    assert s + {b} - {b} == s;
  }

  lemma {:induction false} BytesUnion(s: set<Block>, t: set<Block>)
    requires s !! t
    ensures Bytes(s + t) == Bytes(s) + Bytes(t)
    decreases t
  {
    if t == {} {
      assert s + t == s;
    } else {
      var b :| b in t;
      BytesRemove(t, b);
      BytesUnion(s, t - {b});
      BytesAdd(s + (t - {b}), b);
      assert s + (t - {b}) + {b} == s + t;
    }
  }

  // ---------- splitting and growing a tiling ----------

  ghost function SplitOf(pieces: set<Block>, b: Block, n: int): set<Block> {
    pieces - {b} + {Block(b.addr, n), Block(b.addr + n, b.size - n)}
  }

  lemma SplitApart(pieces: set<Block>, b: Block, n: int)
    requires AllApart(pieces) && AllProper(pieces) && b in pieces && 0 < n < b.size && n % ALIGN == 0
    ensures AllApart(SplitOf(pieces, b, n)) && AllProper(SplitOf(pieces, b, n))
    ensures Block(b.addr, n) !in pieces && Block(b.addr + n, b.size - n) !in pieces
  {
    var lo, hi := Block(b.addr, n), Block(b.addr + n, b.size - n);
    forall c | c in pieces && c != b ensures Apart(c, lo) && Apart(c, hi) && c != lo && c != hi {
      assert Apart(c, b);
    }
  }

  lemma SplitTiles(pieces: set<Block>, areas: set<Block>, b: Block, n: int)
    requires Tiles(pieces, areas) && b in pieces && 0 < n < b.size && n % ALIGN == 0
    ensures Tiles(SplitOf(pieces, b, n), areas)
    ensures Bytes(SplitOf(pieces, b, n)) == Bytes(pieces)
    ensures Block(b.addr, n) !in pieces && Block(b.addr + n, b.size - n) !in pieces
  {
    var lo, hi := Block(b.addr, n), Block(b.addr + n, b.size - n);
    var split := SplitOf(pieces, b, n);
    SplitApart(pieces, b, n);
    forall x ensures Covered(x, split) <==> Covered(x, pieces) {
      if c :| c in pieces && In(x, c) {
        if c == b {
          assert In(x, lo) || In(x, hi);
          assert lo in split && hi in split;
        } else {
          assert c in split;
        }
      }
      if c :| c in split && In(x, c) {
        if c == lo || c == hi { assert In(x, b); } else { assert c in pieces; }
      }
    }
    BytesRemove(pieces, b);
    BytesAdd(pieces - {b}, lo);
    BytesAdd(pieces - {b} + {lo}, hi);
    assert pieces - {b} + {lo} + {hi} == split;
  }

  /** A block apart from all areas is apart from everything that tiles them. */
  lemma PieceApart(pieces: set<Block>, areas: set<Block>, a: Block, b: Block)
    requires Tiles(pieces, areas) && Proper(a) && b in pieces
    requires forall c :: c in areas ==> Apart(c, a)
    ensures Apart(b, a)
  {
    // the first byte that an overlap would share
    var x := if a.addr <= b.addr then b.addr else a.addr;
    assert In(x, b) ==> Covered(x, pieces);
    forall c | c in areas ensures !In(x, c) || !In(x, a) {
      assert Apart(c, a);
    }
    assert !Covered(x, areas) || !In(x, a);
  }

  lemma GrowTiles(pieces: set<Block>, areas: set<Block>, a: Block)
    requires Tiles(pieces, areas) && AllApart(areas) && Proper(a)
    requires forall b :: b in areas ==> Apart(b, a)
    ensures Tiles(pieces + {a}, areas + {a}) && AllApart(areas + {a})
    ensures a !in pieces && a !in areas
  {
    forall b | b in pieces ensures Apart(b, a) {
      PieceApart(pieces, areas, a, b);
    }
    assert !Apart(a, a);
    forall x ensures Covered(x, pieces + {a}) <==> Covered(x, areas + {a}) {
      CoveredUnion(x, pieces, a);
      CoveredUnion(x, areas, a);
    }
  }

  lemma CoveredUnion(x: int, s: set<Block>, a: Block)
    ensures Covered(x, s + {a}) <==> Covered(x, s) || In(x, a)
  {
    if In(x, a) { assert a in s + {a}; }
    if b :| b in s && In(x, b) { assert b in s + {a}; }
  }

  // ---------- layouts ----------

  /** `lists[k]` are the free blocks of `8 * (k + 1)` bytes, front first; `pool` is the bump region,
      possibly empty; `loose` are blocks in hand between two steps of the allocator. */
  datatype Layout = Layout(live: set<Block>, lists: seq<seq<int>>, pool: Block, loose: set<Block>, areas: set<Block>)

  function ClassSize(k: int): int { ALIGN * (k + 1) }

  ghost function Free(lists: seq<seq<int>>): set<Block> {
    set k: int, i: int | 0 <= k < |lists| && 0 <= i < |lists[k]| :: Block(lists[k][i], ClassSize(k))
  }

  ghost function Pool(pool: Block): set<Block> { if 0 < pool.size then {pool} else {} }

  ghost function Pieces(l: Layout): set<Block> { l.live + Free(l.lists) + Pool(l.pool) + l.loose }

  ghost predicate NoRepeats(lists: seq<seq<int>>) {
    forall k, i, j :: 0 <= k < |lists| && 0 <= i < j < |lists[k]| ==> lists[k][i] != lists[k][j]
  }

  ghost predicate Separate(l: Layout) {
    && l.live !! Free(l.lists) && l.live !! Pool(l.pool) && l.live !! l.loose
    && Free(l.lists) !! Pool(l.pool) && Free(l.lists) !! l.loose && Pool(l.pool) !! l.loose
  }

  ghost predicate Exact(l: Layout) {
    && NoRepeats(l.lists)
    && Separate(l)
    && AllApart(l.areas) && AllProper(l.areas)
    && Tiles(Pieces(l), l.areas)
    && Bytes(Pieces(l)) == Bytes(l.areas)
  }

  /** A proof opens a sound layout by mentioning `Open`; where it does not, layouts are passed
      around without their quantified facts, which keeps those proofs small. */
  predicate Open(l: Layout) { true }

  ghost predicate Sound(l: Layout) {
    && |l.lists| == LISTS && 0 <= l.pool.size
    && forall m: Layout {:trigger Open(m)} :: Open(m) && m == l ==> Exact(m)
  }

  ghost const NOTHING: Layout := Layout({}, seq(LISTS, _ => []), Block(0, 0), {}, {})

  type SoundLayout = l: Layout | Sound(l) ghost witness NOTHING

  /** What soundness means for clients: nothing handed out overlaps anything else, everything lies
      in an area, and no byte of an area is lost. */
  lemma SoundMeaning(l: SoundLayout)
    requires l.loose == {}
    ensures forall b, c :: b in l.live && c in l.live && b != c ==> Apart(b, c)
    ensures forall b, c :: b in l.live && c in Free(l.lists) + Pool(l.pool) ==> Apart(b, c)
    ensures forall b, x :: b in l.live && In(x, b) ==> Covered(x, l.areas)
    ensures forall x :: Covered(x, l.areas) ==>
                          Covered(x, l.live) || Covered(x, Free(l.lists)) || Covered(x, Pool(l.pool))
    ensures Bytes(l.live) + Bytes(Free(l.lists)) + Bytes(Pool(l.pool)) == Bytes(l.areas)
  {
    assert Open(l);
    var pieces := Pieces(l);
    forall b, c | b in l.live && c in Free(l.lists) + Pool(l.pool) ensures Apart(b, c) {
      assert b in pieces && c in pieces && b != c;
    }
    forall b, x | b in l.live && In(x, b) ensures Covered(x, l.areas) {
      assert b in pieces && Covered(x, pieces);
    }
    forall x | Covered(x, l.areas)
      ensures Covered(x, l.live) || Covered(x, Free(l.lists)) || Covered(x, Pool(l.pool))
    {
      assert Covered(x, pieces);
    }
    BytesUnion(l.live, Free(l.lists));
    BytesUnion(l.live + Free(l.lists), Pool(l.pool));
    assert l.live + Free(l.lists) + Pool(l.pool) == pieces;
  }

  ghost predicate NowhereTwice(lists: seq<seq<int>>) {
    forall k, i, k', i' :: 0 <= k < |lists| && 0 <= i < |lists[k]| && 0 <= k' < |lists| && 0 <= i' < |lists[k']| ==>
                             (lists[k][i] == lists[k'][i'] ==> k == k' && i == i')
  }

  /** Free blocks are apart from each other and from the bump region, and no address is listed
      twice, on one list or on two. */
  lemma FreeMeaning(l: SoundLayout)
    ensures forall b, c :: b in Free(l.lists) && c in Free(l.lists) + Pool(l.pool) && b != c ==> Apart(b, c)
    ensures NowhereTwice(l.lists)
  {
    assert Open(l);
    forall b, c | b in Free(l.lists) && c in Free(l.lists) + Pool(l.pool) && b != c ensures Apart(b, c) {
      assert b in Pieces(l) && c in Pieces(l);
    }
    forall k, i, k', i' | 0 <= k < LISTS && 0 <= k' < LISTS && 0 <= i < |l.lists[k]| && 0 <= i' < |l.lists[k']| &&
                          l.lists[k][i] == l.lists[k'][i']
      ensures k == k' && i == i'
    {
      FreeMember(l.lists, k, i);
      FreeMember(l.lists, k', i');
      assert k != k' ==> Apart(Block(l.lists[k][i], ClassSize(k)), Block(l.lists[k'][i'], ClassSize(k')));
    }
  }

  // ---------- free-list updates ----------

  lemma FreePush(lists: seq<seq<int>>, k: int, a: int)
    requires 0 <= k < |lists|
    ensures Free(lists[k := [a] + lists[k]]) == Free(lists) + {Block(a, ClassSize(k))}
  {
    var l' := lists[k := [a] + lists[k]];
    forall b ensures b in Free(l') <==> b in Free(lists) + {Block(a, ClassSize(k))} {
      if b in Free(lists) {
        var j: int, i: int :| 0 <= j < |lists| && 0 <= i < |lists[j]| && b == Block(lists[j][i], ClassSize(j));
        assert l'[j][if j == k then i + 1 else i] == lists[j][i];
      }
      assert l'[k][0] == a;
      if b in Free(l') {
        var j: int, i: int :| 0 <= j < |l'| && 0 <= i < |l'[j]| && b == Block(l'[j][i], ClassSize(j));
        if j != k { assert lists[j][i] == l'[j][i]; } else if i > 0 { assert lists[k][i - 1] == l'[k][i]; }
      }
    }
  }

  lemma FreeAppend(lists: seq<seq<int>>, k: int, a: int)
    requires 0 <= k < |lists|
    ensures Free(lists[k := lists[k] + [a]]) == Free(lists) + {Block(a, ClassSize(k))}
  {
    var l' := lists[k := lists[k] + [a]];
    forall b ensures b in Free(l') <==> b in Free(lists) + {Block(a, ClassSize(k))} {
      if b in Free(lists) {
        var j: int, i: int :| 0 <= j < |lists| && 0 <= i < |lists[j]| && b == Block(lists[j][i], ClassSize(j));
        assert l'[j][i] == lists[j][i];
      }
      assert l'[k][|lists[k]|] == a;
      if b in Free(l') {
        var j: int, i: int :| 0 <= j < |l'| && 0 <= i < |l'[j]| && b == Block(l'[j][i], ClassSize(j));
        if j != k || i < |lists[k]| { assert lists[j][i] == l'[j][i]; }
      }
    }
  }

  lemma FreeMember(lists: seq<seq<int>>, k: int, i: int)
    requires 0 <= k < |lists| && 0 <= i < |lists[k]|
    ensures Block(lists[k][i], ClassSize(k)) in Free(lists)
  {
  }

  lemma FreePop(lists: seq<seq<int>>, k: int)
    requires NoRepeats(lists) && 0 <= k < |lists| && lists[k] != []
    ensures Free(lists) == Free(lists[k := lists[k][1..]]) + {Block(lists[k][0], ClassSize(k))}
    ensures Block(lists[k][0], ClassSize(k)) !in Free(lists[k := lists[k][1..]])
  {
    var rest := lists[k := lists[k][1..]];
    FreePush(rest, k, lists[k][0]);
    assert [lists[k][0]] + rest[k] == lists[k];
    assert rest[k := [lists[k][0]] + rest[k]] == lists;
    var b := Block(lists[k][0], ClassSize(k));
    forall j, i | 0 <= j < |rest| && 0 <= i < |rest[j]| ensures Block(rest[j][i], ClassSize(j)) != b {
      if j == k { assert rest[k][i] == lists[k][i + 1]; }
    }
  }

  // ---------- moves ----------

  /** A move that keeps the pieces keeps soundness. */
  lemma SamePieces(l: SoundLayout, l': Layout)
    requires |l'.lists| == LISTS && NoRepeats(l'.lists) && 0 <= l'.pool.size && Separate(l')
    requires Pieces(l') == Pieces(l) && l'.areas == l.areas
    ensures Sound(l')
  {
    assert Open(l);
  }

  /** The front block of list `k` is taken in hand. */
  ghost function Take(l: SoundLayout, k: int): SoundLayout
    requires 0 <= k < LISTS && l.lists[k] != []
  {
    var l' := l.(lists := l.lists[k := l.lists[k][1..]], loose := l.loose + {Block(l.lists[k][0], ClassSize(k))});
    TakeIsSound(l, l', k);
    l'
  }

  lemma TakeIsSound(l: SoundLayout, l': Layout, k: int)
    requires 0 <= k < LISTS && l.lists[k] != []
    requires l' == l.(lists := l.lists[k := l.lists[k][1..]], loose := l.loose + {Block(l.lists[k][0], ClassSize(k))})
    ensures Sound(l')
  {
    assert Open(l);
    FreePop(l.lists, k);
    forall j, i, i' | 0 <= j < |l'.lists| && 0 <= i < i' < |l'.lists[j]| ensures l'.lists[j][i] != l'.lists[j][i'] {
      if j == k { assert l.lists[k][i + 1] != l.lists[k][i' + 1]; }
    }
    SamePieces(l, l');
  }

  /** A block in hand of the right size goes to the front of its list. */
  ghost function PutFront(l: SoundLayout, k: int, a: int): SoundLayout
    requires 0 <= k < LISTS && Block(a, ClassSize(k)) in l.loose
  {
    var l' := l.(lists := l.lists[k := [a] + l.lists[k]], loose := l.loose - {Block(a, ClassSize(k))});
    PutFrontIsSound(l, l', k, a);
    l'
  }

  lemma PutFrontIsSound(l: SoundLayout, l': Layout, k: int, a: int)
    requires 0 <= k < LISTS && Block(a, ClassSize(k)) in l.loose
    requires l' == l.(lists := l.lists[k := [a] + l.lists[k]], loose := l.loose - {Block(a, ClassSize(k))})
    ensures Sound(l')
  {
    assert Open(l);
    FreePush(l.lists, k, a);
    forall j, i, i' | 0 <= j < |l'.lists| && 0 <= i < i' < |l'.lists[j]| ensures l'.lists[j][i] != l'.lists[j][i'] {
      if j == k {
        FreeMember(l.lists, k, i' - 1);
        assert l'.lists[k][i'] == l.lists[k][i' - 1];
        assert i > 0 ==> l'.lists[k][i] == l.lists[k][i - 1];
      }
    }
    SamePieces(l, l');
  }

  /** A block in hand of the right size goes to the back of its list. */
  ghost function PutBack(l: SoundLayout, k: int, a: int): SoundLayout
    requires 0 <= k < LISTS && Block(a, ClassSize(k)) in l.loose
  {
    var l' := l.(lists := l.lists[k := l.lists[k] + [a]], loose := l.loose - {Block(a, ClassSize(k))});
    PutBackIsSound(l, l', k, a);
    l'
  }

  lemma PutBackIsSound(l: SoundLayout, l': Layout, k: int, a: int)
    requires 0 <= k < LISTS && Block(a, ClassSize(k)) in l.loose
    requires l' == l.(lists := l.lists[k := l.lists[k] + [a]], loose := l.loose - {Block(a, ClassSize(k))})
    ensures Sound(l')
  {
    assert Open(l);
    FreeAppend(l.lists, k, a);
    forall j, i, i' | 0 <= j < |l'.lists| && 0 <= i < i' < |l'.lists[j]| ensures l'.lists[j][i] != l'.lists[j][i'] {
      if j == k { FreeMember(l.lists, k, i); }
    }
    SamePieces(l, l');
  }

  /** A block in hand goes to the client. */
  ghost function HandOut(l: SoundLayout, b: Block): SoundLayout
    requires b in l.loose
  {
    assert Open(l);
    var l' := l.(live := l.live + {b}, loose := l.loose - {b});
    SamePieces(l, l');
    l'
  }

  /** A client returns a block. */
  ghost function TakeBack(l: SoundLayout, b: Block): SoundLayout
    requires b in l.live
  {
    assert Open(l);
    var l' := l.(live := l.live - {b}, loose := l.loose + {b});
    SamePieces(l, l');
    l'
  }

  /** The whole bump region, if any, is taken in hand; the empty region may be anywhere. */
  ghost function EmptyPool(l: SoundLayout, empty: Block): SoundLayout
    requires empty.size == 0
  {
    assert Open(l);
    var l' := l.(pool := empty, loose := l.loose + Pool(l.pool));
    SamePieces(l, l');
    l'
  }

  /** A block in hand becomes the bump region. */
  ghost function FillPool(l: SoundLayout, b: Block): SoundLayout
    requires b in l.loose && l.pool.size == 0
  {
    assert Open(l);
    var l' := l.(pool := b, loose := l.loose - {b});
    assert b in Pieces(l);
    SamePieces(l, l');
    l'
  }

  /** A block in hand is split in two. */
  ghost function Split(l: SoundLayout, b: Block, n: int): SoundLayout
    requires b in l.loose && 0 < n < b.size && n % ALIGN == 0
  {
    var l' := l.(loose := SplitOf(l.loose, b, n));
    SplitIsSound(l, l', b, n);
    l'
  }

  lemma SplitIsSound(l: SoundLayout, l': Layout, b: Block, n: int)
    requires b in l.loose && 0 < n < b.size && n % ALIGN == 0
    requires l' == l.(loose := SplitOf(l.loose, b, n))
    ensures Sound(l')
  {
    assert Open(l);
    SplitTiles(Pieces(l), l.areas, b, n);
    assert Pieces(l') == SplitOf(Pieces(l), b, n);
  }

  /** The first `n` bytes of the bump region are taken in hand. */
  ghost function Carve(l: SoundLayout, n: int): (l': SoundLayout)
    requires l.loose == {} && 0 < n <= l.pool.size && n % ALIGN == 0
    ensures l' == l.(pool := Block(l.pool.addr + n, l.pool.size - n), loose := {Block(l.pool.addr, n)})
  {
    var l1 := EmptyPool(l, Block(l.pool.addr + n, 0));
    var hi := Block(l.pool.addr + n, l.pool.size - n);
    PoolInHand(l.pool, n);
    if n == l.pool.size then l1 else FillPool(Split(l1, l.pool, n), hi)
  }

  lemma PoolInHand(pool: Block, n: int)
    requires 0 < n <= pool.size
    ensures {} + Pool(pool) == {pool}
    ensures n < pool.size ==>
              SplitOf({pool}, pool, n) - {Block(pool.addr + n, pool.size - n)} == {Block(pool.addr, n)}
  {
    assert SplitOf({pool}, pool, n) == {Block(pool.addr, n), Block(pool.addr + n, pool.size - n)};
  }

  /** A fresh area becomes the bump region. */
  ghost function Grow(l: SoundLayout, a: Block): SoundLayout
    requires l.loose == {} && l.pool.size == 0 && Proper(a)
    requires forall b :: b in l.areas ==> Apart(b, a)
  {
    var l' := l.(pool := a, areas := l.areas + {a});
    GrowIsSound(l, l', a);
    l'
  }

  lemma GrowIsSound(l: SoundLayout, l': Layout, a: Block)
    requires l.loose == {} && l.pool.size == 0 && Proper(a)
    requires forall b :: b in l.areas ==> Apart(b, a)
    requires l' == l.(pool := a, areas := l.areas + {a})
    ensures Sound(l') && Bytes(l'.areas) == Bytes(l.areas) + a.size
  {
    assert Open(l);
    GrowTiles(Pieces(l), l.areas, a);
    BytesAdd(Pieces(l), a);
    BytesAdd(l.areas, a);
    assert Pieces(l') == Pieces(l) + {a};
  }

  /** A free-list link occupies the first `LINK` bytes of a block. */
  const LINK: int := 8

  predicate InLink(x: int, addr: int) { addr <= x < addr + LINK }

  /** No byte of the link of a block in hand lies in a live block or in the link of a listed block. */
  lemma LooseIsElsewhere(l: SoundLayout, b: Block)
    requires b in l.loose
    ensures forall k, i :: 0 <= k < LISTS && 0 <= i < |l.lists[k]| ==>
                             l.lists[k][i] + LINK <= b.addr || b.addr + LINK <= l.lists[k][i]
    ensures forall x :: InLink(x, b.addr) ==> !Covered(x, l.live)
  {
    assert Open(l);
    var pieces := Pieces(l);
    assert b in pieces && LINK <= b.size;
    forall k, i | 0 <= k < LISTS && 0 <= i < |l.lists[k]|
      ensures l.lists[k][i] + LINK <= b.addr || b.addr + LINK <= l.lists[k][i]
    {
      FreeMember(l.lists, k, i);
      var c := Block(l.lists[k][i], ClassSize(k));
      assert c in pieces && c != b && Apart(b, c);
    }
    forall x, c | InLink(x, b.addr) && c in l.live ensures !In(x, c) {
      assert c in pieces && c != b && Apart(b, c);
    }
  }
}
