/** Buffer.h and Buffer.cpp: the byte buffer between a file descriptor and the user. Prependable,
    readable and writable bytes live in one array; every method is stated on the readable bytes
    alone, the sequence a user sees. */
module Buffers {

  type byte = x: int | 0 <= x < 256

  const CHEAP_PREPEND: nat := 8
  const EXTRA: nat := 65536

  // ---------- integers in network byte order ----------

  function Pow(n: nat): (p: nat)
    ensures 0 < p
  {
    if n == 0 then 1 else 256 * Pow(n - 1)
  }

  /** The `n` low bytes of `u`, most significant first. */
  function Encode(u: nat, n: nat): (bs: seq<byte>)
    ensures |bs| == n
  {
    if n == 0 then [] else Encode(u / 256, n - 1) + [u % 256]
  }

  function Decode(bs: seq<byte>): nat {
    if bs == [] then 0 else Decode(bs[..|bs| - 1]) * 256 + bs[|bs| - 1]
  }

  lemma {:induction false} DecodeEncode(u: nat, n: nat)
    requires u < Pow(n)
    ensures Decode(Encode(u, n)) == u
  {
    if n != 0 {
      assert u == 256 * (u / 256) + u % 256;
      DecodeEncode(u / 256, n - 1);
      assert Encode(u, n)[..n - 1] == Encode(u / 256, n - 1);
    }
  }

  lemma {:induction false} EncodeDecode(bs: seq<byte>)
    ensures Decode(bs) < Pow(|bs|) && Encode(Decode(bs), |bs|) == bs
  {
    if bs != [] {
      var init := bs[..|bs| - 1];
      EncodeDecode(init);
      assert bs == init + [bs[|bs| - 1]];
    }
  }

  /** Network byte order: the first byte carries the highest weight. */
  lemma {:induction false} DecodeFirst(b: byte, bs: seq<byte>)
    ensures Decode([b] + bs) == b * Pow(|bs|) + Decode(bs)
  {
    if bs == [] {
      assert [b] + bs == [b];
    } else {
      var init := bs[..|bs| - 1];
      DecodeFirst(b, init);
      assert ([b] + bs)[..|bs|] == [b] + init;
      assert b * Pow(|bs|) == 256 * (b * Pow(|init|));
    }
  }

  /** The range of a signed integer of `n` bytes. */
  predicate InRange(x: int, n: nat) { 0 - Pow(n) <= 2 * x < Pow(n) }

  /** The bytes of a two's-complement integer in network byte order. */
  function IntBytes(x: int, n: nat): (bs: seq<byte>)
    requires InRange(x, n)
    ensures |bs| == n
  {
    Encode(if x < 0 then x + Pow(n) else x, n)
  }

  function BytesInt(bs: seq<byte>): int {
    var u := Decode(bs);
    if 2 * u >= Pow(|bs|) then u - Pow(|bs|) else u
  }

  lemma IntRoundTrip(x: int, n: nat)
    requires InRange(x, n)
    ensures BytesInt(IntBytes(x, n)) == x
  {
    DecodeEncode(if x < 0 then x + Pow(n) else x, n);
  }

  lemma BytesRoundTrip(bs: seq<byte>)
    ensures InRange(BytesInt(bs), |bs|) && IntBytes(BytesInt(bs), |bs|) == bs
  {
    EncodeDecode(bs);
  }

  datatype Field = Field(width: nat, value: int)

  ghost predicate AllInRange(fs: seq<Field>) { forall f :: f in fs ==> InRange(f.value, f.width) }

  function EncodeAll(fs: seq<Field>): seq<byte>
    requires AllInRange(fs)
  {
    if fs == [] then [] else IntBytes(fs[0].value, fs[0].width) + EncodeAll(fs[1..])
  }

  /** Reads one integer per width off the front. */
  function DecodeAll(widths: seq<nat>, bs: seq<byte>): (seq<Field>, seq<byte>)
    decreases |widths|
  {
    if widths == [] || |bs| < widths[0] then ([], bs)
    else
      var (fs, rest) := DecodeAll(widths[1..], bs[widths[0]..]);
      ([Field(widths[0], BytesInt(bs[..widths[0]]))] + fs, rest)
  }

  function Widths(fs: seq<Field>): seq<nat> { seq(|fs|, i requires 0 <= i < |fs| => fs[i].width) }

  /** Any run of integer appends is undone by the reads of the same widths, whatever follows. */
  lemma {:induction false} FieldsRoundTrip(fs: seq<Field>, tail: seq<byte>)
    requires AllInRange(fs)
    ensures DecodeAll(Widths(fs), EncodeAll(fs) + tail) == (fs, tail)
    decreases |fs|
  {
    if fs == [] {
      assert EncodeAll(fs) + tail == tail;
    } else {
      var head, more := IntBytes(fs[0].value, fs[0].width), EncodeAll(fs[1..]) + tail;
      assert EncodeAll(fs) + tail == head + more;
      assert Widths(fs) == [fs[0].width] + Widths(fs[1..]);
      IntRoundTrip(fs[0].value, fs[0].width);
      FieldsRoundTrip(fs[1..], tail);
      DecodeStep(fs[0], Widths(fs[1..]), head, more);
      assert [fs[0]] + fs[1..] == fs;
    }
  }

  lemma DecodeStep(f: Field, widths: seq<nat>, head: seq<byte>, more: seq<byte>)
    requires |head| == f.width && BytesInt(head) == f.value
    ensures DecodeAll([f.width] + widths, head + more) ==
            ([f] + DecodeAll(widths, more).0, DecodeAll(widths, more).1)
  {
    assert (head + more)[..f.width] == head && (head + more)[f.width..] == more;
    assert ([f.width] + widths)[1..] == widths;
  }

  // ---------- the buffer ----------

  /** The outcome of readv: an errno, or the bytes read (none at end of file). */
  datatype ReadResult = Failed(errno: int) | Got(bytes: seq<byte>)

  lemma Spliced(s: seq<byte>, t: seq<byte>, at: nat, bs: seq<byte>)
    requires at + |bs| <= |s| && t == s[..at] + bs + s[at + |bs|..]
    ensures forall r :: 0 <= r <= at ==> t[r..at + |bs|] == s[r..at] + bs
  {
    forall r | 0 <= r <= at ensures t[r..at + |bs|] == s[r..at] + bs { }
  }

  class Buffer {
    var data: array<byte>
    var readerIndex: nat
    var writerIndex: nat

    ghost predicate Valid()
      reads this
    {
      CHEAP_PREPEND <= data.Length && readerIndex <= writerIndex <= data.Length
    }

    /** The readable bytes. */
    ghost function Contents(): seq<byte>
      requires Valid()
      reads this, data
    {
      data[readerIndex..writerIndex]
    }

    function ReadableBytes(): nat
      requires Valid()
      reads this
    {
      writerIndex - readerIndex
    }

    function WriteableBytes(): nat
      requires Valid()
      reads this
    {
      data.Length - writerIndex
    }

    function PrependableBytes(): nat
      reads this
    {
      readerIndex
    }

    constructor (initialSize: nat)
      ensures Valid() && fresh(data) && Contents() == []
      ensures WriteableBytes() == initialSize && PrependableBytes() == CHEAP_PREPEND
    {
      data := new byte[CHEAP_PREPEND + initialSize](_ => 0);
      readerIndex, writerIndex := CHEAP_PREPEND, CHEAP_PREPEND;
    }

    method RetrieveAll()
      requires Valid()
      modifies this`readerIndex, this`writerIndex
      ensures Valid() && Contents() == [] && PrependableBytes() == CHEAP_PREPEND
    {
      readerIndex, writerIndex := CHEAP_PREPEND, CHEAP_PREPEND;
    }

    method Retrieve(len: nat)
      requires Valid() && len <= ReadableBytes()
      modifies this`readerIndex, this`writerIndex
      ensures Valid() && Contents() == old(Contents())[len..]
      ensures len == old(ReadableBytes()) ==> PrependableBytes() == CHEAP_PREPEND
    {
      if len < ReadableBytes() {
        readerIndex := readerIndex + len;
      } else {
        RetrieveAll();
      }
    }

    method RetrieveAsString(len: nat) returns (r: seq<byte>)
      requires Valid() && len <= ReadableBytes()
      modifies this`readerIndex, this`writerIndex
      ensures Valid() && old(Contents()) == r + Contents() && |r| == len
    {
      r := data[readerIndex..readerIndex + len];
      Retrieve(len);
    }

    /** The overlapping copy to lower addresses, one byte at a time from the front. */
    method MoveDown(dst: nat, src: nat, n: nat)
      requires dst <= src && src + n <= data.Length
      modifies data
      ensures data[dst..dst + n] == old(data[src..src + n])
    {
      var i := 0;
      while i < n
        invariant i <= n
        invariant forall j :: dst <= j < dst + i ==> data[j] == old(data[j + (src - dst)])
        invariant forall j :: src + i <= j < data.Length ==> data[j] == old(data[j])
      {
        data[dst + i] := data[src + i];
        i := i + 1;
      }
    }

    method Resize(size: nat)
      requires data.Length <= size
      modifies this`data
      ensures fresh(data) && data.Length == size
      ensures forall i :: 0 <= i < old(data.Length) ==> data[i] == old(data[i])
    {
      var bigger := new byte[size](_ => 0);
      var i := 0;
      while i < data.Length
        invariant i <= data.Length && data == old(data) && data[..] == old(data[..])
        invariant forall j :: 0 <= j < i ==> bigger[j] == data[j]
      {
        bigger[i] := data[i];
        i := i + 1;
      }
      data := bigger;
    }

    /** Makes room for `len` more bytes, by growing the array or by moving the contents down. */
    method BroadenSpace(len: nat)
      requires Valid() && WriteableBytes() < len
      modifies this, data
      ensures Valid() && Contents() == old(Contents()) && len <= WriteableBytes()
      ensures data == old(data) || fresh(data)
      ensures data == old(data) <==> len + CHEAP_PREPEND <= old(WriteableBytes() + PrependableBytes())
      ensures data == old(data) ==> PrependableBytes() == CHEAP_PREPEND
      ensures data != old(data) ==> WriteableBytes() == len && PrependableBytes() == old(PrependableBytes())
    {
      if WriteableBytes() + PrependableBytes() < len + CHEAP_PREPEND {
        Resize(writerIndex + len);
      } else {
        assert CHEAP_PREPEND < readerIndex;
        var readable := ReadableBytes();
        MoveDown(CHEAP_PREPEND, readerIndex, readable);
        readerIndex := CHEAP_PREPEND;
        writerIndex := readerIndex + readable;
      }
    }

    method EnsureWriteableBytes(len: nat)
      requires Valid()
      modifies this, data
      ensures Valid() && Contents() == old(Contents()) && len <= WriteableBytes()
      ensures data == old(data) || fresh(data)
    {
      if WriteableBytes() < len {
        BroadenSpace(len);
      }
    }

    /** Copies bytes into the array. */
    method CopyIn(at: nat, bs: seq<byte>)
      requires at + |bs| <= data.Length
      modifies data
      ensures data[..] == old(data[..at]) + bs + old(data[at + |bs|..])
    {
      var i := 0;
      while i < |bs|
        invariant i <= |bs|
        invariant data[..] == old(data[..at]) + bs[..i] + old(data[at + i..])
      {
        data[at + i] := bs[i];
        i := i + 1;
      }
    }

    method Append(bs: seq<byte>)
      requires Valid()
      modifies this, data
      ensures Valid() && Contents() == old(Contents()) + bs
      ensures data == old(data) || fresh(data)
    {
      EnsureWriteableBytes(|bs|);
      ghost var s := data[..];
      CopyIn(writerIndex, bs);
      Spliced(s, data[..], writerIndex, bs);
      writerIndex := writerIndex + |bs|;
      assert Contents() == data[..][readerIndex..writerIndex];
    }

    method Prepend(bs: seq<byte>)
      requires Valid() && |bs| <= PrependableBytes()
      modifies this`readerIndex, data
      ensures Valid() && Contents() == bs + old(Contents())
    {
      ghost var s := data[..];
      CopyIn(readerIndex - |bs|, bs);
      readerIndex := readerIndex - |bs|;
      assert data[..][readerIndex..writerIndex] == bs + s[readerIndex + |bs|..writerIndex];
    }

    /** How much one scatter read may take: the writable bytes, and 64 KiB beside them when the
        former are fewer than that. */
    function ReadLimit(): nat
      requires Valid()
      reads this
    {
      WriteableBytes() + if WriteableBytes() < EXTRA then EXTRA else 0
    }

    /** Appends exactly the bytes read: the kernel fills the writable bytes first and spills the
        rest into a second buffer, which is appended. A failed read changes nothing. */
    method ReadFd(r: ReadResult) returns (n: int)
      requires Valid() && (r.Got? ==> |r.bytes| <= ReadLimit())
      modifies this, data
      ensures Valid()
      ensures Contents() == if r.Got? then old(Contents()) + r.bytes else old(Contents())
      ensures n == if r.Got? then |r.bytes| else -1
      ensures data == old(data) || fresh(data)
    {
      if r.Failed? {
        return -1;
      }
      n := |r.bytes|;
      var writable := WriteableBytes();
      CopyIn(writerIndex, r.bytes[..if n <= writable then n else writable]);
      if n <= writable {
        writerIndex := writerIndex + n;
      } else {
        writerIndex := data.Length;
        assert Contents() == old(Contents()) + r.bytes[..writable];
        Append(r.bytes[writable..]);
        assert r.bytes[..writable] + r.bytes[writable..] == r.bytes;
      }
    }

    // ---------- integers ----------

    method AppendInt(x: int, width: nat)
      requires Valid() && width in {1, 2, 4, 8} && InRange(x, width)
      modifies this, data
      ensures Valid() && Contents() == old(Contents()) + IntBytes(x, width)
      ensures data == old(data) || fresh(data)
    {
      Append(IntBytes(x, width));
    }

    method PrependInt(x: int, width: nat)
      requires Valid() && width in {1, 2, 4, 8} && InRange(x, width) && width <= PrependableBytes()
      modifies this`readerIndex, data
      ensures Valid() && Contents() == IntBytes(x, width) + old(Contents())
    {
      Prepend(IntBytes(x, width));
    }

    function PeekInt(width: nat): int
      requires Valid() && width <= ReadableBytes()
      reads this, data
    {
      BytesInt(data[readerIndex..readerIndex + width])
    }

    /** Takes one integer off the front. */
    method ReadInt(width: nat) returns (x: int)
      requires Valid() && width in {1, 2, 4, 8} && width <= ReadableBytes()
      modifies this`readerIndex, this`writerIndex
      ensures Valid() && InRange(x, width)
      ensures old(Contents()) == IntBytes(x, width) + Contents()
    {
      x := PeekInt(width);
      BytesRoundTrip(data[readerIndex..readerIndex + width]);
      Retrieve(width);
    }
  }
}
