/** The binary cursor the reader works through: a byte buffer and a read
    position that only moves forward. Multi-byte integers are big-endian and
    unsigned, as the class-file format's u2 and u4 items are (JVMS 4.1). */
module DataInput {
  import opened IoResult

  newtype byte = b: int | 0 <= b < 0x100

  const U2Bound: nat := 0x1_0000
  const U4Bound: nat := 0x1_0000_0000

  /** The u2 stored at `buf[i]`, `buf[i + 1]`. */
  function U2At(buf: seq<byte>, i: nat): nat
    requires i + 2 <= |buf|
  {
    buf[i] as nat * 0x100 + buf[i + 1] as nat
  }

  /** The u4 stored at `buf[i..i + 4]`. */
  function U4At(buf: seq<byte>, i: nat): nat
    requires i + 4 <= |buf|
  {
    U2At(buf, i) * 0x1_0000 + U2At(buf, i + 2)
  }

  /** The two bytes of a u2. */
  function U2(x: nat): (e: seq<byte>)
    requires x < U2Bound
    ensures |e| == 2
  {
    [(x / 0x100) as byte, (x % 0x100) as byte]
  }

  /** The four bytes of a u4. */
  function U4(x: nat): (e: seq<byte>)
    requires x < U4Bound
    ensures |e| == 4
  {
    U2(x / 0x1_0000) + U2(x % 0x1_0000)
  }

  /** `e` occurs in `buf` starting at offset `pos`. */
  ghost predicate At(buf: seq<byte>, pos: nat, e: seq<byte>) {
    pos + |e| <= |buf| && forall i {:trigger e[i]} :: 0 <= i < |e| ==> buf[pos + i] == e[i]
  }

  lemma AtSplit(buf: seq<byte>, pos: nat, a: seq<byte>, b: seq<byte>)
    requires At(buf, pos, a + b)
    ensures At(buf, pos, a) && At(buf, pos + |a|, b)
  {
    forall i | 0 <= i < |a| ensures buf[pos + i] == a[i] {
      assert (a + b)[i] == a[i];
    }
    forall i | 0 <= i < |b| ensures buf[pos + |a| + i] == b[i] {
      assert (a + b)[|a| + i] == b[i];
      assert buf[pos + (|a| + i)] == (a + b)[|a| + i];
    }
  }

  /** AtSplit with the split point named by the caller. */
  lemma AtSplitAt(buf: seq<byte>, pos: nat, a: seq<byte>, b: seq<byte>, mid: nat)
    requires At(buf, pos, a + b) && mid == pos + |a|
    ensures At(buf, pos, a) && At(buf, mid, b)
  {
    AtSplit(buf, pos, a, b);
  }

  lemma AtSlice(buf: seq<byte>, pos: nat, e: seq<byte>)
    requires At(buf, pos, e)
    ensures buf[pos..pos + |e|] == e
  {
    forall i | 0 <= i < |e| ensures buf[pos..pos + |e|][i] == e[i] {
    }
  }

  /** Reading a u2 where one was written gives back its value. */
  lemma U2Decodes(buf: seq<byte>, pos: nat, x: nat)
    requires x < U2Bound && At(buf, pos, U2(x))
    ensures pos + 2 <= |buf| && U2At(buf, pos) == x
  {
    assert buf[pos + 0] == U2(x)[0];
    assert buf[pos + 1] == U2(x)[1];
  }

  /** Reading a u4 where one was written gives back its value. */
  lemma U4Decodes(buf: seq<byte>, pos: nat, x: nat)
    requires x < U4Bound && At(buf, pos, U4(x))
    ensures pos + 4 <= |buf| && U4At(buf, pos) == x
  {
    AtSplit(buf, pos, U2(x / 0x1_0000), U2(x % 0x1_0000));
    U2Decodes(buf, pos, x / 0x1_0000);
    U2Decodes(buf, pos + 2, x % 0x1_0000);
  }

  /** A u2 written in front of `tail` reads back, and `tail` follows it. */
  lemma U2Prefix(buf: seq<byte>, pos: nat, x: nat, tail: seq<byte>)
    requires x < U2Bound && At(buf, pos, U2(x) + tail)
    ensures pos + 2 <= |buf| && U2At(buf, pos) == x
    ensures At(buf, pos + 2, tail)
  {
    AtSplit(buf, pos, U2(x), tail);
    U2Decodes(buf, pos, x);
  }

  /** A u4 written in front of `tail` reads back, and `tail` follows it. */
  lemma U4Prefix(buf: seq<byte>, pos: nat, x: nat, tail: seq<byte>)
    requires x < U4Bound && At(buf, pos, U4(x) + tail)
    ensures pos + 4 <= |buf| && U4At(buf, pos) == x
    ensures At(buf, pos + 4, tail)
  {
    AtSplit(buf, pos, U4(x), tail);
    U4Decodes(buf, pos, x);
  }

  /** The stream a class file is read through (DataInputFullStream). Every
      read or skip either moves `pos` forward by exactly its width or fails
      with EndOfData; after a failure the stream is abandoned. */
  class DataInputFullStream {
    const buf: seq<byte>
    var pos: nat

    ghost predicate Valid()
      reads this
    {
      pos <= |buf|
    }

    constructor (bytes: seq<byte>)
      ensures Valid() && buf == bytes && pos == 0
    {
      buf := bytes;
      pos := 0;
    }

    /** Skips `n` bytes without copying them. */
    method Discard(n: nat) returns (s: Status)
      requires Valid()
      modifies this
      ensures Valid()
      ensures s == if old(pos) + n <= |buf| then Done else Failed(EndOfData)
      ensures s.Done? ==> pos == old(pos) + n
    {
      if pos + n <= |buf| {
        pos := pos + n;
        return Done;
      }
      return Failed(EndOfData);
    }

    method ReadUnsignedShort() returns (r: Result<nat>)
      requires Valid()
      modifies this
      ensures Valid()
      ensures r == if old(pos) + 2 <= |buf| then Ok(U2At(buf, old(pos))) else Fail(EndOfData)
      ensures r.Ok? ==> pos == old(pos) + 2 && r.value < U2Bound
    {
      if pos + 2 <= |buf| {
        r := Ok(U2At(buf, pos));
        pos := pos + 2;
        return;
      }
      return Fail(EndOfData);
    }

    /** Reads a 4-byte length as the unsigned u4 the format defines. */
    method ReadInt() returns (r: Result<nat>)
      requires Valid()
      modifies this
      ensures Valid()
      ensures r == if old(pos) + 4 <= |buf| then Ok(U4At(buf, old(pos))) else Fail(EndOfData)
      ensures r.Ok? ==> pos == old(pos) + 4
    {
      if pos + 4 <= |buf| {
        r := Ok(U4At(buf, pos));
        pos := pos + 4;
        return;
      }
      return Fail(EndOfData);
    }

    /** Reads exactly `n` bytes. */
    method Read(n: nat) returns (r: Result<seq<byte>>)
      requires Valid()
      modifies this
      ensures Valid()
      ensures r == if old(pos) + n <= |buf| then Ok(buf[old(pos)..old(pos) + n]) else Fail(EndOfData)
      ensures r.Ok? ==> pos == old(pos) + n
    {
      if pos + n <= |buf| {
        r := Ok(buf[pos..pos + n]);
        pos := pos + n;
        return;
      }
      return Fail(EndOfData);
    }
  }
}
