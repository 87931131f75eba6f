/** The constant pool as the lazy reader sees it. Its entry layout and its
    decoder are not part of this model: a `PoolFormat` gives how many bytes the
    pool occupies and what it decodes to, and both the decoding path and the
    skipping path consult that one width, so they always leave the stream at
    the same position. */
module ConstantPools {
  import opened IoResult
  import opened DataInput

  /** A method's identity: name and descriptor, matched by exact equality. */
  datatype MethodId = MethodId(name: string, descriptor: string)

  /** A decoded pool, seen only through the two lookups the reader makes:
      resolving a method's name and descriptor indices (getClassElement with
      the METHOD kind, which also receives the class name) and the string of
      a primitive constant (an attribute's name). */
  datatype ConstantPool = ConstantPool(
    methodElement: (string, nat, nat) -> MethodId,
    primitiveString: nat -> string)

  /** `width(rest)` is the size of the pool that starts at `rest[0]`;
      `decode(region)` is the pool those bytes hold. */
  datatype PoolFormat = PoolFormat(
    width: seq<byte> -> nat,
    decode: seq<byte> -> ConstantPool)

  /** Where a pool starting at `pos` ends, or EndOfData if the buffer is too short. */
  function PoolEnd(buf: seq<byte>, pos: nat, format: PoolFormat): (r: Result<nat>)
    requires pos <= |buf|
    ensures r.Ok? ==> pos <= r.value <= |buf|
    ensures r.Fail? ==> r.error == EndOfData
  {
    var w := format.width(buf[pos..]);
    if pos + w <= |buf| then Ok(pos + w) else Fail(EndOfData)
  }

  /** The pool decoded from the region that starts at `pos`. */
  function PoolAt(buf: seq<byte>, pos: nat, format: PoolFormat): Result<ConstantPool>
    requires pos <= |buf|
  {
    match PoolEnd(buf, pos, format)
    case Fail(e) => Fail(e)
    case Ok(end) => Ok(format.decode(buf[pos..end]))
  }

  /** `new ConstantPool(in)`: decodes the pool at the stream's position. */
  method DecodePool(stream: DataInputFullStream, format: PoolFormat) returns (r: Result<ConstantPool>)
    requires stream.Valid()
    modifies stream
    ensures stream.Valid()
    ensures r == PoolAt(stream.buf, old(stream.pos), format)
    ensures r.Ok? ==> PoolEnd(stream.buf, old(stream.pos), format) == Ok(stream.pos)
  {
    var start := stream.pos;
    var s := stream.Discard(format.width(stream.buf[start..]));
    if s.Failed? {
      return Fail(s.error);
    }
    return Ok(format.decode(stream.buf[start..stream.pos]));
  }

  /** `ConstantPool.skipPool(in)`: moves past the pool without decoding it. */
  method SkipPool(stream: DataInputFullStream, format: PoolFormat) returns (s: Status)
    requires stream.Valid()
    modifies stream
    ensures stream.Valid()
    ensures PoolEnd(stream.buf, old(stream.pos), format) == if s.Done? then Ok(stream.pos) else Fail(s.error)
  {
    s := stream.Discard(format.width(stream.buf[stream.pos..]));
  }
}
