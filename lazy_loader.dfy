/** LazyLoader: a registry from class names to where their bytes live, and a
    forward-only reader that pulls either the constant pool or one method's
    bytecode out of a class file without decoding the rest. */
module LazyLoading {
  import opened IoResult
  import opened DataInput
  import opened ConstantPools
  import opened ClassFormat

  /** Where a class's bytes live: in memory (`data`), or else an entry
      `internalPath` of the container at `externalPath`. The two-argument
      Java constructor is `Link(externalPath, internalPath, None)`. */
  datatype Link = Link(externalPath: string, internalPath: string, data: Option<seq<byte>>)

  /** What loadBytecode reads from the class structure: its name and the
      pool it may already hold (getPool() may be null). */
  datatype ClassStruct = ClassStruct(qualifiedName: string, pool: Option<ConstantPool>)

  /** The name of the Code attribute (JVMS 4.7.3). */
  const CodeAttributeName: string := "Code"

  /** The external source of class bytes (IBytecodeProvider). `source` says
      what it yields for a path pair, `None` when it throws; `calls` records
      every request made to it. */
  class BytecodeProvider {
    const source: (string, string) -> Option<seq<byte>>
    ghost var calls: seq<(string, string)>

    constructor (source: (string, string) -> Option<seq<byte>>)
      ensures this.source == source && calls == []
    {
      this.source := source;
      calls := [];
    }

    method GetBytecode(externalPath: string, internalPath: string) returns (r: Result<seq<byte>>)
      modifies this
      ensures calls == old(calls) + [(externalPath, internalPath)]
      ensures r == match source(externalPath, internalPath)
                   case Some(bytes) => Ok(bytes)
                   case None => Fail(ProviderFailure(externalPath, internalPath))
    {
      calls := calls + [(externalPath, internalPath)];
      match source(externalPath, internalPath)
      case Some(bytes) => return Ok(bytes);
      case None => return Fail(ProviderFailure(externalPath, internalPath));
    }
  }

  // ----- specification of the registry lookups -----

  /** The bytes getClassStream(className) wraps: none without a link, the
      link's own data when it has some, otherwise what the provider yields. */
  function ClassBytes(links: map<string, Link>, source: (string, string) -> Option<seq<byte>>,
                      className: string): Result<Option<seq<byte>>>
  {
    if className !in links then Ok(None)
    else
      var link := links[className];
      match link.data
      case Some(bytes) => Ok(Some(bytes))
      case None =>
        match source(link.externalPath, link.internalPath)
        case Some(bytes) => Ok(Some(bytes))
        case None => Fail(ProviderFailure(link.externalPath, link.internalPath))
  }

  /** The provider requests getClassStream(className) makes: one exactly when
      the class has a link without in-memory data. */
  function ProviderRequests(links: map<string, Link>, className: string): seq<(string, string)> {
    if className in links && links[className].data.None?
    then [(links[className].externalPath, links[className].internalPath)]
    else []
  }

  // ----- specification of loadPool and loadBytecode over a class file's bytes -----

  /** loadPool on a class file: skip the 8-byte header and decode the pool. */
  function PoolOfClass(buf: seq<byte>, format: PoolFormat): Result<ConstantPool> {
    if |buf| < 8 then Fail(EndOfData) else PoolAt(buf, 8, format)
  }

  /** The offset of methods_count, given where the constant pool ends: past
      access_flags, this_class and super_class (6 bytes), the interfaces table
      (a u2 count and 2 bytes per entry) and the fields table. */
  function MethodsCountAt(buf: seq<byte>, poolEnd: nat): Result<nat> {
    if poolEnd + 8 > |buf| then Fail(EndOfData)
    else FieldsEnd(buf, poolEnd + 8 + 2 * U2At(buf, poolEnd + 6))
  }

  /** The end of the fields table at `countAt`: its u2 count, then the fields. */
  function FieldsEnd(buf: seq<byte>, countAt: nat): Result<nat> {
    if countAt + 2 > |buf| then Fail(EndOfData)
    else FieldEntriesEnd(buf, countAt + 2, U2At(buf, countAt))
  }

  /** Scanning the attributes of the matching method for Code: any other
      attribute is skipped by its u4 length; at Code, the 12 bytes after its
      name index (attribute_length, max_stack, max_locals, code_length) are
      skipped and exactly `codeLength` bytes are the result. */
  function ScanCode(buf: seq<byte>, pos: nat, count: nat, pool: ConstantPool, codeLength: nat)
    : Result<Option<seq<byte>>>
    decreases count
  {
    if count == 0 then Ok(None)
    else if pos + 2 > |buf| then Fail(EndOfData)
    else if CodeAttributeName != pool.primitiveString(U2At(buf, pos)) then
      if pos + 6 > |buf| then Fail(EndOfData)
      else if pos + 6 + U4At(buf, pos + 2) > |buf| then Fail(EndOfData)
      else ScanCode(buf, pos + 6 + U4At(buf, pos + 2), count - 1, pool, codeLength)
    else if pos + 14 + codeLength > |buf| then Fail(EndOfData)
    else Ok(Some(buf[pos + 14..pos + 14 + codeLength]))
  }

  /** Scanning `count` method_info entries: a method whose resolved name or
      descriptor differs from `mt` has its attribute table skipped; the first
      one that matches both decides the result, found or not. */
  function ScanMethods(buf: seq<byte>, pos: nat, count: nat, pool: ConstantPool,
                       className: string, mt: MethodId, codeLength: nat): Result<Option<seq<byte>>>
    decreases count
  {
    if count == 0 then Ok(None)
    else if pos + 6 > |buf| then Fail(EndOfData)
    else
      var values := pool.methodElement(className, U2At(buf, pos + 2), U2At(buf, pos + 4));
      if mt.name != values.name || mt.descriptor != values.descriptor then
        match AttributesEnd(buf, pos + 6)
        case Fail(e) => Fail(e)
        case Ok(next) => ScanMethods(buf, next, count - 1, pool, className, mt, codeLength)
      else CodeIn(buf, pos + 6, pool, codeLength)
  }

  /** One step of the methods scan past a method that does not match. */
  lemma ScanMethodsSkips(buf: seq<byte>, pos: nat, count: nat, pool: ConstantPool,
                         className: string, mt: MethodId, codeLength: nat, next: nat)
    requires 0 < count && pos + 6 <= |buf|
    requires mt != pool.methodElement(className, U2At(buf, pos + 2), U2At(buf, pos + 4))
    requires AttributesEnd(buf, pos + 6) == Ok(next)
    ensures ScanMethods(buf, pos, count, pool, className, mt, codeLength)
         == ScanMethods(buf, next, count - 1, pool, className, mt, codeLength)
  {
  }

  /** One step of the Code scan past an attribute with another name. */
  lemma ScanCodeSkips(buf: seq<byte>, pos: nat, count: nat, pool: ConstantPool, codeLength: nat)
    requires 0 < count && pos + 6 <= |buf| && pos + 6 + U4At(buf, pos + 2) <= |buf|
    requires CodeAttributeName != pool.primitiveString(U2At(buf, pos))
    ensures ScanCode(buf, pos, count, pool, codeLength)
         == ScanCode(buf, pos + 6 + U4At(buf, pos + 2), count - 1, pool, codeLength)
  {
  }

  /** The attribute table of the matching method at `countAt`: its u2
      count, then the scan for Code. */
  function CodeIn(buf: seq<byte>, countAt: nat, pool: ConstantPool, codeLength: nat)
    : Result<Option<seq<byte>>>
  {
    if countAt + 2 > |buf| then Fail(EndOfData)
    else ScanCode(buf, countAt + 2, U2At(buf, countAt), pool, codeLength)
  }

  /** The methods table at `countAt`: its u2 count, then the scan. */
  function MethodsIn(buf: seq<byte>, countAt: nat, pool: ConstantPool,
                     className: string, mt: MethodId, codeLength: nat): Result<Option<seq<byte>>>
  {
    if countAt + 2 > |buf| then Fail(EndOfData)
    else ScanMethods(buf, countAt + 2, U2At(buf, countAt), pool, className, mt, codeLength)
  }

  /** The pool loadBytecode resolves names through: the one the class
      already holds, or else the one decoded from the file. */
  function PoolInUse(classStruct: ClassStruct, format: PoolFormat, region: seq<byte>): ConstantPool {
    if classStruct.pool.Some? then classStruct.pool.value else format.decode(region)
  }

  /** The first part of loadBytecode's walk: the pool it resolves names
      through and the offset of methods_count. */
  function MethodsTable(buf: seq<byte>, classStruct: ClassStruct, format: PoolFormat)
    : Result<(ConstantPool, nat)>
  {
    if |buf| < 8 then Fail(EndOfData)
    else match PoolEnd(buf, 8, format)
      case Fail(e) => Fail(e)
      case Ok(poolEnd) =>
        match MethodsCountAt(buf, poolEnd)
        case Fail(e) => Fail(e)
        case Ok(countAt) => Ok((PoolInUse(classStruct, format, buf[8..poolEnd]), countAt))
  }

  /** loadBytecode on a class file's bytes. */
  function BytecodeIn(buf: seq<byte>, classStruct: ClassStruct, format: PoolFormat,
                      mt: MethodId, codeLength: nat): Result<Option<seq<byte>>>
  {
    match MethodsTable(buf, classStruct, format)
    case Fail(e) => Fail(e)
    case Ok((pool, countAt)) => MethodsIn(buf, countAt, pool, classStruct.qualifiedName, mt, codeLength)
  }

  /** The whole of loadPool, from the bytes getClassStream finds. */
  function LoadedPool(bytes: Result<Option<seq<byte>>>, format: PoolFormat): Result<Option<ConstantPool>> {
    match bytes
    case Fail(e) => Fail(e)
    case Ok(None) => Ok(None)
    case Ok(Some(buf)) =>
      match PoolOfClass(buf, format)
      case Fail(e) => Fail(e)
      case Ok(pool) => Ok(Some(pool))
  }

  /** The whole of loadBytecode, from the bytes getClassStream finds. */
  function LoadedBytecode(bytes: Result<Option<seq<byte>>>, classStruct: ClassStruct, format: PoolFormat,
                          mt: MethodId, codeLength: nat): Result<Option<seq<byte>>>
  {
    match bytes
    case Fail(e) => Fail(e)
    case Ok(None) => Ok(None)
    case Ok(Some(buf)) => BytecodeIn(buf, classStruct, format, mt, codeLength)
  }

  class LazyLoader {
    /** mapClassLinks */
    var links: map<string, Link>
    const provider: BytecodeProvider

    constructor (provider: BytecodeProvider)
      ensures links == map[] && this.provider == provider
    {
      links := map[];
      this.provider := provider;
    }

    /** Last write wins: the entry for `className` becomes `link`, every
        other entry stays as it was. */
    method AddClassLink(className: string, link: Link)
      modifies this
      ensures links == old(links)[className := link]
    {
      links := links[className := link];
    }

    /** Drops the entry for `className`, if any; every other entry stays. */
    method RemoveClassLink(className: string)
      modifies this
      ensures links == old(links) - {className}
    {
      links := links - {className};
    }

    method GetClassLink(className: string) returns (link: Option<Link>)
      ensures className in links <==> link.Some?
      ensures link.Some? ==> link.value == links[className]
    {
      if className in links {
        return Some(links[className]);
      }
      return None;
    }

    /** getClassStream(externalPath, internalPath): asks the provider. */
    method GetClassStreamAt(externalPath: string, internalPath: string) returns (r: Result<DataInputFullStream>)
      modifies provider
      ensures provider.calls == old(provider.calls) + [(externalPath, internalPath)]
      ensures provider.source(externalPath, internalPath).None? ==>
                r == Fail(ProviderFailure(externalPath, internalPath))
      ensures provider.source(externalPath, internalPath).Some? ==>
                && r.Ok? && fresh(r.value) && r.value.Valid() && r.value.pos == 0
                && r.value.buf == provider.source(externalPath, internalPath).value
    {
      var bytes :- provider.GetBytecode(externalPath, internalPath);
      var stream := new DataInputFullStream(bytes);
      return Ok(stream);
    }

    /** getClassStream(className): no stream without a link; the link's data
        when it has some, without asking the provider; otherwise the
        provider's bytes for the link's paths. */
    method GetClassStream(className: string) returns (r: Result<Option<DataInputFullStream>>)
      modifies provider
      ensures provider.calls == old(provider.calls) + ProviderRequests(links, className)
      ensures className !in links ==> r == Ok(None)
      ensures r.Fail? <==> ClassBytes(links, provider.source, className).Fail?
      ensures r.Fail? ==> r.error == ClassBytes(links, provider.source, className).error
      ensures r.Ok? && r.value.Some? ==>
                && fresh(r.value.value) && r.value.value.Valid() && r.value.value.pos == 0
                && ClassBytes(links, provider.source, className) == Ok(Some(r.value.value.buf))
      ensures r.Ok? && r.value.None? ==> ClassBytes(links, provider.source, className) == Ok(None)
    {
      if className !in links {
        return Ok(None);
      }
      var link := links[className];
      if link.data.Some? {
        var stream := new DataInputFullStream(link.data.value);
        return Ok(Some(stream));
      }
      var stream :- GetClassStreamAt(link.externalPath, link.internalPath);
      return Ok(Some(stream));
    }

    /** loadPool: the constant pool of `className`, or None without a link. */
    method LoadPool(className: string, format: PoolFormat) returns (r: Result<Option<ConstantPool>>)
      modifies provider
      ensures provider.calls == old(provider.calls) + ProviderRequests(links, className)
      ensures r == LoadedPool(ClassBytes(links, provider.source, className), format)
      ensures className !in links ==> r == Ok(None) && provider.calls == old(provider.calls)
    {
      var found :- GetClassStream(className);
      if found.None? {
        return Ok(None);
      }
      var stream := found.value;
      :- stream.Discard(8);
      var pool :- DecodePool(stream, format);
      return Ok(Some(pool));
    }

    /** loadBytecode: the `codeFullLength` bytecode bytes of method `mt` of
        the class, or None when there is no link, no matching method, or no
        Code attribute in the first matching method. */
    method LoadBytecode(classStruct: ClassStruct, mt: MethodId, codeFullLength: nat, format: PoolFormat)
      returns (r: Result<Option<seq<byte>>>)
      modifies provider
      ensures provider.calls == old(provider.calls) + ProviderRequests(links, classStruct.qualifiedName)
      ensures r == LoadedBytecode(ClassBytes(links, provider.source, classStruct.qualifiedName),
                                  classStruct, format, mt, codeFullLength)
      ensures classStruct.qualifiedName !in links ==> r == Ok(None) && provider.calls == old(provider.calls)
    {
      var found :- GetClassStream(classStruct.qualifiedName);
      if found.None? {
        return Ok(None);
      }
      r := ReadBytecode(found.value, classStruct, mt, codeFullLength, format);
    }

    /** The walk of loadBytecode over an open stream at the start of a class
        file, in file order. */
    static method ReadBytecode(stream: DataInputFullStream, classStruct: ClassStruct, mt: MethodId,
                               codeFullLength: nat, format: PoolFormat)
      returns (r: Result<Option<seq<byte>>>)
      requires stream.Valid() && stream.pos == 0
      modifies stream
      ensures r == BytecodeIn(stream.buf, classStruct, format, mt, codeFullLength)
    {
      var pool :- SkipToMethods(stream, classStruct, format);
      r := FindMethodCode(stream, pool, classStruct.qualifiedName, mt, codeFullLength);
    }

    /** Header, constant pool (decoded, or skipped when the class already
        holds one), access_flags/this_class/super_class, interfaces and
        fields: leaves the stream at methods_count. */
    static method SkipToMethods(stream: DataInputFullStream, classStruct: ClassStruct, format: PoolFormat)
      returns (r: Result<ConstantPool>)
      requires stream.Valid() && stream.pos == 0
      modifies stream
      ensures stream.Valid()
      ensures match MethodsTable(stream.buf, classStruct, format)
              case Fail(e) => r == Fail(e)
              case Ok((pool, countAt)) => r == Ok(pool) && stream.pos == countAt
    {
      ghost var buf := stream.buf;
      :- stream.Discard(8);

      var pool: ConstantPool;
      if classStruct.pool.None? {
        pool :- DecodePool(stream, format);
      } else {
        pool := classStruct.pool.value;
        :- SkipPool(stream, format);
      }
      ghost var poolEnd := stream.pos;
      assert PoolEnd(buf, 8, format) == Ok(poolEnd);
      assert pool == PoolInUse(classStruct, format, buf[8..poolEnd]);

      :- stream.Discard(6);

      // interfaces
      var interfaceCount :- stream.ReadUnsignedShort();
      :- stream.Discard(interfaceCount * 2);

      // fields
      ghost var fieldsAt := stream.pos;
      assert MethodsCountAt(buf, poolEnd) == FieldsEnd(buf, fieldsAt);
      :- SkipFields(stream);
      return Ok(pool);
    }

    /** The fields loop of loadBytecode: per field, 6 bytes then its
        attribute table. */
    static method SkipFields(stream: DataInputFullStream) returns (s: Status)
      requires stream.Valid()
      modifies stream
      ensures stream.Valid()
      ensures FieldsEnd(stream.buf, old(stream.pos)) == if s.Done? then Ok(stream.pos) else Fail(s.error)
    {
      var size := stream.ReadUnsignedShort();
      if size.Fail? {
        return Failed(size.error);
      }
      ghost var fieldsStart := stream.pos;
      for i := 0 to size.value
        invariant stream.Valid()
        invariant FieldEntriesEnd(stream.buf, stream.pos, size.value - i)
               == FieldEntriesEnd(stream.buf, fieldsStart, size.value)
      {
        s := stream.Discard(6);
        if s.Failed? {
          return;
        }
        s := SkipAttributes(stream);
        if s.Failed? {
          return;
        }
      }
      return Done;
    }

    /** The methods table: the first method whose name and descriptor both
        equal `mt` is searched for its Code attribute; the others are
        skipped whole. */
    static method FindMethodCode(stream: DataInputFullStream, pool: ConstantPool, className: string,
                                 mt: MethodId, codeFullLength: nat)
      returns (r: Result<Option<seq<byte>>>)
      requires stream.Valid()
      modifies stream
      ensures r == MethodsIn(stream.buf, old(stream.pos), pool, className, mt, codeFullLength)
    {
      ghost var buf := stream.buf;
      var size :- stream.ReadUnsignedShort();
      ghost var methodsStart := stream.pos;
      for i := 0 to size
        invariant stream.Valid()
        invariant ScanMethods(buf, stream.pos, size - i, pool, className, mt, codeFullLength)
               == ScanMethods(buf, methodsStart, size, pool, className, mt, codeFullLength)
      {
        ghost var here := stream.pos;
        :- stream.Discard(2);

        var nameIndex :- stream.ReadUnsignedShort();
        var descriptorIndex :- stream.ReadUnsignedShort();

        var values := pool.methodElement(className, nameIndex, descriptorIndex);
        if mt.name != values.name || mt.descriptor != values.descriptor {
          :- SkipAttributes(stream);
          ScanMethodsSkips(buf, here, size - i, pool, className, mt, codeFullLength, stream.pos);
          continue;
        }

        r := FindCode(stream, pool, codeFullLength);
        return;
      }

      return Ok(None);
    }

    /** The attribute loop for the matching method: attributes other than
        Code are skipped by their u4 length; at Code, the 12 bytes after its
        name index are skipped and exactly `codeFullLength` bytes returned.
        Without a Code attribute the result is None: loadBytecode then breaks
        out of the methods loop without looking at later methods. */
    static method FindCode(stream: DataInputFullStream, pool: ConstantPool, codeFullLength: nat)
      returns (r: Result<Option<seq<byte>>>)
      requires stream.Valid()
      modifies stream
      ensures r == CodeIn(stream.buf, old(stream.pos), pool, codeFullLength)
    {
      ghost var buf := stream.buf;
      var attrSize :- stream.ReadUnsignedShort();
      ghost var attrsStart := stream.pos;
      for j := 0 to attrSize
        invariant stream.Valid()
        invariant ScanCode(buf, stream.pos, attrSize - j, pool, codeFullLength)
               == ScanCode(buf, attrsStart, attrSize, pool, codeFullLength)
      {
        ghost var here := stream.pos;
        var attrNameIndex :- stream.ReadUnsignedShort();
        var attrName := pool.primitiveString(attrNameIndex);
        if CodeAttributeName != attrName {
          var length :- stream.ReadInt();
          :- stream.Discard(length);
          ScanCodeSkips(buf, here, attrSize - j, pool, codeFullLength);
          continue;
        }

        :- stream.Discard(12);

        var code :- stream.Read(codeFullLength);
        return Ok(Some(code));
      }
      return Ok(None);
    }

    /** skipAttributes: moves past one attribute table (a u2 count, then per
        attribute a u2 name index, a u4 length and that many bytes). */
    static method SkipAttributes(stream: DataInputFullStream) returns (s: Status)
      requires stream.Valid()
      modifies stream
      ensures stream.Valid()
      ensures AttributesEnd(stream.buf, old(stream.pos)) == if s.Done? then Ok(stream.pos) else Fail(s.error)
    {
      ghost var start := stream.pos;
      var length := stream.ReadUnsignedShort();
      if length.Fail? {
        return Failed(length.error);
      }
      for i := 0 to length.value
        invariant stream.Valid()
        invariant SkipAttributeEntries(stream.buf, stream.pos, length.value - i) == AttributesEnd(stream.buf, start)
      {
        s := stream.Discard(2);
        if s.Failed? {
          return;
        }
        var n := stream.ReadInt();
        if n.Fail? {
          return Failed(n.error);
        }
        s := stream.Discard(n.value);
        if s.Failed? {
          return;
        }
      }
      return Done;
    }
  }
}
