/** What loadPool and loadBytecode return on a well-formed class file,
    stated against the file's structure (ClassFile) rather than its bytes,
    and what every non-null bytecode result looks like on any input. */
module BytecodeProofs {
  import opened IoResult
  import opened DataInput
  import opened ConstantPools
  import opened ClassFormat
  import opened LazyLoading

  // ----- reference reading of the structure -----

  /** A method matches when the pool resolves its name and descriptor
      indices to exactly `mt`'s name and descriptor. */
  predicate Matches(m: MemberInfo, pool: ConstantPool, className: string, mt: MethodId) {
    pool.methodElement(className, m.nameIndex, m.descriptorIndex) == mt
  }

  /** The payload of the first attribute named Code. */
  function CodeInfo(attrs: seq<AttributeInfo>, pool: ConstantPool): Option<seq<byte>> {
    if attrs == [] then None
    else if pool.primitiveString(attrs[0].nameIndex) == CodeAttributeName then Some(attrs[0].info)
    else CodeInfo(attrs[1..], pool)
  }

  /** The Code payload of the first matching method; None when no method
      matches or the first one that does has no Code attribute. */
  function CodeOfMethods(ms: seq<MemberInfo>, pool: ConstantPool, className: string, mt: MethodId)
    : Option<seq<byte>>
  {
    if ms == [] then None
    else if Matches(ms[0], pool, className, mt) then CodeInfo(ms[0].attributes, pool)
    else CodeOfMethods(ms[1..], pool, className, mt)
  }

  /** The caller's code length lies within the Code payload (after
      max_stack, max_locals and code_length). */
  predicate CodeFits(info: Option<seq<byte>>, codeLength: nat) {
    info.Some? ==> 8 + codeLength <= |info.value|
  }

  /** The bytecode array of a Code payload: `codeLength` bytes after its
      8-byte prefix. */
  function CodeBytes(info: Option<seq<byte>>, codeLength: nat): Option<seq<byte>>
    requires CodeFits(info, codeLength)
  {
    match info
    case None => None
    case Some(payload) => Some(payload[8..8 + codeLength])
  }

  /** The bytes from access_flags up to methods_count: 6 bytes, the
      interfaces table and the fields table. */
  function TablesSize(cf: ClassFile): nat {
    6 + (2 + 2 * |cf.interfaces|) + (2 + MemberListSize(cf.fields))
  }

  /** Where methods_count sits in the encoding of `cf`: after the 8-byte
      header and the pool. */
  function MethodsCountOffset(cf: ClassFile): nat {
    8 + |cf.constantPool| + TablesSize(cf)
  }

  // ----- the reference reading explained -----

  /** The scan decides at the first matching method: later methods, even
      matching ones with a Code attribute, are never looked at. */
  lemma {:induction false} FirstMatchDecides(ms: seq<MemberInfo>, pool: ConstantPool, className: string,
                                             mt: MethodId, k: nat)
    requires k < |ms| && Matches(ms[k], pool, className, mt)
    requires forall j :: 0 <= j < k ==> !Matches(ms[j], pool, className, mt)
    ensures CodeOfMethods(ms, pool, className, mt) == CodeInfo(ms[k].attributes, pool)
  {
    if k > 0 {
      assert !Matches(ms[0], pool, className, mt);
      FirstMatchDecides(ms[1..], pool, className, mt, k - 1);
    }
  }

  /** With no matching method there is no code. */
  lemma {:induction false} NoMatchNoCode(ms: seq<MemberInfo>, pool: ConstantPool, className: string, mt: MethodId)
    requires forall j :: 0 <= j < |ms| ==> !Matches(ms[j], pool, className, mt)
    ensures CodeOfMethods(ms, pool, className, mt) == None
  {
    if ms != [] {
      assert !Matches(ms[0], pool, className, mt);
      NoMatchNoCode(ms[1..], pool, className, mt);
    }
  }

  // ----- the walk over an encoding follows the reference reading -----

  lemma {:induction false} ScanCodeEncoded(buf: seq<byte>, pos: nat, attrs: seq<AttributeInfo>,
                                           pool: ConstantPool, codeLength: nat)
    requires AllValidAttributes(attrs) && At(buf, pos, EncodeAttributeList(attrs))
    requires CodeFits(CodeInfo(attrs, pool), codeLength)
    ensures ScanCode(buf, pos, |attrs|, pool, codeLength) == Ok(CodeBytes(CodeInfo(attrs, pool), codeLength))
    decreases attrs
  {
    if attrs != [] {
      var a := attrs[0];
      assert ValidAttribute(a);
      AttributeEncoded(buf, pos, a, EncodeAttributeList(attrs[1..]));
      if pool.primitiveString(a.nameIndex) == CodeAttributeName {
        var code := buf[pos + 14..pos + 14 + codeLength];
        forall i | 0 <= i < codeLength ensures code[i] == a.info[8 + i] {
          assert buf[pos + 6 + (8 + i)] == a.info[8 + i];
        }
        assert code == a.info[8..8 + codeLength];
      } else {
        ScanCodeEncoded(buf, pos + 6 + |a.info|, attrs[1..], pool, codeLength);
      }
    }
  }

  lemma CodeInEncoded(buf: seq<byte>, pos: nat, attrs: seq<AttributeInfo>, pool: ConstantPool, codeLength: nat)
    requires ValidAttributes(attrs) && At(buf, pos, EncodeAttributes(attrs))
    requires CodeFits(CodeInfo(attrs, pool), codeLength)
    ensures CodeIn(buf, pos, pool, codeLength) == Ok(CodeBytes(CodeInfo(attrs, pool), codeLength))
  {
    U2Prefix(buf, pos, |attrs|, EncodeAttributeList(attrs));
    ScanCodeEncoded(buf, pos + 2, attrs, pool, codeLength);
  }

  lemma {:induction false} ScanMethodsEncoded(buf: seq<byte>, pos: nat, ms: seq<MemberInfo>, pool: ConstantPool,
                                              className: string, mt: MethodId, codeLength: nat)
    requires AllValidMembers(ms) && At(buf, pos, EncodeMemberList(ms))
    requires CodeFits(CodeOfMethods(ms, pool, className, mt), codeLength)
    ensures ScanMethods(buf, pos, |ms|, pool, className, mt, codeLength)
         == Ok(CodeBytes(CodeOfMethods(ms, pool, className, mt), codeLength))
    decreases ms
  {
    if ms != [] {
      var m := ms[0];
      assert ValidMember(m);
      MemberEncoded(buf, pos, m, EncodeMemberList(ms[1..]));
      if Matches(m, pool, className, mt) {
        CodeInEncoded(buf, pos + 6, m.attributes, pool, codeLength);
      } else {
        AttributesSkipped(buf, pos + 6, m.attributes);
        ScanMethodsEncoded(buf, pos + 6 + 2 + AttributeListSize(m.attributes), ms[1..], pool, className, mt, codeLength);
      }
    }
  }

  /** In a buffer that starts with the encoding of `cf`, the 8-byte header
      is followed by the pool bytes, and they by the body. */
  lemma PoolAndBodyAt(buf: seq<byte>, cf: ClassFile)
    requires ValidClass(cf) && At(buf, 0, EncodeClass(cf))
    ensures At(buf, 8, cf.constantPool)
    ensures At(buf, 8 + |cf.constantPool|, EncodeBody(cf))
  {
    AtSplit(buf, 0, EncodeHeader(cf), cf.constantPool + EncodeBody(cf));
    AtSplit(buf, 8, cf.constantPool, EncodeBody(cf));
  }

  /** The region a pool reader starting at offset 8 sees first is the
      class's pool bytes. */
  lemma PoolBytesEncoded(buf: seq<byte>, cf: ClassFile)
    requires ValidClass(cf) && At(buf, 0, EncodeClass(cf))
    ensures |buf| >= 8 + |cf.constantPool|
    ensures buf[8..8 + |cf.constantPool|] == cf.constantPool
  {
    PoolAndBodyAt(buf, cf);
    AtSlice(buf, 8, cf.constantPool);
  }

  /** The interfaces table: its u2 count, then 2 bytes per interface. */
  lemma InterfacesEncoded(buf: seq<byte>, at: nat, cf: ClassFile)
    requires ValidClass(cf) && At(buf, at, EncodeInterfaces(cf))
    ensures at + 2 <= |buf| && U2At(buf, at) == |cf.interfaces|
    ensures At(buf, at + 2 + 2 * |cf.interfaces|, EncodeFields(cf))
  {
    var list := EncodeU2List(cf.interfaces);
    U2Prefix(buf, at, |cf.interfaces|, list + EncodeFields(cf));
    U2ListLength(cf.interfaces);
    AtSplitAt(buf, at + 2, list, EncodeFields(cf), at + 2 + 2 * |cf.interfaces|);
  }

  /** The fields table: the fields loop consumes exactly the encoded fields. */
  lemma FieldsEncoded(buf: seq<byte>, at: nat, cf: ClassFile)
    requires ValidClass(cf) && At(buf, at, EncodeFields(cf))
    ensures FieldsEnd(buf, at) == Ok(at + 2 + MemberListSize(cf.fields))
    ensures At(buf, at + 2 + MemberListSize(cf.fields), EncodeMethods(cf))
  {
    var list := EncodeMemberList(cf.fields);
    U2Prefix(buf, at, |cf.fields|, list + EncodeMethods(cf));
    MemberListLength(cf.fields);
    AtSplitAt(buf, at + 2, list, EncodeMethods(cf), at + 2 + MemberListSize(cf.fields));
    FieldsSkipped(buf, at + 2, cf.fields);
  }

  /** From access_flags to methods_count: 6 bytes, the interfaces table and
      the fields table. */
  lemma BodyTablesEncoded(buf: seq<byte>, pos: nat, cf: ClassFile)
    requires ValidClass(cf) && At(buf, pos, EncodeBody(cf))
    ensures MethodsCountAt(buf, pos) == Ok(pos + TablesSize(cf))
    ensures At(buf, pos + TablesSize(cf), EncodeMethods(cf))
  {
    var fieldsAt := pos + 8 + 2 * |cf.interfaces|;
    FieldsTableAt(buf, pos, cf, fieldsAt);
    FieldsEncoded(buf, fieldsAt, cf);
    MethodsCountFrom(buf, pos, fieldsAt, fieldsAt + 2 + MemberListSize(cf.fields));
  }

  /** The fields table starts after the 6 bytes of class info, the
      interfaces count and 2 bytes per interface. */
  lemma FieldsTableAt(buf: seq<byte>, pos: nat, cf: ClassFile, fieldsAt: nat)
    requires ValidClass(cf) && At(buf, pos, EncodeBody(cf))
    requires fieldsAt == pos + 8 + 2 * |cf.interfaces|
    ensures pos + 8 <= |buf| && fieldsAt == pos + 8 + 2 * U2At(buf, pos + 6)
    ensures At(buf, fieldsAt, EncodeFields(cf))
  {
    AtSplitAt(buf, pos, EncodeClassInfo(cf), EncodeInterfaces(cf), pos + 6);
    InterfacesEncoded(buf, pos + 6, cf);
  }

  /** methods_count is where the fields table ends, the fields table
      starting 2 bytes per interface past the interfaces count. */
  lemma MethodsCountFrom(buf: seq<byte>, pos: nat, fieldsAt: nat, fieldsEnd: nat)
    requires pos + 8 <= |buf| && fieldsAt == pos + 8 + 2 * U2At(buf, pos + 6)
    requires FieldsEnd(buf, fieldsAt) == Ok(fieldsEnd)
    ensures MethodsCountAt(buf, pos) == Ok(fieldsEnd)
  {
  }

  /** The methods table: its u2 count, then the scan over the methods. */
  lemma MethodsEncoded(buf: seq<byte>, countAt: nat, cf: ClassFile, pool: ConstantPool,
                       className: string, mt: MethodId, codeLength: nat)
    requires ValidClass(cf) && At(buf, countAt, EncodeMethods(cf))
    requires CodeFits(CodeOfMethods(cf.methods, pool, className, mt), codeLength)
    ensures MethodsIn(buf, countAt, pool, className, mt, codeLength)
         == Ok(CodeBytes(CodeOfMethods(cf.methods, pool, className, mt), codeLength))
  {
    var list := EncodeMemberList(cf.methods);
    U2Prefix(buf, countAt, |cf.methods|, list + EncodeAttributes(cf.attributes));
    AtSplit(buf, countAt + 2, list, EncodeAttributes(cf.attributes));
    ScanMethodsEncoded(buf, countAt + 2, cf.methods, pool, className, mt, codeLength);
  }

  /** Before the methods table the walk consumes exactly: 8 header bytes, the
      pool (the same width whether decoded or skipped), 6 bytes, 2 + 2 per
      interface, and 2 + per field 6 bytes plus its attribute table. The
      pool it resolves names through is the class's own, or else the one
      decoded from these pool bytes. */
  lemma MethodsTableEncoded(buf: seq<byte>, cf: ClassFile, classStruct: ClassStruct, format: PoolFormat)
    requires ValidClass(cf) && At(buf, 0, EncodeClass(cf))
    requires format.width(buf[8..]) == |cf.constantPool|
    ensures MethodsTable(buf, classStruct, format)
         == Ok((PoolInUse(classStruct, format, cf.constantPool), MethodsCountOffset(cf)))
    ensures At(buf, MethodsCountOffset(cf), EncodeMethods(cf))
  {
    MethodsCountEncoded(buf, cf);
    PoolBytesEncoded(buf, cf);
    MethodsTableParts(buf, classStruct, format, 8 + |cf.constantPool|, MethodsCountOffset(cf));
  }

  /** Past the pool, the walk finds methods_count where the encoding put it. */
  lemma MethodsCountEncoded(buf: seq<byte>, cf: ClassFile)
    requires ValidClass(cf) && At(buf, 0, EncodeClass(cf))
    ensures MethodsCountAt(buf, 8 + |cf.constantPool|) == Ok(MethodsCountOffset(cf))
    ensures At(buf, MethodsCountOffset(cf), EncodeMethods(cf))
  {
    PoolAndBodyAt(buf, cf);
    BodyTablesEncoded(buf, 8 + |cf.constantPool|, cf);
  }

  /** MethodsTable from its two parts: where the pool ends and where
      methods_count sits. */
  lemma MethodsTableParts(buf: seq<byte>, classStruct: ClassStruct, format: PoolFormat,
                          poolEnd: nat, countAt: nat)
    requires 8 <= poolEnd <= |buf| && format.width(buf[8..]) == poolEnd - 8
    requires MethodsCountAt(buf, poolEnd) == Ok(countAt)
    ensures MethodsTable(buf, classStruct, format)
         == Ok((PoolInUse(classStruct, format, buf[8..poolEnd]), countAt))
  {
  }

  /** loadBytecode on a buffer that starts with a well-formed class file
      (bytes after it are never read) returns the bytecode of the first
      method whose name and descriptor match, None when that method has no
      Code attribute or no method matches; it never fails. */
  lemma BytecodeOfEncodedClass(buf: seq<byte>, cf: ClassFile, classStruct: ClassStruct, format: PoolFormat,
                               mt: MethodId, codeLength: nat)
    requires ValidClass(cf) && At(buf, 0, EncodeClass(cf))
    requires format.width(buf[8..]) == |cf.constantPool|
    requires CodeFits(CodeOfMethods(cf.methods, PoolInUse(classStruct, format, cf.constantPool),
                                    classStruct.qualifiedName, mt), codeLength)
    ensures BytecodeIn(buf, classStruct, format, mt, codeLength)
         == Ok(CodeBytes(CodeOfMethods(cf.methods, PoolInUse(classStruct, format, cf.constantPool),
                                       classStruct.qualifiedName, mt), codeLength))
  {
    var pool := PoolInUse(classStruct, format, cf.constantPool);
    MethodsTableEncoded(buf, cf, classStruct, format);
    MethodsEncoded(buf, MethodsCountOffset(cf), cf, pool, classStruct.qualifiedName, mt, codeLength);
  }

  /** loadPool on a buffer that starts with a well-formed class file decodes
      exactly its pool bytes. */
  lemma PoolOfEncodedClass(buf: seq<byte>, cf: ClassFile, format: PoolFormat)
    requires ValidClass(cf) && At(buf, 0, EncodeClass(cf))
    requires format.width(buf[8..]) == |cf.constantPool|
    ensures PoolOfClass(buf, format) == Ok(format.decode(cf.constantPool))
  {
    PoolBytesEncoded(buf, cf);
  }

  /** A class file's own encoding is such a buffer. */
  lemma EncodingStartsItself(cf: ClassFile)
    requires ValidClass(cf)
    ensures At(EncodeClass(cf), 0, EncodeClass(cf))
  {
    var buf := EncodeClass(cf);
    forall i | 0 <= i < |buf| ensures buf[0 + i] == buf[i] { }
  }

  // ----- on any bytes: a found result is the Code slice, of the exact length -----

  /** `code` is the `codeLength` bytes that start 12 bytes after the name
      index at `at`, and the pool names that attribute Code. */
  ghost predicate CodeSliceAt(buf: seq<byte>, at: nat, pool: ConstantPool, codeLength: nat, code: seq<byte>) {
    && at + 14 + codeLength <= |buf|
    && pool.primitiveString(U2At(buf, at)) == CodeAttributeName
    && code == buf[at + 14..at + 14 + codeLength]
  }

  lemma {:induction false} ScanCodeResult(buf: seq<byte>, pos: nat, count: nat, pool: ConstantPool,
                                          codeLength: nat, code: seq<byte>)
    requires ScanCode(buf, pos, count, pool, codeLength) == Ok(Some(code))
    ensures |code| == codeLength
    ensures exists at: nat :: pos <= at && CodeSliceAt(buf, at, pool, codeLength, code)
    decreases count
  {
    if CodeAttributeName != pool.primitiveString(U2At(buf, pos)) {
      ScanCodeResult(buf, pos + 6 + U4At(buf, pos + 2), count - 1, pool, codeLength, code);
    } else {
      assert CodeSliceAt(buf, pos, pool, codeLength, code);
    }
  }

  lemma {:induction false} ScanMethodsResult(buf: seq<byte>, pos: nat, count: nat, pool: ConstantPool,
                                             className: string, mt: MethodId, codeLength: nat, code: seq<byte>)
    requires ScanMethods(buf, pos, count, pool, className, mt, codeLength) == Ok(Some(code))
    ensures |code| == codeLength
    ensures exists at: nat :: pos <= at && CodeSliceAt(buf, at, pool, codeLength, code)
    decreases count
  {
    var values := pool.methodElement(className, U2At(buf, pos + 2), U2At(buf, pos + 4));
    if mt.name != values.name || mt.descriptor != values.descriptor {
      var next := AttributesEnd(buf, pos + 6).value;
      ScanMethodsResult(buf, next, count - 1, pool, className, mt, codeLength, code);
    } else {
      ScanCodeResult(buf, pos + 8, U2At(buf, pos + 6), pool, codeLength, code);
    }
  }

  /** Any non-null result of loadBytecode has exactly `codeLength` bytes and
      is the slice of the class file that starts 12 bytes after the name
      index of an attribute that the pool in use names Code. */
  lemma BytecodeResult(buf: seq<byte>, classStruct: ClassStruct, format: PoolFormat,
                       mt: MethodId, codeLength: nat, code: seq<byte>)
    requires BytecodeIn(buf, classStruct, format, mt, codeLength) == Ok(Some(code))
    ensures |code| == codeLength
    ensures MethodsTable(buf, classStruct, format).Ok?
    ensures exists at: nat :: CodeSliceAt(buf, at, MethodsTable(buf, classStruct, format).value.0, codeLength, code)
  {
    var table := MethodsTable(buf, classStruct, format).value;
    var pool := table.0;
    var countAt := table.1;
    ScanMethodsResult(buf, countAt + 2, U2At(buf, countAt), pool, classStruct.qualifiedName, mt, codeLength, code);
  }
}
