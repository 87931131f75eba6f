/** The parts of the class-file layout (JVMS chapter 4) that the lazy reader
    walks over, as datatypes with their byte encoding, and the specification
    of how far the reader's skips move through a buffer. */
module ClassFormat {
  import opened IoResult
  import opened DataInput

  /** attribute_info (JVMS 4.7): a u2 name index, a u4 length, the payload. */
  datatype AttributeInfo = AttributeInfo(nameIndex: nat, info: seq<byte>)

  /** field_info (JVMS 4.5) and method_info (JVMS 4.6) share this layout. */
  datatype MemberInfo = MemberInfo(
    accessFlags: nat,
    nameIndex: nat,
    descriptorIndex: nat,
    attributes: seq<AttributeInfo>)

  /** A class file; the constant pool is kept as its raw bytes (count and entries). */
  datatype ClassFile = ClassFile(
    magic: nat,
    minorVersion: nat,
    majorVersion: nat,
    constantPool: seq<byte>,
    accessFlags: nat,
    thisClass: nat,
    superClass: nat,
    interfaces: seq<nat>,
    fields: seq<MemberInfo>,
    methods: seq<MemberInfo>,
    attributes: seq<AttributeInfo>)

  // ----- well-formedness: every item fits its u2/u4 slot -----

  ghost predicate ValidAttribute(a: AttributeInfo) {
    a.nameIndex < U2Bound && |a.info| < U4Bound
  }

  ghost predicate AllValidAttributes(attrs: seq<AttributeInfo>) {
    forall i :: 0 <= i < |attrs| ==> ValidAttribute(attrs[i])
  }

  ghost predicate ValidAttributes(attrs: seq<AttributeInfo>) {
    |attrs| < U2Bound && AllValidAttributes(attrs)
  }

  ghost predicate ValidMember(m: MemberInfo) {
    m.accessFlags < U2Bound && m.nameIndex < U2Bound && m.descriptorIndex < U2Bound
    && ValidAttributes(m.attributes)
  }

  ghost predicate AllValidMembers(ms: seq<MemberInfo>) {
    forall i :: 0 <= i < |ms| ==> ValidMember(ms[i])
  }

  ghost predicate AllU2(xs: seq<nat>) {
    forall i :: 0 <= i < |xs| ==> xs[i] < U2Bound
  }

  ghost predicate ValidClass(cf: ClassFile) {
    && cf.magic < U4Bound && cf.minorVersion < U2Bound && cf.majorVersion < U2Bound
    && cf.accessFlags < U2Bound && cf.thisClass < U2Bound && cf.superClass < U2Bound
    && |cf.interfaces| < U2Bound && AllU2(cf.interfaces)
    && |cf.fields| < U2Bound && AllValidMembers(cf.fields)
    && |cf.methods| < U2Bound && AllValidMembers(cf.methods)
    && ValidAttributes(cf.attributes)
  }

  // ----- the byte encoding -----

  function EncodeAttribute(a: AttributeInfo): seq<byte>
    requires ValidAttribute(a)
  {
    U2(a.nameIndex) + (U4(|a.info|) + a.info)
  }

  function EncodeAttributeList(attrs: seq<AttributeInfo>): seq<byte>
    requires AllValidAttributes(attrs)
  {
    if attrs == [] then [] else EncodeAttribute(attrs[0]) + EncodeAttributeList(attrs[1..])
  }

  /** An attribute table: its u2 count, then the attributes. */
  function EncodeAttributes(attrs: seq<AttributeInfo>): seq<byte>
    requires ValidAttributes(attrs)
  {
    U2(|attrs|) + EncodeAttributeList(attrs)
  }

  function EncodeMember(m: MemberInfo): seq<byte>
    requires ValidMember(m)
  {
    U2(m.accessFlags) + (U2(m.nameIndex) + (U2(m.descriptorIndex) + EncodeAttributes(m.attributes)))
  }

  function EncodeMemberList(ms: seq<MemberInfo>): seq<byte>
    requires AllValidMembers(ms)
  {
    if ms == [] then [] else EncodeMember(ms[0]) + EncodeMemberList(ms[1..])
  }

  function EncodeU2List(xs: seq<nat>): seq<byte>
    requires AllU2(xs)
  {
    if xs == [] then [] else U2(xs[0]) + EncodeU2List(xs[1..])
  }

  /** The 8-byte header: magic, minor_version, major_version (JVMS 4.1). */
  function EncodeHeader(cf: ClassFile): seq<byte>
    requires ValidClass(cf)
  {
    U4(cf.magic) + (U2(cf.minorVersion) + U2(cf.majorVersion))
  }

  /** Everything after the pool: access_flags, this_class, super_class,
      then the interfaces table and what follows it. */
  function EncodeBody(cf: ClassFile): seq<byte>
    requires ValidClass(cf)
  {
    EncodeClassInfo(cf) + EncodeInterfaces(cf)
  }

  /** access_flags, this_class and super_class: three u2 items. */
  function EncodeClassInfo(cf: ClassFile): (e: seq<byte>)
    requires ValidClass(cf)
    ensures |e| == 6
  {
    U2(cf.accessFlags) + (U2(cf.thisClass) + U2(cf.superClass))
  }

  /** interfaces_count, the interface indices, then the fields table on. */
  function EncodeInterfaces(cf: ClassFile): seq<byte>
    requires ValidClass(cf)
  {
    U2(|cf.interfaces|) + (EncodeU2List(cf.interfaces) + EncodeFields(cf))
  }

  /** fields_count, the fields, then the methods table on. */
  function EncodeFields(cf: ClassFile): seq<byte>
    requires ValidClass(cf)
  {
    U2(|cf.fields|) + (EncodeMemberList(cf.fields) + EncodeMethods(cf))
  }

  /** methods_count, the methods, then the class's attribute table. */
  function EncodeMethods(cf: ClassFile): seq<byte>
    requires ValidClass(cf)
  {
    U2(|cf.methods|) + (EncodeMemberList(cf.methods) + EncodeAttributes(cf.attributes))
  }

  function EncodeClass(cf: ClassFile): seq<byte>
    requires ValidClass(cf)
  {
    EncodeHeader(cf) + (cf.constantPool + EncodeBody(cf))
  }

  // ----- sizes -----

  /** The bytes of the attributes of a table, not counting its u2 count:
      for each attribute, 2 + 4 + its length. */
  function AttributeListSize(attrs: seq<AttributeInfo>): nat {
    if attrs == [] then 0 else 2 + 4 + |attrs[0].info| + AttributeListSize(attrs[1..])
  }

  /** The bytes of a run of fields or methods: for each, its 6-byte header
      plus its attribute table. */
  function MemberListSize(ms: seq<MemberInfo>): nat {
    if ms == [] then 0 else 6 + 2 + AttributeListSize(ms[0].attributes) + MemberListSize(ms[1..])
  }

  lemma {:induction false} AttributeListLength(attrs: seq<AttributeInfo>)
    requires AllValidAttributes(attrs)
    ensures |EncodeAttributeList(attrs)| == AttributeListSize(attrs)
  {
    if attrs != [] {
      AttributeListLength(attrs[1..]);
    }
  }

  lemma {:induction false} MemberListLength(ms: seq<MemberInfo>)
    requires AllValidMembers(ms)
    ensures |EncodeMemberList(ms)| == MemberListSize(ms)
  {
    if ms != [] {
      AttributeListLength(ms[0].attributes);
      MemberListLength(ms[1..]);
    }
  }

  lemma {:induction false} U2ListLength(xs: seq<nat>)
    requires AllU2(xs)
    ensures |EncodeU2List(xs)| == 2 * |xs|
  {
    if xs != [] {
      U2ListLength(xs[1..]);
    }
  }

  // ----- one entry of a well-formed encoding, read back -----

  /** An attribute_info followed by `tail`: its name index and length read
      back, its payload sits 6 bytes in, and `tail` follows the payload. */
  lemma AttributeEncoded(buf: seq<byte>, pos: nat, a: AttributeInfo, tail: seq<byte>)
    requires ValidAttribute(a) && At(buf, pos, EncodeAttribute(a) + tail)
    ensures pos + 6 + |a.info| <= |buf|
    ensures U2At(buf, pos) == a.nameIndex && U4At(buf, pos + 2) == |a.info|
    ensures At(buf, pos + 6, a.info) && At(buf, pos + 6 + |a.info|, tail)
  {
    AtSplit(buf, pos, EncodeAttribute(a), tail);
    U2Prefix(buf, pos, a.nameIndex, U4(|a.info|) + a.info);
    U4Prefix(buf, pos + 2, |a.info|, a.info);
  }

  /** A field_info or method_info followed by `tail`: its name and
      descriptor indices read back, its attribute table sits 6 bytes in, and
      `tail` follows that table. */
  lemma MemberEncoded(buf: seq<byte>, pos: nat, m: MemberInfo, tail: seq<byte>)
    requires ValidMember(m) && At(buf, pos, EncodeMember(m) + tail)
    ensures pos + 6 <= |buf|
    ensures U2At(buf, pos + 2) == m.nameIndex && U2At(buf, pos + 4) == m.descriptorIndex
    ensures At(buf, pos + 6, EncodeAttributes(m.attributes))
    ensures At(buf, pos + 6 + 2 + AttributeListSize(m.attributes), tail)
  {
    var attrs := EncodeAttributes(m.attributes);
    AtSplit(buf, pos, EncodeMember(m), tail);
    U2Prefix(buf, pos, m.accessFlags, U2(m.nameIndex) + (U2(m.descriptorIndex) + attrs));
    U2Prefix(buf, pos + 2, m.nameIndex, U2(m.descriptorIndex) + attrs);
    U2Prefix(buf, pos + 4, m.descriptorIndex, attrs);
    AttributeListLength(m.attributes);
    assert pos + |EncodeMember(m)| == pos + 6 + 2 + AttributeListSize(m.attributes);
  }

  // ----- how far the reader's skips go (the specification of skipAttributes
  //       and of the fields loop of loadBytecode) -----

  /** The end of `count` attribute_info entries starting at `pos`: each is a
      u2 name index, a u4 length and that many payload bytes. */
  function SkipAttributeEntries(buf: seq<byte>, pos: nat, count: nat): (r: Result<nat>)
    ensures r.Fail? ==> r.error == EndOfData
    ensures r.Ok? ==> pos <= r.value <= |buf| || (count == 0 && r.value == pos)
    decreases count
  {
    if count == 0 then Ok(pos)
    else if pos + 6 > |buf| then Fail(EndOfData)
    else if pos + 6 + U4At(buf, pos + 2) > |buf| then Fail(EndOfData)
    else SkipAttributeEntries(buf, pos + 6 + U4At(buf, pos + 2), count - 1)
  }

  /** The end of the attribute table (u2 count, then the entries) at `pos`. */
  function AttributesEnd(buf: seq<byte>, pos: nat): (r: Result<nat>)
    ensures r.Fail? ==> r.error == EndOfData
    ensures r.Ok? ==> pos + 2 <= r.value <= |buf|
  {
    if pos + 2 > |buf| then Fail(EndOfData)
    else SkipAttributeEntries(buf, pos + 2, U2At(buf, pos))
  }

  /** The end of `count` field_info entries at `pos`: each is a 6-byte header
      (access_flags, name_index, descriptor_index) and an attribute table. */
  function FieldEntriesEnd(buf: seq<byte>, pos: nat, count: nat): (r: Result<nat>)
    ensures r.Fail? ==> r.error == EndOfData
    ensures r.Ok? ==> pos <= r.value && (count > 0 ==> r.value <= |buf|)
    decreases count
  {
    if count == 0 then Ok(pos)
    else if pos + 6 > |buf| then Fail(EndOfData)
    else match AttributesEnd(buf, pos + 6)
      case Fail(e) => Fail(e)
      case Ok(next) => FieldEntriesEnd(buf, next, count - 1)
  }

  // ----- what the skips consume on a well-formed encoding -----

  lemma {:induction false} AttributeEntriesSkipped(buf: seq<byte>, pos: nat, attrs: seq<AttributeInfo>)
    requires AllValidAttributes(attrs) && At(buf, pos, EncodeAttributeList(attrs))
    ensures SkipAttributeEntries(buf, pos, |attrs|) == Ok(pos + AttributeListSize(attrs))
    decreases attrs
  {
    if attrs != [] {
      var a := attrs[0];
      assert ValidAttribute(a);
      AttributeEncoded(buf, pos, a, EncodeAttributeList(attrs[1..]));
      AttributeEntriesSkipped(buf, pos + 6 + |a.info|, attrs[1..]);
    }
  }

  /** skipAttributes consumes exactly 2 + the sum over the attributes of
      (2 + 4 + length) bytes of a well-formed attribute table. */
  lemma AttributesSkipped(buf: seq<byte>, pos: nat, attrs: seq<AttributeInfo>)
    requires ValidAttributes(attrs) && At(buf, pos, EncodeAttributes(attrs))
    ensures AttributesEnd(buf, pos) == Ok(pos + 2 + AttributeListSize(attrs))
  {
    U2Prefix(buf, pos, |attrs|, EncodeAttributeList(attrs));
    AttributeEntriesSkipped(buf, pos + 2, attrs);
  }

  lemma {:induction false} AttributeEntriesTruncated(buf: seq<byte>, pos: nat, count: nat, k: nat)
    requires SkipAttributeEntries(buf, pos, count).Ok?
    requires pos <= k < SkipAttributeEntries(buf, pos, count).value
    ensures SkipAttributeEntries(buf[..k], pos, count) == Fail(EndOfData)
    decreases count
  {
    var next := pos + 6 + U4At(buf, pos + 2);
    if pos + 6 <= k {
      assert U4At(buf[..k], pos + 2) == U4At(buf, pos + 2);
      if next <= k {
        AttributeEntriesTruncated(buf, next, count - 1, k);
      }
    }
  }

  /** A buffer that ends before the attribute table does makes the skip fail:
      it never stops short with a partial result. */
  lemma AttributesTruncated(buf: seq<byte>, pos: nat, k: nat)
    requires AttributesEnd(buf, pos).Ok?
    requires pos <= k < AttributesEnd(buf, pos).value
    ensures AttributesEnd(buf[..k], pos) == Fail(EndOfData)
  {
    if pos + 2 <= k {
      assert U2At(buf[..k], pos) == U2At(buf, pos);
      AttributeEntriesTruncated(buf, pos + 2, U2At(buf, pos), k);
    }
  }

  /** The fields loop consumes, per field, its 6-byte header plus its
      attribute table. */
  lemma {:induction false} FieldsSkipped(buf: seq<byte>, pos: nat, fs: seq<MemberInfo>)
    requires AllValidMembers(fs) && At(buf, pos, EncodeMemberList(fs))
    ensures FieldEntriesEnd(buf, pos, |fs|) == Ok(pos + MemberListSize(fs))
    decreases fs
  {
    if fs != [] {
      var f := fs[0];
      assert ValidMember(f);
      var next := pos + 6 + 2 + AttributeListSize(f.attributes);
      MemberEncoded(buf, pos, f, EncodeMemberList(fs[1..]));
      AttributesSkipped(buf, pos + 6, f.attributes);
      assert FieldEntriesEnd(buf, pos, |fs|) == FieldEntriesEnd(buf, next, |fs[1..]|);
      FieldsSkipped(buf, next, fs[1..]);
    }
  }
}
