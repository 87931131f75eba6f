# LazyLoader, modelled in Dafny

The Java decompiler's `LazyLoader` does two jobs:

- **A registry** from qualified class names to a `Link`. A `Link` says where the class's bytes are: in memory, or as an entry of a container that an `IBytecodeProvider` reads.
- **A lazy reader** over a class file. It pulls out either the constant pool (`loadPool`), or the bytecode of one method (`loadBytecode`), without decoding the rest of the file. It walks the class-file layout of chapter 4 of the Java Virtual Machine Specification (JVMS) forward only, skipping every section it does not need.

The model has six modules.

- `IoResult`: the outcomes of a load. `Result` and `Status` carry one of two errors: `EndOfData` when a read runs past the end of the class bytes, or `ProviderFailure` when the provider throws. A class that is not registered, or a method that is not found, is a successful `None`, as Java's `null` is.
- `DataInput`: `DataInputFullStream`, a class with an immutable byte buffer and a forward-only position. It has `Discard`, `ReadUnsignedShort`, `ReadInt` and `Read`, and big-endian `U2At`/`U4At` decoding.
- `ConstantPools`: the constant pool as the reader sees it. It is abstract: a byte width for the pool region, a decoder, and the two lookups the reader makes. Decoding (`new ConstantPool(in)`) and skipping (`ConstantPool.skipPool`) consult the same width.
- `LazyLoading`: the `Link` value, the `BytecodeProvider` and the `LazyLoader` class.
  - `links` is the map field that `addClassLink` and `removeClassLink` update in place.
  - The stream walks are methods with loop invariants over the cursor.
  - Each walk is proved equal to a specification function over the bytes (`FieldsEnd`, `AttributesEnd`, `ScanMethods`, `ScanCode`, `MethodsTable`, `BytecodeIn`, `ClassBytes`).
- `ClassFormat`: a reference structure of a class file (`ClassFile`, `MemberInfo`, `AttributeInfo`) and its encoding into bytes, following JVMS 4.1, 4.5, 4.6 and 4.7. It also holds the specification of the attribute and field skips.
- `BytecodeProofs`: the theorems that connect the walk to that structure.
  - On any buffer that starts with the encoding of a well-formed class file, `loadBytecode` returns the `Code` bytes of the first method whose name and descriptor match, or `None`. This holds provided `codeFullLength` fits within that method's Code payload after its 8-byte prefix (`CodeFits`). `loadPool` returns the decoding of exactly the pool bytes.
  - On any buffer at all, a non-null bytecode result is a slice of exactly `codeFullLength` bytes, 12 bytes after the name index of an attribute named `Code`.

## Model

All source paths are under `plugins/java-decompiler/engine/src/org/jetbrains/java/decompiler/struct/lazy/`; the table writes them in full.

| member | source | states |
|---|---|---|
| LazyLoading.LazyLoader.constructor | plugins/java-decompiler/engine/src/org/jetbrains/java/decompiler/struct/lazy/LazyLoader.java:16-21 | a new loader has no links and keeps the provider it is given |
| LazyLoading.LazyLoader.AddClassLink | plugins/java-decompiler/engine/src/org/jetbrains/java/decompiler/struct/lazy/LazyLoader.java:23-25 | afterwards the name maps to the new link, replacing any earlier one; every other entry is unchanged |
| LazyLoading.LazyLoader.RemoveClassLink | plugins/java-decompiler/engine/src/org/jetbrains/java/decompiler/struct/lazy/LazyLoader.java:27-29 | afterwards the name has no entry (no change when it had none); every other entry is unchanged |
| LazyLoading.LazyLoader.GetClassLink | plugins/java-decompiler/engine/src/org/jetbrains/java/decompiler/struct/lazy/LazyLoader.java:31-33 | returns a link exactly when the name is registered, and then the registered one |
| LazyLoading.BytecodeProvider.GetBytecode | plugins/java-decompiler/engine/src/org/jetbrains/java/decompiler/struct/lazy/LazyLoader.java:116 | records one request for the path pair; yields the provider's bytes, or ProviderFailure when the provider throws |
| LazyLoading.LazyLoader.GetClassStreamAt | plugins/java-decompiler/engine/src/org/jetbrains/java/decompiler/struct/lazy/LazyLoader.java:115-118 | makes exactly one provider request; a fresh stream at position 0 over the provider's bytes, or the provider's failure |
| LazyLoading.LazyLoader.GetClassStream | plugins/java-decompiler/engine/src/org/jetbrains/java/decompiler/struct/lazy/LazyLoader.java:120-123 | None without a link; the link's in-memory data without any provider request when it has some; otherwise the bytes of one provider request for the link's paths, or its failure |
| LazyLoading.LazyLoader.LoadPool | plugins/java-decompiler/engine/src/org/jetbrains/java/decompiler/struct/lazy/LazyLoader.java:35-47 | the pool decoded after the 8-byte header, an error, or None for an unregistered name with no provider request |
| LazyLoading.LazyLoader.LoadBytecode | plugins/java-decompiler/engine/src/org/jetbrains/java/decompiler/struct/lazy/LazyLoader.java:49-113 | result equals BytecodeIn on the class's bytes; None with no provider request for an unregistered name; errors propagate and never give a partial result |
| LazyLoading.LazyLoader.ReadBytecode | plugins/java-decompiler/engine/src/org/jetbrains/java/decompiler/struct/lazy/LazyLoader.java:53-108 | the walk over an open stream at position 0 returns BytecodeIn of its bytes |
| LazyLoading.LazyLoader.SkipToMethods | plugins/java-decompiler/engine/src/org/jetbrains/java/decompiler/struct/lazy/LazyLoader.java:54-75 | yields the pool in use (the class's own, or the decoded one) and leaves the stream exactly at methods_count, or fails where MethodsTable fails |
| LazyLoading.LazyLoader.SkipFields | plugins/java-decompiler/engine/src/org/jetbrains/java/decompiler/struct/lazy/LazyLoader.java:69-74 | leaves the stream at the end of the fields table (FieldsEnd), or fails exactly when FieldsEnd does |
| LazyLoading.LazyLoader.FindMethodCode | plugins/java-decompiler/engine/src/org/jetbrains/java/decompiler/struct/lazy/LazyLoader.java:76-108 | result equals MethodsIn: non-matching methods are skipped whole, and the first method matching both name and descriptor decides |
| LazyLoading.LazyLoader.FindCode | plugins/java-decompiler/engine/src/org/jetbrains/java/decompiler/struct/lazy/LazyLoader.java:90-104 | result equals CodeIn: other attributes are skipped by their u4 length; at Code, the codeFullLength bytes after a 12-byte prefix; None when there is no Code attribute |
| LazyLoading.LazyLoader.SkipAttributes | plugins/java-decompiler/engine/src/org/jetbrains/java/decompiler/struct/lazy/LazyLoader.java:125-131 | leaves the stream at AttributesEnd, or fails exactly when AttributesEnd does |
| DataInput.DataInputFullStream.constructor | plugins/java-decompiler/engine/src/org/jetbrains/java/decompiler/struct/lazy/LazyLoader.java:117 | a stream over the given bytes at position 0 |
| DataInput.DataInputFullStream.Discard | plugins/java-decompiler/engine/src/org/jetbrains/java/decompiler/struct/lazy/LazyLoader.java:38 | moves forward exactly n bytes, or fails with EndOfData when fewer remain |
| DataInput.DataInputFullStream.ReadUnsignedShort | plugins/java-decompiler/engine/src/org/jetbrains/java/decompiler/struct/lazy/LazyLoader.java:67 | the big-endian u2 at the position (below 2^16), moving forward 2 bytes, or EndOfData |
| DataInput.DataInputFullStream.ReadInt | plugins/java-decompiler/engine/src/org/jetbrains/java/decompiler/struct/lazy/LazyLoader.java:95 | the big-endian u4 at the position, moving forward 4 bytes, or EndOfData |
| DataInput.DataInputFullStream.Read | plugins/java-decompiler/engine/src/org/jetbrains/java/decompiler/struct/lazy/LazyLoader.java:101 | exactly the next n bytes of the buffer, or EndOfData |
| DataInput.U2Decodes | plugins/java-decompiler/engine/src/org/jetbrains/java/decompiler/struct/lazy/LazyLoader.java:67 | reading a u2 back from its encoding gives the value written (round trip) |
| DataInput.U4Decodes | plugins/java-decompiler/engine/src/org/jetbrains/java/decompiler/struct/lazy/LazyLoader.java:95 | reading a u4 back from its encoding gives the value written (round trip) |
| ConstantPools.DecodePool | plugins/java-decompiler/engine/src/org/jetbrains/java/decompiler/struct/lazy/LazyLoader.java:58 | decodes the pool region and leaves the stream at PoolEnd |
| ConstantPools.SkipPool | plugins/java-decompiler/engine/src/org/jetbrains/java/decompiler/struct/lazy/LazyLoader.java:61 | leaves the stream at the same PoolEnd as decoding would, or fails exactly when decoding would |
| ClassFormat.AttributesEnd | plugins/java-decompiler/engine/src/org/jetbrains/java/decompiler/struct/lazy/LazyLoader.java:125-131 | an attribute table's skip fails only with EndOfData, and on success ends within the buffer, at least 2 bytes on |
| ClassFormat.AttributesSkipped | plugins/java-decompiler/engine/src/org/jetbrains/java/decompiler/struct/lazy/LazyLoader.java:125-131 | on an encoded attribute table the skip consumes exactly 2 + the sum of (2 + 4 + length) over the attributes |
| ClassFormat.AttributesTruncated | plugins/java-decompiler/engine/src/org/jetbrains/java/decompiler/struct/lazy/LazyLoader.java:125-131 | cutting the buffer anywhere before the table's end makes the skip fail with EndOfData, never a short success |
| ClassFormat.FieldsSkipped | plugins/java-decompiler/engine/src/org/jetbrains/java/decompiler/struct/lazy/LazyLoader.java:71-74 | the fields loop consumes, per encoded field, 6 bytes plus its attribute table |
| BytecodeProofs.InterfacesEncoded | plugins/java-decompiler/engine/src/org/jetbrains/java/decompiler/struct/lazy/LazyLoader.java:66-67 | the interfaces count read back is the number of interfaces, and the fields table follows 2 bytes per interface later |
| BytecodeProofs.FieldsEncoded | plugins/java-decompiler/engine/src/org/jetbrains/java/decompiler/struct/lazy/LazyLoader.java:69-74 | the fields table ends 2 + the fields' encoded size after its count, where the methods table begins |
| BytecodeProofs.BodyTablesEncoded | plugins/java-decompiler/engine/src/org/jetbrains/java/decompiler/struct/lazy/LazyLoader.java:64-75 | from access_flags, methods_count is 6 + (2 + 2 per interface) + (2 + fields) bytes on |
| BytecodeProofs.MethodsTableEncoded | plugins/java-decompiler/engine/src/org/jetbrains/java/decompiler/struct/lazy/LazyLoader.java:54-75 | before the methods, the walk consumes exactly 8 + pool + 6 + 2 + 2 per interface + 2 + fields bytes, whether the pool is decoded or skipped; it resolves names through the class's pool or the decoded one |
| BytecodeProofs.FirstMatchDecides | plugins/java-decompiler/engine/src/org/jetbrains/java/decompiler/struct/lazy/LazyLoader.java:78-104 | the result is decided by the first method matching both name and descriptor; later methods are never looked at |
| BytecodeProofs.NoMatchNoCode | plugins/java-decompiler/engine/src/org/jetbrains/java/decompiler/struct/lazy/LazyLoader.java:78-108 | with no matching method the result is None |
| BytecodeProofs.ScanCodeEncoded | plugins/java-decompiler/engine/src/org/jetbrains/java/decompiler/struct/lazy/LazyLoader.java:91-101 | the attribute loop over an encoded table returns the bytecode inside the first Code attribute's payload, or None, provided codeFullLength fits within that payload (CodeFits) |
| BytecodeProofs.CodeInEncoded | plugins/java-decompiler/engine/src/org/jetbrains/java/decompiler/struct/lazy/LazyLoader.java:90-104 | the same, starting from the table's u2 count, under the same CodeFits hypothesis |
| BytecodeProofs.ScanMethodsEncoded | plugins/java-decompiler/engine/src/org/jetbrains/java/decompiler/struct/lazy/LazyLoader.java:78-105 | the methods loop over encoded methods returns the Code bytes of the first matching method (None if it has none, or if none matches), provided codeFullLength fits within that method's Code payload (CodeFits) |
| BytecodeProofs.MethodsEncoded | plugins/java-decompiler/engine/src/org/jetbrains/java/decompiler/struct/lazy/LazyLoader.java:77-105 | the same, starting from methods_count, under the same CodeFits hypothesis |
| BytecodeProofs.BytecodeOfEncodedClass | plugins/java-decompiler/engine/src/org/jetbrains/java/decompiler/struct/lazy/LazyLoader.java:53-108 | on a well-formed class file whose pool width is the pool's length, and provided codeFullLength fits within the first matching method's Code payload (CodeFits), loadBytecode's walk does not fail and returns that method's Code bytes, or None |
| BytecodeProofs.PoolOfEncodedClass | plugins/java-decompiler/engine/src/org/jetbrains/java/decompiler/struct/lazy/LazyLoader.java:37-39 | on a well-formed class file, loadPool decodes exactly the pool bytes that follow the 8-byte header |
| BytecodeProofs.ScanCodeResult | plugins/java-decompiler/engine/src/org/jetbrains/java/decompiler/struct/lazy/LazyLoader.java:91-101 | a found result of the attribute loop has codeFullLength bytes, sliced 12 bytes after the name index of an attribute named Code |
| BytecodeProofs.ScanMethodsResult | plugins/java-decompiler/engine/src/org/jetbrains/java/decompiler/struct/lazy/LazyLoader.java:78-101 | the same for the methods loop |
| BytecodeProofs.BytecodeResult | plugins/java-decompiler/engine/src/org/jetbrains/java/decompiler/struct/lazy/LazyLoader.java:99-101 | on any bytes, a non-null result of loadBytecode has exactly codeFullLength bytes and is the slice 12 bytes after the name index of an attribute that the pool in use names Code |

## Left out

- The constant pool's entry layout, its decoder and its lookups are not part of this model.
  - `PoolFormat` gives the pool region's byte width and its decoding.
  - `ConstantPool` gives the two lookups the reader makes. `getClassElement(METHOD, …)` is modelled as a function to a name and descriptor; `getPrimitiveConstant(i).getString()` as a function to a string.
  - The theorems about well-formed class files therefore take the pool width as a hypothesis.
  - The two pool lookups are total functions. A Java lookup that fails on a bad index is not modelled: at LazyLoader.java:93 such a failure would not be an `IOException`, so the `catch` at :110 would not wrap it. A well-formed class file in this model only bounds the indices to u2, not to the pool's entries.
  - Decoding and skipping the pool agree on where it ends by construction, not by proof: `DecodePool` and `SkipPool` both move by the one `PoolFormat.width`, and `width` is given all the bytes from the pool's start to the end of the buffer. In Java, `new ConstantPool(in)` and `ConstantPool.skipPool(in)` are separate code that is not part of this model. The `SkipPool` and `MethodsTableEncoded` claims that the walk is the same whether the pool is decoded or skipped rest on this shared width.
- BytecodeProofs.BytecodeOfEncodedClass: requires `CodeFits`, that `codeFullLength` fits within the first matching method's Code payload. A well-formed class file does not guarantee this. Without it, the walk, like `in.read(codeFullLength)` at LazyLoader.java:101, reads `codeFullLength` bytes regardless of the payload's length. It then runs into the bytes that follow, or fails with `EndOfData` when the buffer ends first. The theorem does not describe that case.
- `StructClass` and `StructMethod` are reduced to what the reader uses: the qualified name, the pool the class may hold, and the method's name and descriptor. The name of the Code attribute is the constant `"Code"` (JVMS 4.7.3).
- The `IBytecodeProvider` file and archive I/O is modelled as a function from a path pair to bytes or to failure. A ghost log records the requests.
- The implementation of `DataInputFullStream` is not part of this model. Its reads and skips are modelled as moving forward by exactly their width or failing with `EndOfData`.
- The try-with-resources closing of the stream is not modelled.
- The wrapping of `IOException` in `RuntimeException` is modelled as a `Fail` result that carries one of the two error kinds.
- DataInput.DataInputFullStream.ReadInt: reads the 4-byte attribute length as the unsigned u4 of JVMS 4.7.
  - Java's `readInt` returns a negative `int` for lengths of 2^31 or more. What `discard` does with a negative count is not part of this model.
  - A Java byte array holds fewer than 2^31 bytes. On any such buffer the model reports `EndOfData` for those lengths.
- LazyLoading.LazyLoader.LoadBytecode: `codeFullLength` is a `nat`. A negative Java argument is not modelled.
- `null` class names and `null` links in the registry are not modelled. `Link.data` is an immutable sequence rather than a shared, mutable array.
- `HashMap` is unsynchronised; concurrent use of the loader is not modelled.
- The theorems about well-formed class files cover buffers that begin with the encoding of a `ClassFile`. Bytes after it are allowed and never read. `EncodingStartsItself` shows that the encoding alone is such a buffer.
- `MoveInnerDialog.java` and `ScriptConfigurationCache.kt` are not part of this model. They are IDE user-interface and scripting code unrelated to the loader.
