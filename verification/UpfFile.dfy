/** The file layout of scripts/decrypt_upf.py: header, encrypted chunks, key. */
module UpfFile {
  import opened Base
  import opened Tea
  import opened Upf

  const HEADER := 0x80

  /** Python's `data[lo:hi]`, which never fails. */
  function Slice(data: Bytes, lo: nat, hi: nat): Bytes
    requires lo <= hi
  {
    data[Min(lo, |data|)..Min(hi, |data|)]
  }

  /** The ways the script stops, and what it has decrypted when it does not. */
  datatype Parsed =
    | BadMagic
    | Truncated
    | UnknownType
    | ShortKey
    | ShortChunk
    | Chunks(chunks: seq<Bytes>)

  /** Which of the three size fields count for a firmware type. */
  function SizesFor(fwType: Byte, size1: nat, size2: nat, size3: nat): Option<seq<nat>> {
    if fwType == 0 then Some([size1, size2])
    else if fwType == 1 then Some([size1])
    else if fwType == 2 then Some([size2])
    else if fwType == 3 then Some([size1, size2, size3])
    else None
  }

  predicate ReadableHeader(data: Bytes) {
    46 <= |data| && (data[9] == 3 ==> 64 <= |data|)
  }

  function Sizes(data: Bytes): Option<seq<nat>>
    requires ReadableHeader(data)
  {
    SizesFor(data[9], Unpack(data[38..42]), Unpack(data[42..46]),
             if data[9] == 3 then Unpack(data[60..64]) else 0)
  }

  /** Where chunk i starts; chunk `|sizes|` would start at the key. */
  function Offset(sizes: seq<nat>, i: nat): nat
    requires i <= |sizes|
  {
    if i == 0 then HEADER else Offset(sizes, i - 1) + sizes[i - 1]
  }

  function KeyOf(b: Bytes): Key
    requires |b| == 4
  {
    Key(b[0], b[1], b[2], b[3])
  }

  function KeyBytes(data: Bytes, sizes: seq<nat>): Bytes {
    var at := Offset(sizes, |sizes|);
    Slice(data, at, at + 4)
  }

  /** The part of the file that chunk i is decrypted from. */
  function Cipher(data: Bytes, sizes: seq<nat>, i: nat): Bytes
    requires i < |sizes|
  {
    Slice(data, Offset(sizes, i), Offset(sizes, i + 1))
  }

  /** The script looks at the first byte of a decrypted chunk, and at the next two after a long jump. */
  predicate Showable(chunk: Bytes) {
    chunk != [] && (chunk[0] == 2 ==> 3 <= |chunk|)
  }

  /** What becomes of one chunk. */
  function Plain(cipher: Bytes, keyBytes: Bytes): Parsed {
    if 8 <= |cipher| && |keyBytes| != 4 then ShortKey
    else
      var plain := if |keyBytes| != 4 then cipher else Decrypted(cipher, KeyOf(keyBytes));
      if Showable(plain) then Chunks([plain]) else ShortChunk
  }

  function Chunk(data: Bytes, sizes: seq<nat>, i: nat): Parsed
    requires i < |sizes|
  {
    Plain(Cipher(data, sizes, i), KeyBytes(data, sizes))
  }

  /** The chunks up to n, or the first failure among them. */
  function FirstChunks(data: Bytes, sizes: seq<nat>, n: nat): Parsed
    requires n <= |sizes|
  {
    if n == 0 then Chunks([])
    else
      var before := FirstChunks(data, sizes, n - 1);
      if !before.Chunks? then before
      else
        var last := Chunk(data, sizes, n - 1);
        if last.Chunks? then Chunks(before.chunks + last.chunks) else last
  }

  function Parse(data: Bytes): Parsed {
    if Slice(data, 0, 2) != [0x5A, 0xA5] then BadMagic
    else if !ReadableHeader(data) then Truncated
    else
      var sizes := Sizes(data);
      if sizes.None? then UnknownType else FirstChunks(data, sizes.value, |sizes.value|)
  }

  function Sum(sizes: seq<nat>): nat {
    if sizes == [] then 0 else Sum(sizes[..|sizes| - 1]) + sizes[|sizes| - 1]
  }

  lemma {:induction false} SumIsOffset(sizes: seq<nat>, i: nat)
    requires i <= |sizes|
    ensures HEADER + Sum(sizes[..i]) == Offset(sizes, i)
  {
    if i > 0 {
      SumIsOffset(sizes, i - 1);
      assert sizes[..i][..i - 1] == sizes[..i - 1];
    }
  }

  lemma {:induction false} FailureStays(data: Bytes, sizes: seq<nat>, i: nat, n: nat)
    requires i <= n <= |sizes| && !FirstChunks(data, sizes, i).Chunks?
    ensures FirstChunks(data, sizes, n) == FirstChunks(data, sizes, i)
    decreases n
  {
    if i < n {
      FailureStays(data, sizes, i, n - 1);
    }
  }

  /** `parse_upf`, printing and writing files left out: an offset advanced over the sizes. */
  method ParseUpf(data: Bytes) returns (r: Parsed)
    ensures r == Parse(data)
  {
    hide Decrypted, Unpack;
    if Slice(data, 0, 2) != [0x5A, 0xA5] {
      return BadMagic;
    }
    if |data| < 46 || (data[9] == 3 && |data| < 64) {
      return Truncated;
    }
    var fwType := data[9];
    var size1: nat := Unpack(data[38..42]);
    var size2: nat := Unpack(data[42..46]);
    var size3: nat := if fwType == 3 then Unpack(data[60..64]) else 0;
    var sizes: seq<nat>;
    if fwType == 0 {
      sizes := [size1, size2];
    } else if fwType == 1 {
      sizes := [size1];
    } else if fwType == 2 {
      sizes := [size2];
    } else if fwType == 3 {
      sizes := [size1, size2, size3];
    } else {
      return UnknownType;
    }
    r := ParseChunks(data, sizes);
  }

  method ParseChunks(data: Bytes, sizes: seq<nat>) returns (r: Parsed)
    ensures r == FirstChunks(data, sizes, |sizes|)
  {
    hide FirstChunks, Chunk, Plain;
    SumIsOffset(sizes, |sizes|);
    assert sizes[..|sizes|] == sizes;
    var keyOffset := HEADER + Sum(sizes);
    var keyBytes := Slice(data, keyOffset, keyOffset + 4);
    var chunks: seq<Bytes> := [];
    var offset: nat := HEADER;
    NoChunksYet(data, sizes);
    for i := 0 to |sizes|
      invariant offset == Offset(sizes, i)
      invariant FirstChunks(data, sizes, i) == Chunks(chunks)
    {
      NextChunk(data, sizes, i);
      var outcome := DecryptChunk(Slice(data, offset, offset + sizes[i]), keyBytes);
      if !outcome.Chunks? {
        FailureStays(data, sizes, i + 1, |sizes|);
        return outcome;
      }
      chunks := chunks + outcome.chunks;
      offset := offset + sizes[i];
    }
    r := Chunks(chunks);
  }

  lemma NoChunksYet(data: Bytes, sizes: seq<nat>)
    ensures FirstChunks(data, sizes, 0) == Chunks([])
  {
  }

  lemma NextChunk(data: Bytes, sizes: seq<nat>, i: nat)
    requires i < |sizes| && FirstChunks(data, sizes, i).Chunks?
    ensures
      var last := Plain(Slice(data, Offset(sizes, i), Offset(sizes, i) + sizes[i]), KeyBytes(data, sizes));
      FirstChunks(data, sizes, i + 1) ==
        if last.Chunks? then Chunks(FirstChunks(data, sizes, i).chunks + last.chunks) else last
  {
    hide Plain, Slice;
    assert Offset(sizes, i + 1) == Offset(sizes, i) + sizes[i];
  }

  /** The body of the chunk loop. */
  method DecryptChunk(cipher: Bytes, keyBytes: Bytes) returns (r: Parsed)
    ensures r == Plain(cipher, keyBytes)
  {
    hide Decrypted;
    var plain := cipher;
    if |keyBytes| == 4 {
      plain := TeaDecrypt(cipher, KeyOf(keyBytes));
    } else if 8 <= |cipher| {
      return ShortKey;
    }
    if plain == [] || (plain[0] == 2 && |plain| < 3) {
      return ShortChunk;
    }
    r := Chunks([plain]);
  }

  // ---------------------------------------------------------------- the layout

  function Concat(parts: seq<Bytes>): Bytes {
    if parts == [] then [] else Concat(parts[..|parts| - 1]) + parts[|parts| - 1]
  }

  function Ciphers(data: Bytes, sizes: seq<nat>, n: nat): seq<Bytes>
    requires n <= |sizes|
  {
    seq(n, i requires 0 <= i < n => Cipher(data, sizes, i))
  }

  lemma {:induction false} OffsetGrows(sizes: seq<nat>, i: nat, j: nat)
    requires i <= j <= |sizes|
    ensures Offset(sizes, i) <= Offset(sizes, j)
    decreases j
  {
    if i < j { OffsetGrows(sizes, i, j - 1); }
  }

  /** The chunks' ranges, laid end to end, are the file from the header to the key. */
  lemma {:induction false} CiphersJoin(data: Bytes, sizes: seq<nat>, n: nat)
    requires n <= |sizes| && Offset(sizes, |sizes|) <= |data|
    ensures HEADER <= Offset(sizes, n) <= |data|
    ensures Concat(Ciphers(data, sizes, n)) == data[HEADER..Offset(sizes, n)]
  {
    OffsetGrows(sizes, 0, n);
    OffsetGrows(sizes, n, |sizes|);
    if n > 0 {
      CiphersJoin(data, sizes, n - 1);
      var all := Ciphers(data, sizes, n);
      var at, end := Offset(sizes, n - 1), Offset(sizes, n);
      assert all[..n - 1] == Ciphers(data, sizes, n - 1) && all[n - 1] == data[at..end];
      hide Ciphers, Cipher, Offset;
      assert data[HEADER..end] == data[HEADER..at] + data[at..end];
    }
  }

  lemma CipherHasItsSize(data: Bytes, sizes: seq<nat>, i: nat)
    requires i < |sizes| && Offset(sizes, |sizes|) <= |data|
    ensures |Cipher(data, sizes, i)| == sizes[i]
  {
    OffsetGrows(sizes, i + 1, |sizes|);
  }

  lemma KeyIsLast(data: Bytes, sizes: seq<nat>)
    requires |data| == HEADER + Sum(sizes) + 4
    ensures Offset(sizes, |sizes|) == |data| - 4 && KeyBytes(data, sizes) == data[|data| - 4..]
  {
    SumIsOffset(sizes, |sizes|);
    assert sizes[..|sizes|] == sizes;
    hide Sum, Offset;
  }

  /** For a file of the expected size the chunks cover everything between header and key in order, without
      gap or overlap, each with its size, and the key is exactly the last four bytes. */
  lemma LayoutIsPartition(data: Bytes, sizes: seq<nat>)
    requires |data| == HEADER + Sum(sizes) + 4
    ensures data == data[..HEADER] + Concat(Ciphers(data, sizes, |sizes|)) + KeyBytes(data, sizes)
    ensures |KeyBytes(data, sizes)| == 4
    ensures forall i :: 0 <= i < |sizes| ==> |Ciphers(data, sizes, |sizes|)[i]| == sizes[i]
  {
    KeyIsLast(data, sizes);
    forall i | 0 <= i < |sizes| ensures |Ciphers(data, sizes, |sizes|)[i]| == sizes[i] {
      CipherHasItsSize(data, sizes, i);
    }
    hide Sum, Offset, Concat, Ciphers, Cipher, KeyBytes;
    CiphersJoin(data, sizes, |sizes|);
  }

  // ---------------------------------------------------------------- assembling a file

  function Lengths(chunks: seq<Bytes>): seq<nat> {
    seq(|chunks|, i requires 0 <= i < |chunks| => |chunks[i]|)
  }

  function EncryptAll(chunks: seq<Bytes>, key: Key): seq<Bytes> {
    seq(|chunks|, i requires 0 <= i < |chunks| => Encrypted(chunks[i], key))
  }

  /** A header that announces these chunks. */
  predicate Announces(header: Bytes, chunks: seq<Bytes>) {
    |header| == HEADER && header[..2] == [0x5A, 0xA5] && Sizes(header) == Some(Lengths(chunks))
  }

  function Assemble(header: Bytes, chunks: seq<Bytes>, keyBytes: Bytes): Bytes
    requires |keyBytes| == 4
  {
    header + Concat(EncryptAll(chunks, KeyOf(keyBytes))) + keyBytes
  }

  lemma {:induction false} JoinedCipher(parts: seq<Bytes>, sizes: seq<nat>, header: Bytes, tail: Bytes, i: nat)
    requires |header| == HEADER && i < |parts| == |sizes|
    requires forall j :: 0 <= j < |parts| ==> |parts[j]| == sizes[j]
    ensures |Concat(parts)| == Offset(sizes, |sizes|) - HEADER
    ensures Cipher(header + Concat(parts) + tail, sizes, i) == parts[i]
    decreases |parts|
  {
    var n := |parts|;
    var most, less := parts[..n - 1], sizes[..n - 1];
    OffsetOfPrefix(sizes, n - 1, n - 1);
    if n == 1 {
      assert Concat(most) == [];
    } else {
      JoinedCipher(most, less, header, parts[n - 1] + tail, if i < n - 1 then i else 0);
    }
    var data := header + Concat(parts) + tail;
    assert data == header + Concat(most) + (parts[n - 1] + tail);
    if i < n - 1 {
      OffsetOfPrefix(sizes, n - 1, i);
      OffsetOfPrefix(sizes, n - 1, i + 1);
    }
  }

  lemma {:induction false} OffsetOfPrefix(sizes: seq<nat>, n: nat, i: nat)
    requires i <= n <= |sizes|
    ensures Offset(sizes[..n], i) == Offset(sizes, i)
  {
    if i > 0 { OffsetOfPrefix(sizes, n, i - 1); }
  }

  lemma JoinedLength(parts: seq<Bytes>, sizes: seq<nat>)
    requires |parts| == |sizes| && forall j :: 0 <= j < |parts| ==> |parts[j]| == sizes[j]
    ensures |Concat(parts)| == Offset(sizes, |sizes|) - HEADER
  {
    if |parts| > 0 {
      JoinedCipher(parts, sizes, seq(HEADER, _ => 0), [], 0);
    }
  }

  /** Chunk i of an assembled file decrypts to chunk i. */
  lemma ChunkComesBack(header: Bytes, chunks: seq<Bytes>, keyBytes: Bytes, i: nat)
    requires |header| == HEADER && |keyBytes| == 4 && i < |chunks|
    ensures Chunk(Assemble(header, chunks, keyBytes), Lengths(chunks), i) ==
      if Showable(chunks[i]) then Chunks([chunks[i]]) else ShortChunk
  {
    hide Encrypted, Decrypted;
    var key, sizes := KeyOf(keyBytes), Lengths(chunks);
    var parts := EncryptAll(chunks, key);
    var data := Assemble(header, chunks, keyBytes);
    JoinedLength(parts, sizes);
    JoinedCipher(parts, sizes, header, keyBytes, i);
    assert KeyBytes(data, sizes) == keyBytes;
    BufferRoundTrip(chunks[i], key);
  }

  lemma {:induction false} FirstChunksComeBack(header: Bytes, chunks: seq<Bytes>, keyBytes: Bytes, n: nat)
    requires |header| == HEADER && |keyBytes| == 4 && n <= |chunks|
    ensures FirstChunks(Assemble(header, chunks, keyBytes), Lengths(chunks), n) ==
      if forall i :: 0 <= i < n ==> Showable(chunks[i]) then Chunks(chunks[..n]) else ShortChunk
  {
    hide Chunk, Assemble;
    if n > 0 {
      FirstChunksComeBack(header, chunks, keyBytes, n - 1);
      ChunkComesBack(header, chunks, keyBytes, n - 1);
      assert chunks[..n] == chunks[..n - 1] + [chunks[n - 1]];
    }
  }

  /** Round trip: parsing a file assembled from any header, chunks and key gives back the chunks if and only
      if none of them is empty or stops inside a leading long jump; otherwise the script fails on it. */
  lemma AssembledFileParses(header: Bytes, chunks: seq<Bytes>, keyBytes: Bytes)
    requires Announces(header, chunks) && |keyBytes| == 4
    ensures
      var r := Parse(Assemble(header, chunks, keyBytes));
      && (r == Chunks(chunks) <==> forall i :: 0 <= i < |chunks| ==> Showable(chunks[i]))
      && (r != Chunks(chunks) ==> r == ShortChunk)
  {
    hide Chunk, FirstChunks, Concat;
    var data := Assemble(header, chunks, keyBytes);
    assert data[..HEADER] == header && data[0..2] == header[..2];
    assert data[38..42] == header[38..42] && data[42..46] == header[42..46] && data[60..64] == header[60..64];
    FirstChunksComeBack(header, chunks, keyBytes, |chunks|);
    assert chunks[..|chunks|] == chunks;
  }

  /** The failing files exist, with every key: a header that announces a single chunk of length zero. */
  lemma EmptyChunkFails(keyBytes: Bytes) returns (header: Bytes)
    requires |keyBytes| == 4
    ensures Announces(header, [[]]) && Parse(Assemble(header, [[]], keyBytes)) == ShortChunk
  {
    header := seq(HEADER, i => if i == 0 then 0x5A else if i == 1 then 0xA5 else if i == 9 then 1 else 0);
    assert Lengths([[]]) == [0];
    AssembledFileParses(header, [[]], keyBytes);
    assert !Showable([[]][0]);
  }

  // ---------------------------------------------------------------- the layout in bytes

  /** The four bytes from `at` on write the length, the high digit first. */
  predicate Announced(header: Bytes, at: nat, length: nat)
    requires at + 4 <= |header|
  {
    var (b0: int, b1: int, b2: int, b3: int) := (header[at], header[at + 1], header[at + 2], header[at + 3]);
    length == 16_777_216 * b0 + 65_536 * b1 + 256 * b2 + b3
  }

  /** A header for these chunks, byte by byte.  Type 1 has no use for the second length, type 2 none for the
      first, and only type 3 has a third. */
  predicate HeaderFor(header: Bytes, chunks: seq<Bytes>) {
    && |header| == 128 && header[0] == 0x5A && header[1] == 0xA5
    && match header[9]
       case 0 => |chunks| == 2 && Announced(header, 38, |chunks[0]|) && Announced(header, 42, |chunks[1]|)
       case 1 => |chunks| == 1 && Announced(header, 38, |chunks[0]|)
       case 2 => |chunks| == 1 && Announced(header, 42, |chunks[0]|)
       case 3 =>
         && |chunks| == 3 && Announced(header, 38, |chunks[0]|) && Announced(header, 42, |chunks[1]|)
         && Announced(header, 60, |chunks[2]|)
       case _ => false
  }

  /** The chunks one after the other, encrypted with the four key bytes as key words. */
  function Body(chunks: seq<Bytes>, key: Bytes): Bytes
    requires |key| == 4
  {
    if chunks == [] then []
    else Body(chunks[..|chunks| - 1], key) + Encrypted(chunks[|chunks| - 1], Key(key[0], key[1], key[2], key[3]))
  }

  lemma {:induction false} BodyIsConcat(chunks: seq<Bytes>, key: Bytes)
    requires |key| == 4
    ensures Body(chunks, key) == Concat(EncryptAll(chunks, KeyOf(key)))
  {
    if chunks != [] {
      var most := chunks[..|chunks| - 1];
      BodyIsConcat(most, key);
      var all := EncryptAll(chunks, KeyOf(key));
      assert all[..|all| - 1] == EncryptAll(most, KeyOf(key));
      hide Encrypted;
    }
  }

  lemma AnnouncedLength(header: Bytes, at: nat, length: nat)
    requires at + 4 <= |header| && Announced(header, at, length)
    ensures Unpack(header[at..at + 4]) == length
  {
  }

  lemma HeaderAnnounces(header: Bytes, chunks: seq<Bytes>)
    requires HeaderFor(header, chunks)
    ensures Announces(header, chunks)
  {
    if header[9] != 2 { AnnouncedLength(header, 38, |chunks[0]|); }
    if header[9] == 2 { AnnouncedLength(header, 42, |chunks[0]|); }
    if header[9] == 0 || header[9] == 3 { AnnouncedLength(header, 42, |chunks[1]|); }
    if header[9] == 3 { AnnouncedLength(header, 60, |chunks[2]|); }
    hide Unpack, Announced;
    assert header[..2] == [0x5A, 0xA5];
    var lengths := Lengths(chunks);
    assert header[9] == 0 ==> lengths == [|chunks[0]|, |chunks[1]|];
    assert header[9] == 1 || header[9] == 2 ==> lengths == [|chunks[0]|];
    assert header[9] == 3 ==> lengths == [|chunks[0]|, |chunks[1]|, |chunks[2]|];
  }

  /** The chunk has a first byte, and three if that byte is 2. */
  predicate ShowableBytes(chunk: Bytes) {
    |chunk| >= 3 || (|chunk| >= 1 && chunk[0] != 2)
  }

  /** Round trip in bytes, for each firmware type: a file made of a 128-byte header with the lengths in their
      fields, the encrypted chunks and the four key bytes is parsed into the chunks, exactly when every chunk
      is showable. */
  lemma FileInBytesParses(header: Bytes, chunks: seq<Bytes>, key: Bytes)
    requires HeaderFor(header, chunks) && |key| == 4
    ensures
      Parse(header + Body(chunks, key) + key) ==
        if forall i :: 0 <= i < |chunks| ==> ShowableBytes(chunks[i]) then Chunks(chunks) else ShortChunk
  {
    HeaderAnnounces(header, chunks);
    BodyIsConcat(chunks, key);
    AssembledFileParses(header, chunks, key);
    hide Parse, Concat, EncryptAll, Body, HeaderFor, Announces;
  }

  /** What becomes of chunk i when the file breaks off inside its key. */
  lemma ChunkWithoutKey(header: Bytes, chunks: seq<Bytes>, key: Bytes, rest: Bytes, i: nat)
    requires |header| == HEADER && |key| == 4 && |rest| < 4 && i < |chunks|
    ensures Chunk(header + Body(chunks, key) + rest, Lengths(chunks), i) ==
      if |chunks[i]| >= 8 then ShortKey else if ShowableBytes(chunks[i]) then Chunks([chunks[i]]) else ShortChunk
  {
    BodyIsConcat(chunks, key);
    hide Encrypted, Decrypted, Body, Concat;
    var sizes, parts := Lengths(chunks), EncryptAll(chunks, KeyOf(key));
    JoinedLength(parts, sizes);
    JoinedCipher(parts, sizes, header, rest, i);
    assert KeyBytes(header + Concat(parts) + rest, sizes) == rest;
    if |chunks[i]| < 8 { EncryptedShort(chunks[i], KeyOf(key)); }
  }

  lemma {:induction false} FirstChunksWithoutKey(header: Bytes, chunks: seq<Bytes>, key: Bytes, rest: Bytes, n: nat)
    requires |header| == HEADER && |key| == 4 && |rest| < 4 && n <= |chunks|
    ensures
      var r := FirstChunks(header + Body(chunks, key) + rest, Lengths(chunks), n);
      && (r == Chunks(chunks[..n]) <==> forall i :: 0 <= i < n ==> |chunks[i]| < 8 && ShowableBytes(chunks[i]))
      && (r.Chunks? ==> r == Chunks(chunks[..n]))
      && (r == ShortKey <==>
            exists i :: 0 <= i < n && |chunks[i]| >= 8
                        && forall j :: 0 <= j < i ==> |chunks[j]| < 8 && ShowableBytes(chunks[j]))
  {
    hide Chunk, Body;
    if n > 0 {
      FirstChunksWithoutKey(header, chunks, key, rest, n - 1);
      ChunkWithoutKey(header, chunks, key, rest, n - 1);
      hide ShowableBytes;
      assert chunks[..n] == chunks[..n - 1] + [chunks[n - 1]];
    }
  }

  /** A file that breaks off inside its key, for each firmware type: the script fails for want of a key exactly
      if a chunk of eight bytes or more is reached, and parses the file exactly if all chunks are shorter, and
      showable. */
  lemma CutFileFails(header: Bytes, chunks: seq<Bytes>, key: Bytes, rest: Bytes)
    requires HeaderFor(header, chunks) && |key| == 4 && |rest| < 4
    ensures
      var r := Parse(header + Body(chunks, key) + rest);
      && (r == Chunks(chunks) <==> forall i :: 0 <= i < |chunks| ==> |chunks[i]| < 8 && ShowableBytes(chunks[i]))
      && (r == ShortKey <==>
            exists i :: 0 <= i < |chunks| && |chunks[i]| >= 8
                        && forall j :: 0 <= j < i ==> |chunks[j]| < 8 && ShowableBytes(chunks[j]))
  {
    HeaderAnnounces(header, chunks);
    FirstChunksWithoutKey(header, chunks, key, rest, |chunks|);
    assert chunks[..|chunks|] == chunks;
    var data := header + Body(chunks, key) + rest;
    hide Chunk, FirstChunks, Body, HeaderFor, ShowableBytes;
    assert data[..HEADER] == header && data[0..2] == header[..2];
    assert data[38..42] == header[38..42] && data[42..46] == header[42..46] && data[60..64] == header[60..64];
  }

  /** The other ways to fail, by the bytes of the file. */
  lemma BadFilesFail(data: Bytes)
    ensures Parse(data) == BadMagic <==> !(2 <= |data| && data[0] == 0x5A && data[1] == 0xA5)
    ensures Parse(data) == Truncated <==>
      2 <= |data| && data[0] == 0x5A && data[1] == 0xA5 && (|data| < 46 || (data[9] == 3 && |data| < 64))
    ensures Parse(data) == UnknownType <==>
      46 <= |data| && data[0] == 0x5A && data[1] == 0xA5 && data[9] > 3
  {
    if 2 <= |data| {
      assert Slice(data, 0, 2) == [data[0], data[1]];
    }
    if Slice(data, 0, 2) == [0x5A, 0xA5] && ReadableHeader(data) && Sizes(data).Some? {
      FailuresOfChunks(data, Sizes(data).value, |Sizes(data).value|);
    }
    hide FirstChunks, Unpack;
  }

  lemma {:induction false} FailuresOfChunks(data: Bytes, sizes: seq<nat>, n: nat)
    requires n <= |sizes|
    ensures var r := FirstChunks(data, sizes, n); r.Chunks? || r.ShortKey? || r.ShortChunk?
  {
    hide Cipher, KeyBytes, Decrypted;
    if n > 0 { FailuresOfChunks(data, sizes, n - 1); }
  }
}
