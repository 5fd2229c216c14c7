/** The buffer loop of scripts/decrypt_upf.py over big-endian words, in place. */
module Upf {
  import opened Base
  import opened Tea

  // ---------------------------------------------------------------- big-endian words

  function Unpack(b: Bytes): Word
    requires |b| == 4
  {
    var (b0: int, b1: int, b2: int, b3: int) := (b[0], b[1], b[2], b[3]);
    b0 * 16_777_216 + b1 * 65_536 + b2 * 256 + b3
  }

  function Pack(w: Word): (b: Bytes)
    ensures |b| == 4
  {
    [w / 16_777_216, w / 65_536 % 256, w / 256 % 256, w % 256]
  }

  lemma PackUnpack(b: Bytes)
    requires |b| == 4
    ensures Pack(Unpack(b)) == b
  {
    Digits(b[0], b[1], b[2], b[3]);
  }

  lemma Digits(b0: int, b1: int, b2: int, b3: int)
    requires 0 <= b0 < 256 && 0 <= b1 < 256 && 0 <= b2 < 256 && 0 <= b3 < 256
    ensures
      var w := b0 * 16_777_216 + b1 * 65_536 + b2 * 256 + b3;
      w / 16_777_216 == b0 && w / 65_536 % 256 == b1 && w / 256 % 256 == b2 && w % 256 == b3
  {
    var w := b0 * 16_777_216 + b1 * 65_536 + b2 * 256 + b3;
    assert w / 256 == b0 * 65_536 + b1 * 256 + b2;
    assert w / 65_536 == b0 * 256 + b1;
  }

  lemma UnpackPack(w: Word)
    ensures Unpack(Pack(w)) == w
  {
    var x: int := w;
    assert x == x / 256 * 256 + x % 256;
    assert x / 256 == x / 65_536 * 256 + x / 256 % 256;
    assert x / 65_536 == x / 16_777_216 * 256 + x / 65_536 % 256;
  }

  function BlockOf(b: Bytes): Pair
    requires |b| == 8
  {
    Pair(Unpack(b[..4]), Unpack(b[4..]))
  }

  function BytesOf(p: Pair): (b: Bytes)
    ensures |b| == 8
  {
    Pack(p.v0) + Pack(p.v1)
  }

  lemma BlockRoundTrip(b: Bytes, p: Pair)
    requires |b| == 8
    ensures BytesOf(BlockOf(b)) == b
    ensures BlockOf(BytesOf(p)) == p
  {
    PackUnpack(b[..4]);
    PackUnpack(b[4..]);
    UnpackPack(p.v0);
    UnpackPack(p.v1);
    assert BytesOf(p)[..4] == Pack(p.v0) && BytesOf(p)[4..] == Pack(p.v1);
    assert b[..4] + b[4..] == b;
  }

  // ---------------------------------------------------------------- a buffer

  function DecryptBytes(b: Bytes, key: Key): (r: Bytes)
    requires |b| == 8
    ensures |r| == 8
  {
    BytesOf(DecryptBlock(BlockOf(b), key))
  }

  function EncryptBytes(b: Bytes, key: Key): (r: Bytes)
    requires |b| == 8
    ensures |r| == 8
  {
    BytesOf(EncryptBlock(BlockOf(b), key))
  }

  lemma BytesRoundTrip(b: Bytes, key: Key)
    requires |b| == 8
    ensures DecryptBytes(EncryptBytes(b, key), key) == b
    ensures EncryptBytes(DecryptBytes(b, key), key) == b
  {
    hide BlockOf, BytesOf, DecryptBlock, EncryptBlock;
    var p := BlockOf(b);
    BlockRoundTrip(b, EncryptBlock(p, key));
    BlockRoundTrip(b, DecryptBlock(p, key));
    BlockBijection(p, key);
  }

  /** Whole blocks decrypted one by one, what is left over copied. */
  function Decrypted(data: Bytes, key: Key): (r: Bytes)
    ensures |r| == |data|
  {
    if |data| < 8 then data else DecryptBytes(data[..8], key) + Decrypted(data[8..], key)
  }

  function Encrypted(data: Bytes, key: Key): (r: Bytes)
    ensures |r| == |data|
  {
    if |data| < 8 then data else EncryptBytes(data[..8], key) + Encrypted(data[8..], key)
  }

  /** The buffer-level inverse, for every length. */
  lemma {:induction false} BufferRoundTrip(data: Bytes, key: Key)
    ensures Decrypted(Encrypted(data, key), key) == data
    ensures Encrypted(Decrypted(data, key), key) == data
  {
    hide DecryptBytes, EncryptBytes, Decrypted, Encrypted;
    if |data| < 8 {
      DecryptedShort(data, key);
      EncryptedShort(data, key);
    } else {
      var block, rest := data[..8], data[8..];
      BytesRoundTrip(block, key);
      BufferRoundTrip(rest, key);
      DecryptedOneBlock(block, rest, key);
      EncryptedOneBlock(block, rest, key);
      DecryptedOneBlock(EncryptBytes(block, key), Encrypted(rest, key), key);
      EncryptedOneBlock(DecryptBytes(block, key), Decrypted(rest, key), key);
      assert data == block + rest;
    }
  }

  lemma EncryptedShort(data: Bytes, key: Key)
    requires |data| < 8
    ensures Encrypted(data, key) == data
  {
  }

  lemma {:induction false} DecryptedConcat(a: Bytes, b: Bytes, key: Key)
    requires |a| % 8 == 0
    ensures Decrypted(a + b, key) == Decrypted(a, key) + Decrypted(b, key)
  {
    hide DecryptBytes;
    if a == [] {
      assert a + b == b;
    } else {
      DecryptedConcat(a[8..], b, key);
      assert (a + b)[..8] == a[..8] && (a + b)[8..] == a[8..] + b;
    }
  }

  lemma EncryptedOneBlock(block: Bytes, rest: Bytes, key: Key)
    requires |block| == 8
    ensures Encrypted(block + rest, key) == EncryptBytes(block, key) + Encrypted(rest, key)
  {
    hide EncryptBytes;
    assert (block + rest)[..8] == block && (block + rest)[8..] == rest;
  }

  lemma DecryptedOneBlock(block: Bytes, rest: Bytes, key: Key)
    requires |block| == 8
    ensures Decrypted(block + rest, key) == DecryptBytes(block, key) + Decrypted(rest, key)
  {
    hide DecryptBytes;
    assert (block + rest)[..8] == block && (block + rest)[8..] == rest;
  }

  /** Block i of the output depends on block i of the input alone. */
  lemma DecryptedBlockwise(data: Bytes, key: Key, i: nat)
    requires 8 * i + 8 <= |data|
    ensures Decrypted(data, key)[8 * i..8 * i + 8] == DecryptBytes(data[8 * i..8 * i + 8], key)
  {
    hide DecryptBytes, Decrypted;
    var before, block, rest := data[..8 * i], data[8 * i..8 * i + 8], data[8 * i + 8..];
    assert data == before + (block + rest);
    DecryptedConcat(before, block + rest, key);
    DecryptedOneBlock(block, rest, key);
  }

  /** The bytes after the last whole block are untouched. */
  lemma DecryptedTail(data: Bytes, key: Key)
    ensures Decrypted(data, key)[|data| / 8 * 8..] == data[|data| / 8 * 8..]
  {
    hide DecryptBytes, Decrypted;
    var tail := |data| / 8 * 8;
    assert data == data[..tail] + data[tail..];
    DecryptedConcat(data[..tail], data[tail..], key);
    DecryptedShort(data[tail..], key);
  }

  /** One more block of the buffer done. */
  lemma DecryptedNext(data: Bytes, key: Key, off: nat)
    requires off % 8 == 0 && off + 8 <= |data|
    ensures Decrypted(data[..off + 8], key) == Decrypted(data[..off], key) + DecryptBytes(data[off..off + 8], key)
  {
    hide DecryptBytes;
    var block := data[off..off + 8];
    assert data[..off + 8] == data[..off] + block && block == block + [];
    DecryptedConcat(data[..off], block, key);
    DecryptedOneBlock(block, [], key);
    assert Decrypted([], key) == [];
  }

  /** `tea_decrypt`: a copy overwritten in place, block by block. */
  method TeaDecrypt(data: Bytes, key: Key) returns (r: Bytes)
    ensures r == Decrypted(data, key)
  {
    hide DecryptBytes, Decrypted, Halfway;
    HalfwayStart(data, key);
    var out := new Byte[|data|](i requires 0 <= i < |data| => data[i]);
    var blocks := |data| / 8;
    assert out[..] == data;
    for i := 0 to blocks
      invariant out[..] == Halfway(data, key, 8 * i)
    {
      var off := i * 8;
      HalfwayNext(data, key, off);
      DecryptInPlace(out, off, key);
    }
    r := out[..];
    HalfwayEnd(data, key);
  }

  /** The buffer when everything before `off` is done. */
  function Halfway(data: Bytes, key: Key, off: nat): (r: Bytes)
    requires off <= |data|
    ensures |r| == |data|
  {
    Decrypted(data[..off], key) + data[off..]
  }

  lemma HalfwayStart(data: Bytes, key: Key)
    ensures Halfway(data, key, 0) == data
  {
  }

  lemma HalfwayNext(data: Bytes, key: Key, off: nat)
    requires off % 8 == 0 && off + 8 <= |data|
    ensures
      var h := Halfway(data, key, off);
      Halfway(data, key, off + 8) == h[..off] + DecryptBytes(h[off..off + 8], key) + h[off + 8..]
  {
    hide DecryptBytes, Decrypted;
    DecryptedNext(data, key, off);
    assert Halfway(data, key, off)[off..off + 8] == data[off..off + 8];
  }

  lemma HalfwayEnd(data: Bytes, key: Key)
    ensures Halfway(data, key, |data| / 8 * 8) == Decrypted(data, key)
  {
    hide DecryptBytes, Decrypted;
    var tail := |data| / 8 * 8;
    assert data == data[..tail] + data[tail..];
    DecryptedConcat(data[..tail], data[tail..], key);
    DecryptedShort(data[tail..], key);
  }

  lemma DecryptedShort(data: Bytes, key: Key)
    requires |data| < 8
    ensures Decrypted(data, key) == data
  {
  }

  /** The body of the loop: unpack, decrypt, pack back. */
  method DecryptInPlace(out: array<Byte>, off: nat, key: Key)
    requires off + 8 <= out.Length
    modifies out
    ensures out[..] == old(out[..off]) + DecryptBytes(old(out[off..off + 8]), key) + old(out[off + 8..])
  {
    ghost var block := out[off..off + 8];
    assert block[..4] == out[off..off + 4] && block[4..] == out[off + 4..off + 8];
    var v0, v1 := TeaDecryptBlock(Unpack(out[off..off + 4]), Unpack(out[off + 4..off + 8]), key);
    assert BytesOf(Pair(v0, v1)) == DecryptBytes(block, key);
    hide DecryptBytes, BytesOf;
    CopyInto(out, off, BytesOf(Pair(v0, v1)));
  }
}
