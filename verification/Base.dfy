/** Small shared vocabulary: optional values, bytes and byte arrays, minimum, maximum and powers of two. */
module Base {
  datatype Option<+T> = None | Some(value: T)

  type Byte = x: int | 0 <= x < 256

  type Bytes = seq<Byte>

  function Min(a: int, b: int): int {
    if a <= b then a else b
  }

  function Max(a: int, b: int): int {
    if a <= b then b else a
  }

  function Pow2(n: nat): (p: nat)
    ensures p > 0
  {
    if n == 0 then 1 else 2 * Pow2(n - 1)
  }

  method CopyInto(a: array<Byte>, at: nat, bytes: Bytes)
    requires at + |bytes| <= a.Length
    modifies a
    ensures a[..] == old(a[..at]) + bytes + old(a[at + |bytes|..])
  {
    for k := 0 to |bytes|
      invariant forall i :: 0 <= i < at || at + k <= i < a.Length ==> a[i] == old(a[i])
      invariant forall i :: 0 <= i < k ==> a[at + i] == bytes[i]
    {
      a[at + k] := bytes[k];
    }
    assert a[..] == a[..at] + a[at..at + |bytes|] + a[at + |bytes|..];
    assert a[..at] == old(a[..at]) && a[at..at + |bytes|] == bytes;
  }
}
