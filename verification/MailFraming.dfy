/**
 The byte stream between mail-qman and a pooled mail-deliver, and into a batch-mode
 mail-enqueue: each message is a 64-bit length and then its bytes.
 */
module MailFraming {
  newtype Byte = x: int | 0 <= x < 256
  type Bytes = seq<Byte>

  /** The `n` low-order bytes of `v`, least significant first. */
  function Encode(v: nat, n: nat): (b: Bytes)
    ensures |b| == n
  {
    if n == 0 then [] else [(v % 256) as Byte] + Encode(v / 256, n - 1)
  }

  function Decode(b: Bytes): nat {
    if b == [] then 0 else b[0] as nat + 256 * Decode(b[1..])
  }

  function Encode64(v: nat): (b: Bytes)
    ensures |b| == 8
  {
    Encode(v, 8)
  }

  function Decode64(b: Bytes): nat
    requires |b| == 8
  {
    Decode(b)
  }

  function Pow256(n: nat): nat {
    if n == 0 then 1 else 256 * Pow256(n - 1)
  }

  lemma {:induction false} DecodeEncode(v: nat, n: nat)
    requires v < Pow256(n)
    ensures Decode(Encode(v, n)) == v
  {
    if n > 0 {
      DecodeEncode(v / 256, n - 1);
      assert Encode(v, n)[1..] == Encode(v / 256, n - 1);
    }
  }

  lemma LengthRoundTrip(v: nat)
    requires v < 0x1_0000_0000_0000_0000
    ensures Decode64(Encode64(v)) == v
  {
    assert Pow256(8) == 0x1_0000_0000_0000_0000;
    DecodeEncode(v, 8);
  }
}
