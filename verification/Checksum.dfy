/**
 * The frame check of net_layer.c: one byte that balances the exclusive or of a frame.
 */
module Checksum {

  type Byte = bv8

  /** sizeof(NetFrame): 16 bytes of header, 136 bytes of contents. */
  const FRAME_SIZE: nat := 152
  const VERSION_AT: nat := 0
  const CHECKSUM_AT: nat := 3
  const NETWORK_TYPE: Byte := 0x10
  const NETWORK_VERSION: Byte := 0x01

  function Xor(s: seq<Byte>): Byte {
    if s == [] then 0 else Xor(s[..|s| - 1]) ^ s[|s| - 1]
  }

  /** A frame is balanced if all its bytes, with the checksum, cancel out. */
  predicate Accepted(data: seq<Byte>) {
    |data| == FRAME_SIZE && data[VERSION_AT] == NETWORK_TYPE | NETWORK_VERSION && Xor(data) == 0
  }

  lemma {:induction false} XorUpdate(s: seq<Byte>, k: nat, x: Byte)
    requires k < |s|
    ensures Xor(s[k := x]) == Xor(s) ^ s[k] ^ x
    decreases |s|
  {
    var n := |s| - 1;
    if k == n {
      assert s[k := x][..n] == s[..n];
    } else {
      assert s[k := x][..n] == s[..n][k := x];
      XorUpdate(s[..n], k, x);
    }
  }

  /** The exclusive or of the first n bytes but the checksum. */
  function XorSkipping(s: seq<Byte>, n: nat): Byte
    requires n <= |s|
  {
    if n == 0 then 0
    else if n - 1 == CHECKSUM_AT then XorSkipping(s, n - 1)
    else XorSkipping(s, n - 1) ^ s[n - 1]
  }

  lemma SwapXor(a: Byte, b: Byte, c: Byte)
    ensures a ^ b ^ c == a ^ c ^ b && a ^ b ^ b == a
  {}

  lemma {:induction false} XorSkipped(s: seq<Byte>, n: nat)
    requires n <= |s|
    ensures XorSkipping(s, n) == if n <= CHECKSUM_AT then Xor(s[..n]) else Xor(s[..n]) ^ s[CHECKSUM_AT]
  {
    if n > 0 {
      XorSkipped(s, n - 1);
      assert s[..n][..n - 1] == s[..n - 1];
      SwapXor(Xor(s[..n - 1]), if n > CHECKSUM_AT then s[CHECKSUM_AT] else 0, s[n - 1]);
    }
  }

  /** pak_checksum: the exclusive or of all bytes but the checksum. */
  method PakChecksum(frame: array<Byte>) returns (balance: Byte)
    requires frame.Length == FRAME_SIZE
    ensures balance == Xor(frame[..]) ^ frame[CHECKSUM_AT]
  {
    balance := 0;
    for i := 0 to FRAME_SIZE
      invariant balance == XorSkipping(frame[..], i)
    {
      if i != CHECKSUM_AT {
        balance := balance ^ frame[i];
      }
    }
    XorSkipped(frame[..], FRAME_SIZE);
    assert frame[..][..FRAME_SIZE] == frame[..];
  }

  /** Setting the checksum last, as every sender does. */
  method Seal(frame: array<Byte>)
    requires frame.Length == FRAME_SIZE
    modifies frame
    ensures frame[..] == old(frame[..])[CHECKSUM_AT := Xor(old(frame[..])) ^ old(frame[CHECKSUM_AT])]
  {
    var c := PakChecksum(frame);
    frame[CHECKSUM_AT] := c;
  }

  /** valid_packet. */
  method ValidPacket(data: array<Byte>) returns (valid: bool)
    ensures valid <==> Accepted(data[..])
  {
    if data.Length != FRAME_SIZE {
      return false;
    }
    if data[VERSION_AT] != NETWORK_TYPE | NETWORK_VERSION {
      return false;
    }
    var c := PakChecksum(data);
    return data[CHECKSUM_AT] == c;
  }

  /** A frame with the right version is accepted once its checksum has been set, whatever was in it. */
  lemma SealedIsAccepted(s: seq<Byte>)
    requires |s| == FRAME_SIZE && s[VERSION_AT] == NETWORK_TYPE | NETWORK_VERSION
    ensures Accepted(s[CHECKSUM_AT := Xor(s) ^ s[CHECKSUM_AT]])
  {
    XorUpdate(s, CHECKSUM_AT, Xor(s) ^ s[CHECKSUM_AT]);
  }

  function Difference(s: seq<Byte>, t: seq<Byte>): (d: seq<Byte>)
    requires |s| == |t|
    ensures |d| == |s|
  {
    seq(|s|, i requires 0 <= i < |s| => s[i] ^ t[i])
  }

  lemma {:induction false} XorOfDifference(s: seq<Byte>, t: seq<Byte>)
    requires |s| == |t|
    ensures Xor(Difference(s, t)) == Xor(s) ^ Xor(t)
    decreases |s|
  {
    if s != [] {
      var n := |s| - 1;
      XorOfDifference(s[..n], t[..n]);
      assert Difference(s, t)[..n] == Difference(s[..n], t[..n]);
    }
  }

  /** Exactly which corruptions of an accepted frame go unnoticed. */
  lemma UnnoticedIff(sent: seq<Byte>, got: seq<Byte>)
    requires Accepted(sent)
    ensures Accepted(got) <==>
              |got| == |sent| && got[VERSION_AT] == sent[VERSION_AT] && Xor(Difference(sent, got)) == 0
  {
    if |got| == |sent| {
      XorOfDifference(sent, got);
    }
  }

  /** A change confined to one byte is always noticed. */
  lemma OneByteIsNoticed(sent: seq<Byte>, got: seq<Byte>, k: nat)
    requires Accepted(sent) && |got| == |sent| && k < |sent|
    requires got[k] != sent[k] && forall i :: 0 <= i < |sent| && i != k ==> got[i] == sent[i]
    ensures !Accepted(got)
  {
    assert got == sent[k := got[k]];
    XorUpdate(sent, k, got[k]);
  }

  /** Two swapped bytes never are, unless one of them is the version. */
  lemma SwappedBytesAreNot(sent: seq<Byte>, i: nat, j: nat)
    requires Accepted(sent) && VERSION_AT < i < j < |sent|
    ensures Accepted(sent[i := sent[j]][j := sent[i]])
  {
    XorUpdate(sent, i, sent[j]);
    XorUpdate(sent[i := sent[j]], j, sent[i]);
  }
}
