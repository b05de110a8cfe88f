/** DNSCrypt query padding (ISO/IEC 7816-4) and the length arithmetic around it. */
module DnscryptPad {
  import opened Common

  const QUERY_OVERHEAD := 8 + 32 + 12 + 16
  const TAG_SIZE := 16
  const HEAD_SIZE := 8 + 32 + 12
  const MAX_PACKET := 4096
  const MAX_UDP_SAFE := 1252

  function Zeros(n: nat): (r: seq<byte>)
    ensures |r| == n && forall i :: 0 <= i < n ==> r[i] == 0
  {
    seq(n, _ => 0)
  }

  /** A packet, the delimiter, and zeroes up to the wanted size. */
  function Padded(packet: seq<byte>, size: int): seq<byte> {
    packet + [0x80] + if |packet| + 1 < size then Zeros(size - |packet| - 1) else []
  }

  /** The packet before the last non-zero byte, if that byte is the delimiter. */
  function Unpadded(s: seq<byte>): Option<seq<byte>> {
    if s == [] then None
    else if s[|s| - 1] == 0x80 then Some(s[..|s| - 1])
    else if s[|s| - 1] == 0 then Unpadded(s[..|s| - 1])
    else None
  }

  method Pad(packet: seq<byte>, size: int) returns (r: seq<byte>)
    ensures r == Padded(packet, size)
    ensures |r| == if |packet| + 1 < size then size else |packet| + 1
  {
    r := packet + [0x80];
    while |r| < size
      invariant |r| >= |packet| + 1 && (|r| == |packet| + 1 || |r| <= size)
      invariant r == packet + [0x80] + Zeros(|r| - |packet| - 1)
    {
      ghost var n := |r| - |packet| - 1;
      assert Zeros(n) + [0] == Zeros(n + 1);
      r := r + [0];
    }
  }

  method Unpad(packet: seq<byte>) returns (r: Option<seq<byte>>)
    ensures r == Unpadded(packet)
  {
    var i := |packet|;
    assert packet[..i] == packet;
    while i > 0
      invariant 0 <= i <= |packet|
      invariant Unpadded(packet[..i]) == Unpadded(packet)
    {
      assert packet[..i][..i - 1] == packet[..i - 1];
      i := i - 1;
      if packet[i] == 0x80 {
        return Some(packet[..i]);
      } else if packet[i] != 0x00 {
        return None;
      }
    }
    return None;
  }

  lemma {:induction false} UnpadZeros(p: seq<byte>, k: nat)
    ensures Unpadded(p + [0x80] + Zeros(k)) == Some(p)
  {
    var s := p + [0x80] + Zeros(k);
    if k == 0 {
      assert s == p + [0x80] && s[..|s| - 1] == p;
    } else {
      UnpadZeros(p, k - 1);
      assert s[..|s| - 1] == p + [0x80] + Zeros(k - 1);
    }
  }

  /** Unpadding undoes padding for every packet and size, whatever the packet ends in. */
  lemma UnpadPad(p: seq<byte>, size: int)
    ensures Unpadded(Padded(p, size)) == Some(p)
  {
    UnpadZeros(p, if |p| + 1 < size then size - |p| - 1 else 0);
    assert p + [0x80] + Zeros(0) == p + [0x80] + [];
  }

  lemma PaddedAccepted(s: seq<byte>, p: seq<byte>, k: nat)
    requires s == p + [0x80] + Zeros(k)
    ensures Unpadded(s) == Some(p)
  {
    UnpadZeros(p, k);
  }

  lemma {:induction false} UnpadGives(s: seq<byte>)
    ensures Unpadded(s).Some? ==>
            |Unpadded(s).value| < |s| && s == Unpadded(s).value + [0x80] + Zeros(|s| - |Unpadded(s).value| - 1)
  {
    if s != [] && s[|s| - 1] == 0 {
      UnpadGives(s[..|s| - 1]);
      assert s == s[..|s| - 1] + [0];
      if Unpadded(s).Some? {
        var n := |s| - 1 - |Unpadded(s).value| - 1;
        assert Zeros(n) + [0] == Zeros(n + 1);
      }
    }
  }

  /** Exactly the padded packets are accepted: unpadding gives `p` if and only if `p`, the delimiter and zeros came. */
  lemma UnpadAccepts(s: seq<byte>, p: seq<byte>)
    ensures Unpadded(s) == Some(p) <==> |p| < |s| && s == p + [0x80] + Zeros(|s| - |p| - 1)
  {
    UnpadGives(s);
    if |p| < |s| && s == p + [0x80] + Zeros(|s| - |p| - 1) {
      PaddedAccepted(s, p, |s| - |p| - 1);
    }
  }

  // ---- Query length ----------------------------------------------------------------------------

  datatype Path = Udp | TcpRelay | Tcp(draw: byte)

  /** `x & ^63` of a non-negative number. */
  function ClearLow6(x: nat): nat {
    x - x % 64
  }

  function PaddedLength(len: nat, path: Path): int {
    match path
    case Udp => MAX_UDP_SAFE
    case TcpRelay => MAX_PACKET
    case Tcp(draw) => Min(MAX_PACKET, ClearLow6(QUERY_OVERHEAD + len + draw + 1 + 63))
  }

  function Cap(path: Path): int {
    if path.Udp? then MAX_UDP_SAFE else MAX_PACKET
  }

  /** The query's length on the wire, or nothing when it is too large. */
  function WireLength(packet: seq<byte>, path: Path): Option<int> {
    var n := PaddedLength(|packet|, path);
    if QUERY_OVERHEAD + |packet| + 1 > n then None
    else Some(HEAD_SIZE + |Padded(packet, n - QUERY_OVERHEAD)| + TAG_SIZE)
  }

  /** Without a relay the size is the least multiple of 64 above the randomised size, or the cap. */
  lemma LeastMultiple(len: nat, draw: byte)
    ensures var n, q := PaddedLength(len, Tcp(draw)), QUERY_OVERHEAD + len + draw;
            n == MAX_PACKET < q + 64 || (n % 64 == 0 && q < n <= q + 64)
  {
  }

  /** A query is refused exactly when it does not fit under the cap; one that is sent has exactly the padded length. */
  lemma RefusedIff(packet: seq<byte>, path: Path)
    ensures WireLength(packet, path).None? <==> QUERY_OVERHEAD + |packet| + 1 > Cap(path)
    ensures WireLength(packet, path).Some? ==> WireLength(packet, path).value == PaddedLength(|packet|, path)
  {
    if path.Tcp? {
      LeastMultiple(|packet|, path.draw);
    }
  }
}
