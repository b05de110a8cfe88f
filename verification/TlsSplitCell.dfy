/** The splitter as it runs: one scratch buffer, overwritten between two writes to the connection. */
module TlsSplitCell {
  import opened Common
  import opened TlsSplit

  /** A write that took `n` bytes; a short write reports an error. */
  datatype Outcome = Outcome(n: nat, failed: bool)

  predicate Allowed(o: Outcome, len: nat) {
    o.n <= len && (!o.failed ==> o.n == len)
  }

  /** A connection as the bytes it has accepted. */
  class Conn {
    var log: seq<byte>

    method Write(buf: seq<byte>, o: Outcome)
      requires Allowed(o, |buf|)
      modifies this
      ensures log == old(log) + buf[..o.n]
    {
      log := log + buf[..o.n];
    }
  }

  /** copy: as many bytes as fit. */
  method Copy(dst: array<byte>, src: seq<byte>) returns (n: nat)
    modifies dst
    ensures n == if |src| <= dst.Length then |src| else dst.Length
    ensures dst[..n] == src[..n]
    ensures dst[n..] == old(dst[n..])
  {
    n := if |src| <= dst.Length then |src| else dst.Length;
    var i := 0;
    while i < n
      invariant i <= n
      invariant dst[..i] == src[..i]
      invariant dst[i..] == old(dst[i..])
    {
      dst[i] := src[i];
      i := i + 1;
    }
  }

  method PutLength(parcel: array<byte>, v: nat)
    requires parcel.Length >= 5 && v < 65536
    modifies parcel
    ensures parcel[..] == old(parcel[..])[3 := v / 256][4 := v % 256]
  {
    parcel[3] := v / 256;
    parcel[4] := v % 256;
  }

  /** The first record in the scratch buffer: a prefix of the hello with its own length. */
  method FillFirst(parcel: array<byte>, hello: seq<byte>, draw: nat) returns (p: nat)
    requires Fragments(hello, draw) && parcel.Length >= SplitLen(|hello|, draw)
    modifies parcel
    ensures p <= parcel.Length && parcel[..p] == First(hello, draw)
  {
    var n := SplitLen(|hello|, draw);
    p := Copy(parcel, hello[..n]);
    PutLength(parcel, n - 5);
    FirstBytes(hello, draw, parcel[..p]);
  }

  lemma FirstBytes(hello: seq<byte>, draw: nat, got: seq<byte>)
    requires Fragments(hello, draw)
    requires var n := SplitLen(|hello|, draw); got == hello[..n][3 := (n - 5) / 256][4 := (n - 5) % 256]
    ensures got == First(hello, draw)
  {
  }

  /** The second record: the rest of the hello, its last five sent bytes overwritten by a header. */
  method FillSecond(parcel: array<byte>, hello: seq<byte>, draw: nat) returns (q: nat, aux: nat)
    requires Fragments(hello, draw) && parcel.Length >= SplitLen(|hello|, draw)
    modifies parcel
    ensures q <= parcel.Length && parcel[..q] == Second(hello, draw, parcel.Length) && aux == 5
  {
    var n := SplitLen(|hello|, draw);
    q := Copy(parcel, hello[n - 5..]);
    ghost var filled := parcel[..q];
    aux := Copy(parcel, hello[..5]);
    assert parcel[..q] == hello[..5] + filled[5..] by {
      assert forall i :: 5 <= i < q ==> parcel[i] == parcel[5..][i - 5];
    }
    var len := HelloRecordLen(hello).len - (n - 5);
    PutLength(parcel, len);
    SecondBytes(hello, draw, parcel.Length, q, parcel[..q]);
  }

  lemma SecondBytes(hello: seq<byte>, draw: nat, cap: nat, q: nat, got: seq<byte>)
    requires Fragments(hello, draw) && cap >= SplitLen(|hello|, draw)
    requires q == Min(Needed(hello, draw), cap)
    requires var n, len := SplitLen(|hello|, draw), HelloRecordLen(hello).len - (SplitLen(|hello|, draw) - 5);
             got == (hello[..5] + hello[n - 5..][..q][5..])[3 := len / 256][4 := len % 256]
    ensures got == Second(hello, draw, cap)
  {
  }

  /** The count reported to the caller, given what the two writes of a fragmented hello took. */
  function Count(len: nat, first: Outcome, second: Outcome): nat {
    if first.failed then first.n else Min(first.n + Max(second.n - 5, 0), len)
  }

  /** Two plain writes of the two halves. */
  method WriteTcpSplit(w: Conn, hello: seq<byte>, draw: nat, first: Outcome, second: Outcome) returns (n: nat, failed: bool)
    requires var k := Cut(|hello|, draw); Allowed(first, k) && Allowed(second, |hello| - k)
    modifies w
    ensures n <= |hello| && w.log == old(w.log) + hello[..n]
    ensures failed == (first.failed || second.failed)
    ensures !failed ==> n == |hello|
  {
    var k := Cut(|hello|, draw);
    w.Write(hello[..k], first);
    assert hello[..k][..first.n] == hello[..first.n];
    if first.failed {
      return first.n, true;
    }
    w.Write(hello[k..], second);
    assert hello[..k] + hello[k..][..second.n] == hello[..k + second.n];
    return first.n + second.n, second.failed;
  }

  lemma Appended(log: seq<byte>, a: seq<byte>, b: seq<byte>, n: nat, all: seq<byte>)
    requires n == |b| && all == log + a + b[..n]
    ensures all == log + (a + b)
  {
    assert b[..n] == b;
  }

  lemma WholeIff(hello: seq<byte>, draw: nat, cap: nat, first: Outcome, second: Outcome)
    requires Fragments(hello, draw) && first == Outcome(SplitLen(|hello|, draw), false)
    requires second == Outcome(|Second(hello, draw, cap)|, false)
    ensures Count(|hello|, first, second) == |hello| <==> cap >= Needed(hello, draw)
  {
  }

  /** Writes a hello as two records when it is one, and reports how much of the hello went out. */
  method WriteSplit(w: Conn, hello: seq<byte>, draw: nat, parcel: array<byte>, first: Outcome, second: Outcome)
      returns (n: nat, failed: bool)
    requires Fragments(hello, draw) && parcel.Length >= SplitLen(|hello|, draw)
    requires Allowed(first, SplitLen(|hello|, draw)) && Allowed(second, |Second(hello, draw, parcel.Length)|)
    modifies w, parcel
    ensures failed == (first.failed || second.failed)
    ensures n == Count(|hello|, first, second) <= |hello|
    ensures !failed ==> w.log == old(w.log) + (First(hello, draw) + Second(hello, draw, parcel.Length))
    ensures !failed ==> (n == |hello| <==> parcel.Length >= Needed(hello, draw))
  {
    var p := FillFirst(parcel, hello, draw);
    w.Write(parcel[..p], first);
    if first.failed {
      return first.n, true;
    }
    ghost var sent := w.log;
    assert sent == old(w.log) + First(hello, draw);
    var q, aux := FillSecond(parcel, hello, draw);
    w.Write(parcel[..q], second);
    n := first.n + Max(second.n - aux, 0);
    if !second.failed {
      Appended(old(w.log), First(hello, draw), Second(hello, draw, parcel.Length), second.n, w.log);
      WholeIff(hello, draw, parcel.Length, first, second);
    }
    return Min(n, |hello|), second.failed;
  }

  /** What the connection may report for each of the writes a hello leads to. */
  predicate AllowedFor(hello: seq<byte>, draw: nat, draw2: nat, cap: nat, first: Outcome, second: Outcome) {
    if |hello| <= 1 then Allowed(first, |hello|)
    else if Fragments(hello, draw) then
      Allowed(first, SplitLen(|hello|, draw)) && Allowed(second, |Second(hello, draw, cap)|)
    else Allowed(first, Cut(|hello|, draw2)) && Allowed(second, |hello| - Cut(|hello|, draw2))
  }

  /** The whole writer. With no error the peer has been sent the split hello and the count is the hello's length. */
  method WriteTcpOrTlsSplit(w: Conn, hello: seq<byte>, draw: nat, draw2: nat, parcel: array<byte>, first: Outcome, second: Outcome)
      returns (n: nat, failed: bool)
    requires draw <= 58 && draw2 <= 32 && parcel.Length >= 64
    requires AllowedFor(hello, draw, draw2, parcel.Length, first, second)
    modifies w, parcel
    ensures n <= |hello|
    ensures !failed ==> w.log == old(w.log) + Sent(hello, draw, draw2, parcel.Length)
    ensures !failed && (Fragments(hello, draw) ==> parcel.Length >= Needed(hello, draw)) ==> n == |hello|
  {
    if |hello| <= 1 {
      w.Write(hello, first);
      assert first.n == |hello| ==> hello[..first.n] == hello;
      return first.n, first.failed;
    }
    if !Fragments(hello, draw) {
      n, failed := WriteTcpSplit(w, hello, draw2, first, second);
      assert hello[..Cut(|hello|, draw2)] + hello[Cut(|hello|, draw2)..] == hello == hello[..|hello|];
      return;
    }
    n, failed := WriteSplit(w, hello, draw, parcel, first, second);
  }
}
