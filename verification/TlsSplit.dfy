/** First-segment splitting: a TLS record is sent as two records, anything else as two plain writes. */
module TlsSplit {
  import opened Common
  import opened TlsRecords

  const HANDSHAKE: byte := 22

  /** The length field of a handshake record, if `h` starts with one. */
  datatype RecordLen = NotTls | Len(len: nat)

  function HelloRecordLen(h: seq<byte>): (r: RecordLen)
    ensures r.Len? ==> |h| >= 5 && r.len == Be16(h[3], h[4])
  {
    if |h| < 5 || h[0] != HANDSHAKE then NotTls
    else if Be16(h[1], h[2]) !in {0x0301, 0x0302, 0x0303, 0x0304} then NotTls
    else Len(Be16(h[3], h[4]))
  }

  /** A hello is taken for a record of `n` bytes exactly when it starts with such a record's header. */
  lemma HelloIsRecord(h: seq<byte>, n: nat)
    requires n < 65536
    ensures HelloRecordLen(h) == Len(n) <==> |h| >= 5 && 1 <= h[2] <= 4 && h[..5] == [HANDSHAKE, 3, h[2]] + Put16(n)
  {
    if |h| >= 5 {
      assert h[..5] == [h[0], h[1], h[2]] + [h[3], h[4]];
      assert Be16(h[3], h[4]) == n <==> [h[3], h[4]] == Put16(n);
    }
  }

  /** The split length for a random draw in [0, 58]; it includes the record header. */
  function SplitLen(len: nat, draw: nat): int {
    Min(6 + draw, len / 2)
  }

  /** Whether the hello is sent as two records. */
  predicate Fragments(hello: seq<byte>, draw: nat) {
    var r := HelloRecordLen(hello);
    var first := SplitLen(|hello|, draw) - 5;
    r.Len? && first > 0 && first < r.len
  }

  /** The two records, as they leave a scratch buffer of `cap` bytes. */
  function First(hello: seq<byte>, draw: nat): seq<byte>
    requires Fragments(hello, draw)
  {
    var n := SplitLen(|hello|, draw);
    hello[..3] + Put16(n - 5) + hello[5..n]
  }

  function Rest(hello: seq<byte>, draw: nat): (r: seq<byte>)
    requires Fragments(hello, draw)
    ensures |r| == |hello| - (SplitLen(|hello|, draw) - 5)
  {
    var n := SplitLen(|hello|, draw);
    hello[..3] + Put16(HelloRecordLen(hello).len - (n - 5)) + hello[n..]
  }

  function Second(hello: seq<byte>, draw: nat, cap: nat): seq<byte>
    requires Fragments(hello, draw)
  {
    var r := Rest(hello, draw);
    if |r| <= cap then r else r[..cap]
  }

  function Needed(hello: seq<byte>, draw: nat): nat
    requires Fragments(hello, draw)
  {
    |hello| - (SplitLen(|hello|, draw) - 5)
  }

  /** What both the original record and its first fragment deliver before the cut. */
  lemma FirstFragment(hello: seq<byte>, draw: nat)
    requires Fragments(hello, draw)
    ensures var n := SplitLen(|hello|, draw);
            MeaningOf(First(hello, draw)) == Meaning(Tagged(hello[0], hello[1], hello[2], hello[5..n]), Header([]))
  {
    var n := SplitLen(|hello|, draw);
    var h := hello[..3] + Put16(n - 5);
    var start := Meaning([], Header([]));
    ReadHeader([], h);
    ReadJoin(start, h, hello[5..n]);
    ReadBody([], hello[0], hello[1], hello[2], n - 5, hello[5..n]);
    assert [] + Tagged(hello[0], hello[1], hello[2], hello[5..n]) == Tagged(hello[0], hello[1], hello[2], hello[5..n]);
  }

  lemma WholeUpTo(hello: seq<byte>, draw: nat)
    requires Fragments(hello, draw)
    ensures var n, len := SplitLen(|hello|, draw), HelloRecordLen(hello).len;
            MeaningOf(hello[..n]) == Meaning(Tagged(hello[0], hello[1], hello[2], hello[5..n]),
                                             Body(hello[0], hello[1], hello[2], len - (n - 5)))
  {
    var n, len := SplitLen(|hello|, draw), HelloRecordLen(hello).len;
    var start := Meaning([], Header([]));
    ReadHeader([], hello[..5]);
    ReadJoin(start, hello[..5], hello[5..n]);
    assert hello[..5] + hello[5..n] == hello[..n];
    ReadBody([], hello[0], hello[1], hello[2], len, hello[5..n]);
    assert [] + Tagged(hello[0], hello[1], hello[2], hello[5..n]) == Tagged(hello[0], hello[1], hello[2], hello[5..n]);
  }

  /** After the second header both streams are at the same place inside the same record. */
  lemma SecondHeader(hello: seq<byte>, draw: nat)
    requires Fragments(hello, draw)
    ensures var n := SplitLen(|hello|, draw);
            MeaningOf(First(hello, draw) + Rest(hello, draw)[..5]) == MeaningOf(hello[..n])
  {
    var n := SplitLen(|hello|, draw);
    var h := Rest(hello, draw)[..5];
    FirstFragment(hello, draw);
    WholeUpTo(hello, draw);
    ReadJoin(Meaning([], Header([])), First(hello, draw), h);
    ReadHeader(Tagged(hello[0], hello[1], hello[2], hello[5..n]), h);
    assert h == hello[..3] + Put16(HelloRecordLen(hello).len - (n - 5));
  }

  /** With the second record cut to `k` bytes after its header, the pair means that much of the hello. */
  lemma PairMeans(hello: seq<byte>, draw: nat, k: nat, later: seq<byte>)
    requires Fragments(hello, draw) && k <= |hello| - SplitLen(|hello|, draw)
    ensures var n := SplitLen(|hello|, draw);
            MeaningOf(First(hello, draw) + Rest(hello, draw)[..5 + k] + later) == MeaningOf(hello[..n + k] + later)
  {
    var n := SplitLen(|hello|, draw);
    var f, rest, start := First(hello, draw), Rest(hello, draw), Meaning([], Header([]));
    var tail := hello[n..n + k] + later;
    SecondHeader(hello, draw);
    PairCut(f, rest, hello[n..], k, later);
    assert hello[n..][..k] == hello[n..n + k];
    assert hello[..n + k] + later == hello[..n] + tail;
    ReadJoin(start, f + rest[..5], tail);
    ReadJoin(start, hello[..n], tail);
  }

  lemma PairCut(f: seq<byte>, rest: seq<byte>, body: seq<byte>, k: nat, later: seq<byte>)
    requires |rest| >= 5 && rest[5..] == body && k <= |body|
    ensures f + rest[..5 + k] + later == (f + rest[..5]) + (body[..k] + later)
  {
    assert rest[..5 + k] == rest[..5] + body[..k];
  }

  /** Fragmenting keeps the meaning of the stream, whatever follows, when the scratch buffer is large enough. */
  lemma FragmentsMean(hello: seq<byte>, draw: nat, cap: nat, later: seq<byte>)
    requires Fragments(hello, draw) && cap >= Needed(hello, draw)
    ensures MeaningOf(First(hello, draw) + Second(hello, draw, cap) + later) == MeaningOf(hello + later)
  {
    var k := |hello| - SplitLen(|hello|, draw);
    SecondIsRest(hello, draw, cap);
    AllOf(Rest(hello, draw), 5 + k);
    AllOf(hello, SplitLen(|hello|, draw) + k);
    PairMeansAs(hello, draw, k, later, Second(hello, draw, cap), hello);
  }

  lemma PairMeansAs(hello: seq<byte>, draw: nat, k: nat, later: seq<byte>, second: seq<byte>, whole: seq<byte>)
    requires Fragments(hello, draw) && k <= |hello| - SplitLen(|hello|, draw)
    requires second == Rest(hello, draw)[..5 + k] && whole == hello[..SplitLen(|hello|, draw) + k]
    ensures MeaningOf(First(hello, draw) + second + later) == MeaningOf(whole + later)
  {
    PairMeans(hello, draw, k, later);
  }

  lemma SecondIsRest(hello: seq<byte>, draw: nat, cap: nat)
    requires Fragments(hello, draw) && cap >= Needed(hello, draw)
    ensures Second(hello, draw, cap) == Rest(hello, draw)
  {
  }

  lemma AllOf(s: seq<byte>, n: nat)
    requires n == |s|
    ensures s[..n] == s
  {
  }

  /** A second record cut short makes the pair mean a shorter hello, which is another meaning. */
  lemma CutDiffers(hello: seq<byte>, draw: nat, cap: nat)
    requires Fragments(hello, draw) && 5 <= cap < Needed(hello, draw)
    ensures MeaningOf(First(hello, draw) + Rest(hello, draw)[..cap]) != MeaningOf(hello)
  {
    var f, k := First(hello, draw), SplitLen(|hello|, draw) + (cap - 5);
    PairMeans(hello, draw, cap - 5, []);
    assert f + Rest(hello, draw)[..cap] + [] == f + Rest(hello, draw)[..cap] && hello[..k] + [] == hello[..k];
    ShorterDiffers(hello[..k], hello[k..]);
    assert hello[..k] + hello[k..] == hello;
  }

  /** The exact capacity the splitter needs of its scratch buffer. */
  lemma MeaningKeptIff(hello: seq<byte>, draw: nat, cap: nat)
    requires Fragments(hello, draw) && cap >= SplitLen(|hello|, draw)
    ensures MeaningOf(First(hello, draw) + Second(hello, draw, cap)) == MeaningOf(hello) <==> cap >= Needed(hello, draw)
  {
    if cap >= Needed(hello, draw) {
      var f, s := First(hello, draw), Second(hello, draw, cap);
      FragmentsMean(hello, draw, cap, []);
      assert f + s + [] == f + s && hello + [] == hello;
    } else {
      CutDiffers(hello, draw, cap);
    }
  }

  /** Both records carry something, under the original type and version, and their lengths add up. */
  lemma FragmentHeaders(hello: seq<byte>, draw: nat, cap: nat)
    requires Fragments(hello, draw) && cap >= Needed(hello, draw)
    ensures var f, s := First(hello, draw), Second(hello, draw, cap);
            && f[..3] == s[..3] == hello[..3]
            && HelloRecordLen(f).Len? && HelloRecordLen(s).Len?
            && HelloRecordLen(f).len >= 1 && HelloRecordLen(s).len >= 1
            && HelloRecordLen(f).len + HelloRecordLen(s).len == HelloRecordLen(hello).len
            && |f| == 5 + HelloRecordLen(f).len
  {
  }

  // ---- Plain splitting -------------------------------------------------------------------------

  /** Where plain splitting cuts, for a random draw in [0, 32]. */
  function Cut(len: nat, draw: nat): (k: nat)
    ensures k <= len
  {
    if len == 0 then 0 else Min(32 + draw, len / 2)
  }

  /** The bytes handed to the connection when nothing fails. */
  function Sent(hello: seq<byte>, draw: nat, draw2: nat, cap: nat): seq<byte> {
    if |hello| <= 1 then hello
    else if Fragments(hello, draw) then First(hello, draw) + Second(hello, draw, cap)
    else hello[..Cut(|hello|, draw2)] + hello[Cut(|hello|, draw2)..]
  }

  /** Whatever the draws, the peer reads the hello. */
  lemma SentMeans(hello: seq<byte>, draw: nat, draw2: nat, cap: nat, later: seq<byte>)
    requires Fragments(hello, draw) ==> cap >= Needed(hello, draw)
    ensures MeaningOf(Sent(hello, draw, draw2, cap) + later) == MeaningOf(hello + later)
    ensures !Fragments(hello, draw) ==> Sent(hello, draw, draw2, cap) == hello
  {
    if |hello| > 1 && Fragments(hello, draw) {
      FragmentsMean(hello, draw, cap, later);
    } else if |hello| > 1 {
      assert hello[..Cut(|hello|, draw2)] + hello[Cut(|hello|, draw2)..] == hello;
    }
  }
}
