/** Stamps as bytes and as text: little-endian words, then base64url after "1:" or lower-case base32 after "1-". */
module StampText {
  import opened Common
  import opened Stamp
  import opened StampCodec

  // ---- Bytes -----------------------------------------------------------------------------------

  function Low(w: bv16): bv8 {
    (w & 0xff) as bv8
  }

  function High(w: bv16): bv8 {
    (w >> 8) as bv8
  }

  function Join(lo: bv8, hi: bv8): bv16 {
    (lo as bv16) | ((hi as bv16) << 8)
  }

  lemma JoinSplit(w: bv16)
    ensures Join(Low(w), High(w)) == w
  {
  }

  lemma SplitJoin(lo: bv8, hi: bv8)
    ensures Low(Join(lo, hi)) == lo && High(Join(lo, hi)) == hi
  {
  }

  function ToBytes(ws: seq<bv16>): (r: seq<bv8>)
    ensures |r| == 2 * |ws|
  {
    if ws == [] then [] else ToBytes(ws[..|ws| - 1]) + [Low(ws[|ws| - 1]), High(ws[|ws| - 1])]
  }

  /** A trailing odd byte is dropped. */
  function ToWords(bs: seq<bv8>): (r: seq<bv16>)
    ensures |r| == |bs| / 2
  {
    if |bs| < 2 then []
    else if |bs| % 2 == 1 then ToWords(bs[..|bs| - 1])
    else ToWords(bs[..|bs| - 2]) + [Join(bs[|bs| - 2], bs[|bs| - 1])]
  }

  lemma WordsSnoc(bs: seq<bv8>, lo: bv8, hi: bv8, all: seq<bv8>)
    requires |bs| % 2 == 0 && all == bs + [lo, hi]
    ensures ToWords(all) == ToWords(bs) + [Join(lo, hi)]
  {
    assert all[..|all| - 2] == bs;
  }

  lemma BytesSnoc(ws: seq<bv16>, w: bv16, all: seq<bv16>)
    requires all == ws + [w]
    ensures ToBytes(all) == ToBytes(ws) + [Low(w), High(w)]
  {
    assert all[..|all| - 1] == ws;
  }

  lemma WordBack(bs: seq<bv8>, w: bv16, all: seq<bv8>)
    requires |bs| % 2 == 0 && all == bs + [Low(w), High(w)]
    ensures ToWords(all) == ToWords(bs) + [w]
  {
    WordsSnoc(bs, Low(w), High(w), all);
    JoinSplit(w);
  }

  lemma BytesBack(ws: seq<bv16>, lo: bv8, hi: bv8, all: seq<bv16>)
    requires all == ws + [Join(lo, hi)]
    ensures ToBytes(all) == ToBytes(ws) + [lo, hi]
  {
    BytesSnoc(ws, Join(lo, hi), all);
    SplitJoin(lo, hi);
  }

  lemma OneWordBack(init: seq<bv16>, w: bv16, ws: seq<bv16>, before: seq<bv8>, bs: seq<bv8>)
    requires ws == init + [w] && before == ToBytes(init) && ToWords(before) == init && bs == ToBytes(ws)
    ensures ToWords(bs) == ws
  {
    BytesSnoc(init, w, ws);
    WordBack(before, w, bs);
  }

  lemma {:induction false} WordsBack(ws: seq<bv16>, bs: seq<bv8>)
    requires bs == ToBytes(ws)
    ensures ToWords(bs) == ws
  {
    if ws != [] {
      var init, w := ws[..|ws| - 1], ws[|ws| - 1];
      var before := ToBytes(init);
      WordsBack(init, before);
      OneWordBack(init, w, ws, before, bs);
    }
  }

  lemma WordsOfBytes(ws: seq<bv16>)
    ensures ToWords(ToBytes(ws)) == ws
  {
    WordsBack(ws, ToBytes(ws));
  }

  lemma TwoBytesBack(init: seq<bv8>, lo: bv8, hi: bv8, bs: seq<bv8>, before: seq<bv16>, ws: seq<bv16>)
    requires bs == init + [lo, hi] && |init| % 2 == 0
    requires before == ToWords(init) && ToBytes(before) == init && ws == ToWords(bs)
    ensures ToBytes(ws) == bs
  {
    WordsSnoc(init, lo, hi, bs);
    BytesBack(before, lo, hi, ws);
  }

  lemma EvenSplit(bs: seq<bv8>)
    requires |bs| % 2 == 0 && bs != []
    ensures |bs| >= 2 && bs == bs[..|bs| - 2] + [bs[|bs| - 2], bs[|bs| - 1]] && |bs[..|bs| - 2]| % 2 == 0
  {
  }

  lemma {:induction false} BytesAllBack(bs: seq<bv8>, ws: seq<bv16>)
    requires |bs| % 2 == 0 && ws == ToWords(bs)
    ensures ToBytes(ws) == bs
  {
    if bs != [] {
      var init, lo, hi := bs[..|bs| - 2], bs[|bs| - 2], bs[|bs| - 1];
      var before := ToWords(init);
      BytesAllBack(init, before);
      EvenSplit(bs);
      TwoBytesBack(init, lo, hi, bs, before, ws);
    }
  }

  lemma BytesOfWords(bs: seq<bv8>)
    requires |bs| % 2 == 0
    ensures ToBytes(ToWords(bs)) == bs
  {
    BytesAllBack(bs, ToWords(bs));
  }

  method Uint16ToByte(ws: seq<bv16>) returns (bytes: seq<bv8>)
    ensures bytes == ToBytes(ws)
  {
    bytes := [];
    var i := 0;
    while i < |ws|
      invariant i <= |ws| && bytes == ToBytes(ws[..i])
    {
      assert ws[..i + 1][..i] == ws[..i];
      bytes := bytes + [Low(ws[i]), High(ws[i])];
      i := i + 1;
    }
    assert ws[..i] == ws;
  }

  method ByteToUint16(b: seq<bv8>) returns (data: seq<bv16>)
    ensures data == ToWords(b)
  {
    data := [];
    var i := 0;
    while i < |b| / 2
      invariant i <= |b| / 2 && data == ToWords(b[..2 * i])
    {
      assert b[..2 * (i + 1)][..2 * i] == b[..2 * i];
      data := data + [Join(b[2 * i], b[2 * i + 1])];
      i := i + 1;
    }
    assert b[..2 * i] == if |b| % 2 == 1 then b[..|b| - 1] else b;
  }

  // ---- Text ------------------------------------------------------------------------------------

  /** The text codecs of the standard library. Version 0 stamps have their own: URL-escaped text, standard
      base64 or base32, and words that are the decoded text's runes. */
  datatype Codecs = Codecs(
    enc64: seq<bv8> -> string, dec64: string -> Option<seq<bv8>>,
    enc32: seq<bv8> -> string, dec32: string -> Option<seq<bv8>>,
    dec0: (string, bool) -> Option<seq<bv8>>, runes: seq<bv8> -> seq<bv16>)

  predicate Base32Char(c: char) {
    'A' <= c <= 'Z' || '2' <= c <= '7'
  }

  /** Decoding undoes encoding; base64url never uses a colon, base32 only capitals and 2 to 7. */
  ghost predicate Faithful(c: Codecs) {
    && (forall b :: c.dec64(c.enc64(b)) == Some(b))
    && (forall b :: c.dec32(c.enc32(b)) == Some(b))
    && (forall b :: ':' !in c.enc64(b))
    && (forall b :: forall x :: x in c.enc32(b) ==> Base32Char(x))
    && (forall b :: c.runes(b) == [] <==> b == [])
  }

  function LowerChar(c: char): char {
    if 'A' <= c <= 'Z' then (c as int + 32) as char else c
  }

  function UpperChar(c: char): char {
    if 'a' <= c <= 'z' then (c as int - 32) as char else c
  }

  function Lower(s: string): (r: string)
    ensures |r| == |s|
  {
    seq(|s|, i requires 0 <= i < |s| => LowerChar(s[i]))
  }

  function Upper(s: string): (r: string)
    ensures |r| == |s|
  {
    seq(|s|, i requires 0 <= i < |s| => UpperChar(s[i]))
  }

  /** Base32 text survives being lowered, and then holds neither separator. */
  lemma LoweredBase32(s: string)
    requires forall x :: x in s ==> Base32Char(x)
    ensures Upper(Lower(s)) == s
    ensures ':' !in Lower(s) && '-' !in Lower(s)
  {
    assert forall i :: 0 <= i < |s| ==> Base32Char(s[i]);
  }

  /** The first index of a character, or -1. */
  function IndexOf(s: string, c: char): (k: int)
    ensures k == -1 <==> c !in s
    ensures k >= 0 ==> k < |s| && s[k] == c && c !in s[..k]
    ensures k >= -1
  {
    if s == [] then -1
    else if s[0] == c then 0
    else
      var k := IndexOf(s[1..], c);
      assert s == [s[0]] + s[1..];
      if k < 0 then -1 else
        assert s[..k + 1] == [s[0]] + s[1..][..k];
        k + 1
  }

  /** The piece after the first separator, up to the next one. */
  function SecondPiece(s: string, k: int, sep: char): string
    requires 0 <= k < |s|
  {
    var rest := s[k + 1..];
    var e := IndexOf(rest, sep);
    if e < 0 then rest else rest[..e]
  }

  function Encode(c: Codecs, ver: string, ws: seq<bv16>, b32: bool): Option<string> {
    if ver != "1" then None
    else if b32 then Some(ver + "-" + Lower(c.enc32(ToBytes(ws))))
    else Some(ver + ":" + c.enc64(ToBytes(ws)))
  }

  datatype Decoded = NoStamp | Unsupported | BadText | Read(words: seq<bv16>)

  /** The bytes a stamp's payload decodes to. */
  function PayloadBytes(c: Codecs, text: string, ver: string, b32: bool): Option<seq<bv8>> {
    if ver == "0" then c.dec0(text, b32) else if b32 then c.dec32(Upper(text)) else c.dec64(text)
  }

  function Decode(c: Codecs, text: string, ver: string, b32: bool): Decoded {
    if ver != "0" && ver != "1" then Unsupported
    else
      match PayloadBytes(c, text, ver, b32)
      case None => BadText
      case Some(buf) => Read(if ver == "0" then c.runes(buf) else ToWords(buf))
  }

  /** A stamp is base32 when a hyphen comes first. */
  predicate IsBase32(stamp: string) {
    var colon, hyphen := IndexOf(stamp, ':'), IndexOf(stamp, '-');
    hyphen >= 0 && (hyphen < colon || colon < 0)
  }

  function Separator(stamp: string): char {
    if IsBase32(stamp) then '-' else ':'
  }

  /** What comes before the separator, 0 without one. */
  function Version(stamp: string): string {
    var k := IndexOf(stamp, Separator(stamp));
    if k >= 0 then stamp[..k] else "0"
  }

  function Payload(stamp: string): string {
    var k := IndexOf(stamp, Separator(stamp));
    if k >= 0 then SecondPiece(stamp, k, Separator(stamp)) else stamp
  }

  /** Tells the encoding from the first separator, then decodes. */
  function ReadStamp(c: Codecs, stamp: string): Decoded {
    if stamp == "" then NoStamp else Decode(c, Payload(stamp), Version(stamp), IsBase32(stamp))
  }

  lemma {:induction false} FirstIndex(s: string, c: char, k: nat)
    requires k < |s| && s[k] == c && c !in s[..k]
    ensures IndexOf(s, c) == k
  {
    if k > 0 {
      assert s[0] == s[..k][0] && s[1..][..k - 1] == s[..k][1..];
      FirstIndex(s[1..], c, k - 1);
    }
  }

  lemma Reads64(c: Codecs, ws: seq<bv16>, body: string)
    requires Faithful(c) && body == c.enc64(ToBytes(ws))
    ensures ReadStamp(c, "1:" + body) == Read(ws)
  {
    var s := "1:" + body;
    FirstIndex(s, ':', 1);
    assert '-' !in s[..2];
    var h := IndexOf(s, '-');
    assert h >= 0 ==> s[h] == '-';
    assert s[2..] == body && s[..1] == "1";
    assert !IsBase32(s) && Version(s) == "1" && Payload(s) == body;
    WordsOfBytes(ws);
    assert c.dec64(body) == Some(ToBytes(ws));
  }

  lemma Reads32(c: Codecs, ws: seq<bv16>, body: string)
    requires Faithful(c) && body == Lower(c.enc32(ToBytes(ws)))
    ensures ReadStamp(c, "1-" + body) == Read(ws)
  {
    var s := "1-" + body;
    LoweredBase32(c.enc32(ToBytes(ws)));
    FirstIndex(s, '-', 1);
    assert ':' !in s;
    assert s[2..] == body && s[..1] == "1";
    assert IsBase32(s) && Version(s) == "1" && Payload(s) == body;
    WordsOfBytes(ws);
    assert c.dec32(c.enc32(ToBytes(ws))) == Some(ToBytes(ws));
  }

  lemma EncodedIs(c: Codecs, ws: seq<bv16>, b32: bool)
    ensures Encode(c, "1", ws, b32) ==
            Some(if b32 then "1-" + Lower(c.enc32(ToBytes(ws))) else "1:" + c.enc64(ToBytes(ws)))
  {
    assert "1" + "-" == "1-" && "1" + ":" == "1:";
  }

  /** Encoded text is read back under its own encoding, although base64url may contain a hyphen. */
  lemma TextRoundTrip(c: Codecs, ws: seq<bv16>, b32: bool)
    requires Faithful(c)
    ensures Encode(c, "1", ws, b32).Some? && ReadStamp(c, Encode(c, "1", ws, b32).value) == Read(ws)
  {
    EncodedIs(c, ws, b32);
    if b32 {
      Reads32(c, ws, Lower(c.enc32(ToBytes(ws))));
    } else {
      Reads64(c, ws, c.enc64(ToBytes(ws)));
    }
  }

  /** From ids to text and back: the distinct ids below `n`, in ascending order, in either encoding. */
  lemma StampRoundTrip(c: Codecs, ws: seq<bv16>, s: set<nat>, b32: bool, n: nat)
    requires Faithful(c) && Stamped(RowsOf(ws), s) && forall x :: x in s ==> x < 256
    ensures Encode(c, "1", ws, b32).Some?
    ensures var d := ReadStamp(c, Encode(c, "1", ws, b32).value);
            d.Read? && var r := Unpack(RowsOf(d.words), n);
            r.Ids? && Ascending(r.ids) && forall x :: x in r.ids <==> x in s && x < n
  {
    TextRoundTrip(c, ws, b32);
    RoundTrip(RowsOf(ws), s, n);
  }

  // ---- Stamps without a header -------------------------------------------------------------------

  /** Reading the stamp goes on to the first of no words. */
  predicate ReadsPastEnd(c: Codecs, stamp: string, n: nat) {
    var d := ReadStamp(c, stamp);
    d.Read? && Unpack(RowsOf(d.words), n) == OutOfRange
  }

  lemma NoRowsIff(ws: seq<bv16>, n: nat)
    ensures Unpack(RowsOf(ws), n) == OutOfRange <==> ws == []
  {
    assert |RowsOf(ws)| == |ws|;
  }

  /** For any text, reading runs past the end if and only if the payload of version 1 decodes to fewer than two
      bytes, or that of version 0 to none. */
  lemma PastEndIff(c: Codecs, stamp: string, n: nat)
    requires Faithful(c)
    ensures ReadsPastEnd(c, stamp, n) <==>
            && stamp != "" && Version(stamp) in {"0", "1"}
            && var buf := PayloadBytes(c, Payload(stamp), Version(stamp), IsBase32(stamp));
               buf.Some? && |buf.value| < if Version(stamp) == "1" then 2 else 1
  {
    var d := ReadStamp(c, stamp);
    if d.Read? {
      NoRowsIff(d.words, n);
      var buf := PayloadBytes(c, Payload(stamp), Version(stamp), IsBase32(stamp)).value;
      assert c.runes(buf) == [] <==> buf == [];
    }
  }

  /** The encoder's own text for no words at all does so, in either encoding. */
  lemma EmptyStampPastEnd(c: Codecs, b32: bool, n: nat)
    requires Faithful(c)
    ensures Encode(c, "1", [], b32).Some? && ReadsPastEnd(c, Encode(c, "1", [], b32).value, n)
  {
    TextRoundTrip(c, [], b32);
    NoRowsIff([], n);
  }

  /** A packed stamp never does: even no ids make a header. */
  lemma StampHasHeader(c: Codecs, ws: seq<bv16>, s: set<nat>, b32: bool, n: nat)
    requires Faithful(c) && Stamped(RowsOf(ws), s)
    ensures Encode(c, "1", ws, b32).Some? && !ReadsPastEnd(c, Encode(c, "1", ws, b32).value, n)
  {
    TextRoundTrip(c, ws, b32);
    NoRowsIff(ws, n);
  }
}
