/** The record layer of TLS (section 5.1 of RFC 8446): what a byte stream means once records are taken apart. */
module TlsRecords {
  import opened Common

  function Be16(hi: byte, lo: byte): (v: nat)
    ensures v < 65536
  {
    256 * hi + lo
  }

  function Put16(v: nat): (r: seq<byte>)
    requires v < 65536
    ensures |r| == 2 && Be16(r[0], r[1]) == v
  {
    [v / 256, v % 256]
  }

  /** One delivered byte under its record's type and version, or a record that carries none. */
  datatype Item = Payload(kind: byte, major: byte, minor: byte, b: byte) | Empty(kind: byte, major: byte, minor: byte)

  /** Collecting a record header, or inside a record with `left` bytes to come. */
  datatype Mode = Header(got: seq<byte>) | Body(kind: byte, major: byte, minor: byte, left: nat)

  /** What a stream has delivered so far, and where it stopped. */
  datatype Meaning = Meaning(items: seq<Item>, mode: Mode)

  function HeaderDone(items: seq<Item>, h: seq<byte>): Meaning
    requires |h| == 5
  {
    var n := Be16(h[3], h[4]);
    if n == 0 then Meaning(items + [Empty(h[0], h[1], h[2])], Header([]))
    else Meaning(items, Body(h[0], h[1], h[2], n))
  }

  function Step(m: Meaning, b: byte): Meaning {
    match m.mode
    case Header(got) =>
      if |got| + 1 == 5 then HeaderDone(m.items, got + [b]) else m.(mode := Header(got + [b]))
    case Body(k, v1, v2, left) =>
      Meaning(m.items + [Payload(k, v1, v2, b)], if left <= 1 then Header([]) else Body(k, v1, v2, left - 1))
  }

  function Read(m: Meaning, bs: seq<byte>): Meaning {
    if bs == [] then m else Step(Read(m, bs[..|bs| - 1]), bs[|bs| - 1])
  }

  function MeaningOf(stream: seq<byte>): Meaning {
    Read(Meaning([], Header([])), stream)
  }

  lemma {:induction false} ReadJoin(m: Meaning, a: seq<byte>, b: seq<byte>)
    ensures Read(m, a + b) == Read(Read(m, a), b)
  {
    if b == [] {
      assert a + b == a;
    } else {
      ReadJoin(m, a, b[..|b| - 1]);
      assert (a + b)[..|a + b| - 1] == a + b[..|b| - 1];
    }
  }

  function Tagged(k: byte, v1: byte, v2: byte, bs: seq<byte>): (r: seq<Item>)
    ensures |r| == |bs|
  {
    seq(|bs|, i requires 0 <= i < |bs| => Payload(k, v1, v2, bs[i]))
  }

  /** Bytes inside a record are delivered under its header, and the record ends when they run out. */
  lemma {:induction false} ReadBody(items: seq<Item>, k: byte, v1: byte, v2: byte, left: nat, bs: seq<byte>)
    requires 0 < left && |bs| <= left
    ensures Read(Meaning(items, Body(k, v1, v2, left)), bs) ==
            Meaning(items + Tagged(k, v1, v2, bs),
                    if |bs| == left then Header([]) else Body(k, v1, v2, left - |bs|))
  {
    if bs == [] {
      assert items + Tagged(k, v1, v2, bs) == items;
    } else {
      var init := bs[..|bs| - 1];
      ReadBody(items, k, v1, v2, left, init);
      assert items + Tagged(k, v1, v2, init) + [Payload(k, v1, v2, bs[|bs| - 1])] == items + Tagged(k, v1, v2, bs);
    }
  }

  lemma ReadHeader(items: seq<Item>, h: seq<byte>)
    requires |h| == 5
    ensures Read(Meaning(items, Header([])), h) == HeaderDone(items, h)
  {
    var m := Meaning(items, Header([]));
    ReadPart(items, h, 4);
    assert h[..4] + [h[4]] == h;
  }

  lemma ReadNext(m: Meaning, bs: seq<byte>, b: byte, all: seq<byte>)
    requires all == bs + [b]
    ensures Read(m, all) == Step(Read(m, bs), b)
  {
    assert all[..|all| - 1] == bs;
  }

  lemma {:induction false} ReadPart(items: seq<Item>, h: seq<byte>, i: nat)
    requires i <= 4 && i <= |h|
    ensures Read(Meaning(items, Header([])), h[..i]) == Meaning(items, Header(h[..i]))
  {
    if i > 0 {
      ReadPart(items, h, i - 1);
      assert h[..i - 1] + [h[i - 1]] == h[..i];
      ReadNext(Meaning(items, Header([])), h[..i - 1], h[i - 1], h[..i]);
    }
  }

  // ---- A stream always gets somewhere ----------------------------------------------------------

  predicate Sane(m: Meaning) {
    match m.mode
    case Header(got) => |got| < 5
    case Body(_, _, _, left) => left > 0
  }

  /** Grows with every byte: delivered items first, then how far the header has got. */
  function Progress(m: Meaning): nat {
    6 * |m.items| + match m.mode case Header(got) => |got| case Body(_, _, _, _) => 5
  }

  lemma StepProgress(m: Meaning, b: byte)
    requires Sane(m)
    ensures Sane(Step(m, b)) && Progress(Step(m, b)) > Progress(m)
  {
  }

  lemma {:induction false} ReadProgress(m: Meaning, bs: seq<byte>)
    requires Sane(m)
    ensures Sane(Read(m, bs)) && Progress(Read(m, bs)) >= Progress(m) + |bs|
  {
    if bs != [] {
      ReadProgress(m, bs[..|bs| - 1]);
      StepProgress(Read(m, bs[..|bs| - 1]), bs[|bs| - 1]);
    }
  }

  /** Leaving bytes off the end of a stream always changes what it means. */
  lemma ShorterDiffers(a: seq<byte>, b: seq<byte>)
    requires b != []
    ensures MeaningOf(a) != MeaningOf(a + b)
  {
    var m := Meaning([], Header([]));
    ReadJoin(m, a, b);
    ReadProgress(m, a);
    ReadProgress(Read(m, a), b);
  }
}
