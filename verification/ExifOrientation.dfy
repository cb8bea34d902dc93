/** Reading the orientation out of saved JPEG markers: what each read depends on, byte by byte. */
module ExifOrientationSpec {
  import opened Common

  type U16 = x: int | 0 <= x < 0x1_0000
  type U32 = x: int | 0 <= x < UINT_MODULUS

  datatype Order = Intel | Motorola

  /** A marker as libjpeg saves it: at most `MARKER_LIMIT` bytes of data. */
  datatype Marker = Marker(code: nat, data: seq<Byte>)

  const EXIF_JPEG_MARKER: nat := 0xE1
  const MARKER_LIMIT: nat := 0xffff
  const EXIF_IDENT: seq<Byte> := [0x45, 0x78, 0x69, 0x66, 0, 0]
  const ORIENTATION_TAG: U16 := 0x112

  /** The answer of the reader, or that a read left the marker's data. */
  datatype Result = Orientation(value: nat) | OutOfBounds

  function Header(order: Order): seq<Byte> {
    if order == Intel then [0x49, 0x49, 0x2a, 0] else [0x4d, 0x4d, 0, 0x2a]
  }

  // ---------------------------------------------------------------- fixed-width numbers

  function E16(x: U16, order: Order): (s: seq<Byte>)
    ensures |s| == 2
  {
    if order == Intel then [x % 0x100, x / 0x100] else [x / 0x100, x % 0x100]
  }

  function D16(s: seq<Byte>, order: Order): (x: nat)
    requires |s| == 2
    ensures x < 0x1_0000
  {
    var a: int, b: int := s[0], s[1];
    if order == Intel then a + 0x100 * b else b + 0x100 * a
  }

  function E32(x: U32, order: Order): (s: seq<Byte>)
    ensures |s| == 4
  {
    if order == Intel then E16(x % 0x1_0000, order) + E16(x / 0x1_0000, order)
    else E16(x / 0x1_0000, order) + E16(x % 0x1_0000, order)
  }

  function D32(s: seq<Byte>, order: Order): (x: nat)
    requires |s| == 4
    ensures x < UINT_MODULUS
  {
    if order == Intel then D16(s[..2], order) + 0x1_0000 * D16(s[2..], order)
    else D16(s[2..], order) + 0x1_0000 * D16(s[..2], order)
  }

  lemma Decode16(x: U16, order: Order)
    ensures D16(E16(x, order), order) == x
  {}

  lemma Decode32(x: U32, order: Order)
    ensures D32(E32(x, order), order) == x
  {
    var s := E32(x, order);
    var lo, hi := E16(x % 0x1_0000, order), E16(x / 0x1_0000, order);
    Decode16(x % 0x1_0000, order);
    Decode16(x / 0x1_0000, order);
    if order == Intel {
      assert s[..2] == lo && s[2..] == hi;
    } else {
      assert s[..2] == hi && s[2..] == lo;
    }
  }

  lemma Encode16Injective(x: U16, y: U16, order: Order)
    ensures E16(x, order) == E16(y, order) <==> x == y
  {
    Decode16(x, order);
    Decode16(y, order);
  }

  // ---------------------------------------------------------------- the reader, as a function

  /** The data of the last APP1 marker that starts with the Exif identifier. */
  datatype Search = Missing | Overrun | Found(data: seq<Byte>)

  function FindExif(markers: seq<Marker>): Search {
    if markers == [] then Missing
    else
      var before, m := FindExif(markers[..|markers| - 1]), markers[|markers| - 1];
      if before.Overrun? then Overrun
      else if m.code != EXIF_JPEG_MARKER then before
      else if |m.data| < 6 then Overrun
      else if m.data[..6] == EXIF_IDENT then Found(m.data)
      else before
  }

  predicate HeaderAt(data: seq<Byte>, i: nat)
    requires i + 4 <= |data|
  {
    data[i..i + 4] == Header(Intel) || data[i..i + 4] == Header(Motorola)
  }

  function OrderAt(data: seq<Byte>, i: nat): Order
    requires i + 4 <= |data|
  {
    if data[i..i + 4] == Header(Intel) then Intel else Motorola
  }

  /** The first byte order header at or after i, within the first sixteen positions; 16 if none. */
  function FindTiff(data: seq<Byte>, i: nat): (r: nat)
    requires |data| >= 32 && i <= 16
    ensures i <= r <= 16
    decreases 16 - i
  {
    if i == 16 then 16
    else if HeaderAt(data, i) then i
    else FindTiff(data, i + 1)
  }

  /** Scans `tags` twelve-byte entries from i. */
  function Scan(data: seq<Byte>, i: nat, tags: nat, order: Order): Result
    decreases tags
  {
    if tags == 0 then Orientation(0)
    else if i + 8 > |data| then OutOfBounds
    else if data[i..i + 2] == E16(ORIENTATION_TAG, order) then
      if D16(data[i + 2..i + 4], order) != 3 || D32(data[i + 4..i + 8], order) != 1 then Orientation(0)
      else if i + 10 > |data| then OutOfBounds
      else
        var ret := D16(data[i + 8..i + 10], order);
        Orientation(if ret <= 8 then ret else 0)
    else Scan(data, i + 12, tags - 1, order)
  }

  /** Where IFD0 should start, in 32-bit arithmetic. */
  function IfdAt(data: seq<Byte>, tiff: nat, order: Order): (i: nat)
    requires tiff + 8 <= |data|
    ensures i < UINT_MODULUS
  {
    (tiff + D32(data[tiff + 4..tiff + 8], order)) % UINT_MODULUS
  }

  function ReadIfd(data: seq<Byte>, i: nat, order: Order): Result {
    if (i + 2) % UINT_MODULUS > |data| then Orientation(0)
    else if i + 2 > |data| then OutOfBounds
    else
      var tags := D16(data[i..i + 2], order);
      if (i + 2 + tags * 12) % UINT_MODULUS > |data| then Orientation(0)
      else Scan(data, i + 2, tags, order)
  }

  function ReadExif(data: seq<Byte>): Result {
    if |data| < 32 then Orientation(0)
    else
      var tiff := FindTiff(data, 0);
      if tiff == 0 || tiff == 16 then Orientation(0)
      else
        var order := OrderAt(data, tiff);
        ReadIfd(data, IfdAt(data, tiff, order), order)
  }

  function GetOrientation(markers: seq<Marker>): Result {
    match FindExif(markers)
    case Missing => Orientation(0)
    case Overrun => OutOfBounds
    case Found(data) => ReadExif(data)
  }

  // ---------------------------------------------------------------- bounds

  predicate Saved(markers: seq<Marker>) {
    forall m :: m in markers ==> |m.data| <= MARKER_LIMIT
  }

  /** An APP1 marker too short for the identifier it is compared with. */
  predicate ShortApp1(markers: seq<Marker>) {
    exists m :: m in markers && m.code == EXIF_JPEG_MARKER && |m.data| < 6
  }

  /** The IFD0 offset makes the 32-bit index plus two wrap around. */
  predicate IfdIndexWraps(data: seq<Byte>) {
    |data| >= 32 &&
    var tiff := FindTiff(data, 0);
    0 < tiff < 16 && IfdAt(data, tiff, OrderAt(data, tiff)) + 2 >= UINT_MODULUS
  }

  lemma {:induction false} OverrunIsShort(markers: seq<Marker>)
    ensures FindExif(markers).Overrun? <==> ShortApp1(markers)
  {
    if markers != [] {
      var n := |markers| - 1;
      OverrunIsShort(markers[..n]);
      assert markers == markers[..n] + [markers[n]];
    }
  }

  lemma {:induction false} FoundIsSaved(markers: seq<Marker>)
    requires Saved(markers) && FindExif(markers).Found?
    ensures |FindExif(markers).data| <= MARKER_LIMIT
  {
    var n := |markers| - 1;
    assert markers[n] in markers;
    if FindExif(markers[..n]).Found? {
      FoundIsSaved(markers[..n]);
    }
  }

  lemma {:induction false} ScanInBounds(data: seq<Byte>, i: nat, tags: nat, order: Order)
    requires i + tags * 12 <= |data|
    ensures Scan(data, i, tags, order) != OutOfBounds
    decreases tags
  {
    if tags > 0 {
      ScanInBounds(data, i + 12, tags - 1, order);
    }
  }

  lemma SmallWraps(x: nat)
    requires x < UINT_MODULUS
    ensures x % UINT_MODULUS == x
  {}

  /** An IFD that lies inside the data is scanned. */
  lemma IfdScans(data: seq<Byte>, i: nat, order: Order)
    requires i + 2 <= |data| <= MARKER_LIMIT && i + 2 + D16(data[i..i + 2], order) * 12 <= |data|
    ensures ReadIfd(data, i, order) == Scan(data, i + 2, D16(data[i..i + 2], order), order)
  {
    SmallWraps(i + 2);
    SmallWraps(i + 2 + D16(data[i..i + 2], order) * 12);
  }

  lemma IfdInBounds(data: seq<Byte>, i: nat, order: Order)
    requires 32 <= |data| <= MARKER_LIMIT && i < UINT_MODULUS
    ensures ReadIfd(data, i, order) == OutOfBounds <==> i + 2 >= UINT_MODULUS
  {
    if i + 2 <= |data| && i + 2 + D16(data[i..i + 2], order) * 12 <= |data| {
      IfdScans(data, i, order);
      ScanInBounds(data, i + 2, D16(data[i..i + 2], order), order);
    } else if i + 2 <= |data| {
      SmallWraps(i + 2 + D16(data[i..i + 2], order) * 12);
    } else if i + 2 < UINT_MODULUS {
      SmallWraps(i + 2);
    }
  }

  lemma ExifInBounds(data: seq<Byte>)
    requires |data| <= MARKER_LIMIT
    ensures ReadExif(data) == OutOfBounds <==> IfdIndexWraps(data)
  {
    if |data| >= 32 {
      var tiff := FindTiff(data, 0);
      if 0 < tiff < 16 {
        IfdInBounds(data, IfdAt(data, tiff, OrderAt(data, tiff)), OrderAt(data, tiff));
      }
    }
  }

  /** The bounds checks are exact: a read leaves the data if and only if an APP1 marker is shorter than
      the identifier, or the index of IFD0 is within two of the 32-bit limit. */
  lemma OutOfBoundsExactly(markers: seq<Marker>)
    requires Saved(markers)
    ensures GetOrientation(markers) == OutOfBounds <==>
            ShortApp1(markers) || (FindExif(markers).Found? && IfdIndexWraps(FindExif(markers).data))
  {
    OverrunIsShort(markers);
    if FindExif(markers).Found? {
      FoundIsSaved(markers);
      ExifInBounds(FindExif(markers).data);
    }
  }

  /** An empty APP1 marker is compared past its end. */
  lemma EmptyApp1Overruns()
    ensures GetOrientation([Marker(EXIF_JPEG_MARKER, [])]) == OutOfBounds
  {
    var markers := [Marker(EXIF_JPEG_MARKER, [])];
    assert markers[0] in markers;
    OverrunIsShort(markers);
  }

  lemma HeaderLaid(ident: seq<Byte>, header: seq<Byte>, offset: seq<Byte>, rest: seq<Byte>)
    requires |ident| == 6 && |header| == 4 && |offset| == 4
    ensures var p := ident + header + offset + rest; p[..6] == ident && p[6..10] == header && p[10..14] == offset
  {}

  lemma {:induction false} OffsetDecides(data: seq<Byte>, order: Order, offset: U32)
    requires 32 <= |data| <= MARKER_LIMIT && data[..6] == EXIF_IDENT && data[6..10] == Header(order)
    requires data[10..14] == E32(offset, order)
    ensures ReadExif(data) == OutOfBounds <==> UINT_MODULUS - 2 <= 6 + offset < UINT_MODULUS
  {
    HeaderOrder(data, order);
    TiffFrom(data, 0);
    Decode32(offset, order);
    ExifInBounds(data);
    NearLimit(offset);
  }

  lemma NearLimit(offset: U32)
    ensures (6 + offset) % UINT_MODULUS + 2 >= UINT_MODULUS <==> UINT_MODULUS - 2 <= 6 + offset < UINT_MODULUS
  {}

  /** After a regular header exactly two IFD0 offsets make the index check wrap and the count be read
      far outside, whatever follows. */
  lemma {:induction false} WrappingOffsetOverruns(order: Order, offset: U32, pad: seq<Byte>)
    requires 18 <= |pad| <= MARKER_LIMIT - 14
    ensures ReadExif(EXIF_IDENT + Header(order) + E32(offset, order) + pad) == OutOfBounds <==>
            offset == 0xFFFF_FFF8 || offset == 0xFFFF_FFF9
  {
    HeaderLaid(EXIF_IDENT, Header(order), E32(offset, order), pad);
    OffsetDecides(EXIF_IDENT + Header(order) + E32(offset, order) + pad, order, offset);
  }

  // ---------------------------------------------------------------- an encoder, after TIFF 6.0

  /** An IFD entry of section 2 of TIFF 6.0. The four value bytes are two halves, so that a SHORT,
      left-justified in the field, is `value`. */
  datatype Entry = Entry(tag: U16, kind: U16, count: U32, value: U16, rest: U16)

  function EncodeEntry(e: Entry, order: Order): (s: seq<Byte>)
    ensures |s| == 12
  {
    E16(e.tag, order) + E16(e.kind, order) + E32(e.count, order) + E16(e.value, order) + E16(e.rest, order)
  }

  function EncodeEntries(es: seq<Entry>, order: Order): (s: seq<Byte>)
    ensures |s| == 12 * |es|
  {
    if es == [] then [] else EncodeEntry(es[0], order) + EncodeEntries(es[1..], order)
  }

  /** The APP1 payload: identifier, header, offset of IFD0, anything, IFD0, anything. */
  function Payload(order: Order, gap: seq<Byte>, es: seq<Entry>, tail: seq<Byte>): seq<Byte>
    requires |es| < 0x1_0000 && 8 + |gap| < UINT_MODULUS
  {
    EXIF_IDENT + Header(order) + E32(8 + |gap|, order) + gap +
    E16(|es|, order) + EncodeEntries(es, order) + tail
  }

  /** Section 8 of TIFF 6.0: the orientation is a single SHORT; 0 stands for none. */
  function Expected(es: seq<Entry>): nat {
    if es == [] then 0
    else if es[0].tag == ORIENTATION_TAG then
      if es[0].kind == 3 && es[0].count == 1 && es[0].value <= 8 then es[0].value else 0
    else Expected(es[1..])
  }

  lemma Window(data: seq<Byte>, i: nat, s: seq<Byte>, a: nat, b: nat)
    requires a <= b <= |s| && i + |s| <= |data| && data[i..i + |s|] == s
    ensures data[i + a..i + b] == s[a..b]
  {
    forall k | 0 <= k < b - a ensures data[i + a..i + b][k] == s[a..b][k] {
      assert data[i..i + |s|][a + k] == s[a + k];
    }
  }

  lemma EntryParts(data: seq<Byte>, i: nat, e: Entry, order: Order)
    requires i + 12 <= |data| && data[i..i + 12] == EncodeEntry(e, order)
    ensures data[i..i + 2] == E16(e.tag, order)
    ensures D16(data[i + 2..i + 4], order) == e.kind
    ensures D32(data[i + 4..i + 8], order) == e.count
    ensures D16(data[i + 8..i + 10], order) == e.value
  {
    var s := EncodeEntry(e, order);
    assert s[0..2] == E16(e.tag, order);
    assert s[2..4] == E16(e.kind, order);
    assert s[4..8] == E32(e.count, order);
    assert s[8..10] == E16(e.value, order);
    Window(data, i, s, 0, 2);
    Window(data, i, s, 2, 4);
    Window(data, i, s, 4, 8);
    Window(data, i, s, 8, 10);
    Decode16(e.kind, order);
    Decode32(e.count, order);
    Decode16(e.value, order);
  }

  lemma Adjacent(data: seq<Byte>, i: nat, a: seq<Byte>, b: seq<Byte>)
    requires i + |a| + |b| <= |data| && data[i..i + |a| + |b|] == a + b
    ensures data[i..i + |a|] == a && data[i + |a|..i + |a| + |b|] == b
  {
    Window(data, i, a + b, 0, |a|);
    Window(data, i, a + b, |a|, |a| + |b|);
  }

  /** The first entry and the others, where the encoded entries lie in the data. */
  lemma {:induction false} EntriesSplit(data: seq<Byte>, i: nat, es: seq<Entry>, order: Order)
    requires es != [] && i + 12 * |es| <= |data| && data[i..i + 12 * |es|] == EncodeEntries(es, order)
    ensures data[i..i + 12] == EncodeEntry(es[0], order)
    ensures data[i + 12..i + 12 + 12 * |es[1..]|] == EncodeEntries(es[1..], order)
  {
    Adjacent(data, i, EncodeEntry(es[0], order), EncodeEntries(es[1..], order));
  }

  /** One step of the scan over an encoded entry. */
  lemma {:induction false} ScanEntry(data: seq<Byte>, i: nat, e: Entry, tags: nat, order: Order)
    requires tags > 0 && i + 12 <= |data| && data[i..i + 12] == EncodeEntry(e, order)
    ensures Scan(data, i, tags, order) ==
      if e.tag == ORIENTATION_TAG then Orientation(Expected([e])) else Scan(data, i + 12, tags - 1, order)
  {
    EntryParts(data, i, e, order);
    Encode16Injective(e.tag, ORIENTATION_TAG, order);
  }

  lemma {:induction false} ScanFinds(data: seq<Byte>, i: nat, es: seq<Entry>, order: Order)
    requires i + 12 * |es| <= |data| && data[i..i + 12 * |es|] == EncodeEntries(es, order)
    ensures Scan(data, i, |es|, order) == Orientation(Expected(es))
    decreases |es|
  {
    if es != [] {
      EntriesSplit(data, i, es, order);
      ScanEntry(data, i, es[0], |es|, order);
      ScanFinds(data, i + 12, es[1..], order);
    }
  }

  lemma NoHeaderBefore(data: seq<Byte>, i: nat)
    requires i < 6 && |data| >= 32 && data[..6] == EXIF_IDENT
    ensures !HeaderAt(data, i)
  {
    assert data[i..i + 4][0] == data[..6][i];
  }

  lemma {:induction false} TiffFrom(data: seq<Byte>, i: nat)
    requires i <= 6 && |data| >= 32 && data[..6] == EXIF_IDENT && HeaderAt(data, 6)
    ensures FindTiff(data, i) == 6
    decreases 6 - i
  {
    if i < 6 {
      NoHeaderBefore(data, i);
      TiffFrom(data, i + 1);
    }
  }

  lemma HeaderOrder(data: seq<Byte>, order: Order)
    requires |data| >= 32 && data[6..10] == Header(order)
    ensures HeaderAt(data, 6) && OrderAt(data, 6) == order
  {
    assert data[6..10][0] == Header(order)[0];
  }

  lemma Laid(ident: seq<Byte>, header: seq<Byte>, offset: seq<Byte>, gap: seq<Byte>, n: seq<Byte>, body: seq<Byte>, tail: seq<Byte>)
    requires |ident| == 6 && |header| == 4 && |offset| == 4 && |n| == 2
    ensures var p := ident + header + offset + gap + n + body + tail; var i := 14 + |gap|;
      && p[..6] == ident && p[6..10] == header && p[10..14] == offset
      && p[i..i + 2] == n && p[i + 2..i + 2 + |body|] == body
  {}

  lemma PayloadParts(order: Order, gap: seq<Byte>, es: seq<Entry>, tail: seq<Byte>)
    requires |es| < 0x1_0000 && 8 + |gap| < UINT_MODULUS
    ensures var p := Payload(order, gap, es, tail); var i := 14 + |gap|;
      && |p| == i + 2 + 12 * |es| + |tail|
      && p[..6] == EXIF_IDENT && p[6..10] == Header(order) && p[10..14] == E32(8 + |gap|, order)
      && p[i..i + 2] == E16(|es|, order)
      && p[i + 2..i + 2 + 12 * |es|] == EncodeEntries(es, order)
  {
    Laid(EXIF_IDENT, Header(order), E32(8 + |gap|, order), gap, E16(|es|, order), EncodeEntries(es, order), tail);
  }

  lemma IfdReads(data: seq<Byte>, i: nat, es: seq<Entry>, order: Order)
    requires |es| < 0x1_0000 && i + 2 + 12 * |es| <= |data| <= MARKER_LIMIT
    requires data[i..i + 2] == E16(|es|, order) && data[i + 2..i + 2 + 12 * |es|] == EncodeEntries(es, order)
    ensures ReadIfd(data, i, order) == Orientation(Expected(es))
  {
    Decode16(|es|, order);
    IfdScans(data, i, order);
    ScanFinds(data, i + 2, es, order);
  }

  lemma ExifReadsIfd(data: seq<Byte>, order: Order, i: nat)
    requires |data| >= 32 && FindTiff(data, 0) == 6 && OrderAt(data, 6) == order
    requires i == 6 + D32(data[10..14], order) && i < UINT_MODULUS
    ensures ReadExif(data) == ReadIfd(data, i, order)
  {
    SmallWraps(i);
  }

  lemma LaidOutReads(data: seq<Byte>, order: Order, i: nat, es: seq<Entry>)
    requires |es| < 0x1_0000 && 14 <= i && i + 2 + 12 * |es| <= |data| <= MARKER_LIMIT && |data| >= 32
    requires data[..6] == EXIF_IDENT && data[6..10] == Header(order) && data[10..14] == E32(i - 6, order)
    requires data[i..i + 2] == E16(|es|, order) && data[i + 2..i + 2 + 12 * |es|] == EncodeEntries(es, order)
    ensures ReadExif(data) == Orientation(Expected(es))
  {
    HeaderOrder(data, order);
    TiffFrom(data, 0);
    Decode32(i - 6, order);
    ExifReadsIfd(data, order, i);
    IfdReads(data, i, es, order);
  }

  /** Below this the reader answers 0 without looking. */
  const SHORTEST_DATA: nat := 32

  /** Reading an encoded payload gives the value of the first orientation entry if it is well formed,
      else 0, in either byte order, wherever IFD0 lies and whatever follows it; a payload too short
      to be looked at gives 0. */
  lemma PayloadRoundTrip(order: Order, gap: seq<Byte>, es: seq<Entry>, tail: seq<Byte>)
    requires |es| < 0x1_0000 && 8 + |gap| < UINT_MODULUS && |Payload(order, gap, es, tail)| <= MARKER_LIMIT
    ensures ReadExif(Payload(order, gap, es, tail)) ==
            Orientation(if |Payload(order, gap, es, tail)| < SHORTEST_DATA then 0 else Expected(es))
  {
    if |Payload(order, gap, es, tail)| >= SHORTEST_DATA {
      PayloadParts(order, gap, es, tail);
      LaidOutReads(Payload(order, gap, es, tail), order, 14 + |gap|, es);
    }
  }

  /** A marker the reader passes over: not APP1, or long enough and not Exif. */
  predicate NotExif(m: Marker) {
    m.code == EXIF_JPEG_MARKER ==> |m.data| >= 6 && m.data[..6] != EXIF_IDENT
  }

  lemma {:induction false} LastExifCounts(before: seq<Marker>, m: Marker, after: seq<Marker>)
    requires !ShortApp1(before) && m.code == EXIF_JPEG_MARKER && |m.data| >= 6 && m.data[..6] == EXIF_IDENT
    requires forall x :: x in after ==> NotExif(x)
    ensures FindExif(before + [m] + after) == Found(m.data)
  {
    var all := before + [m] + after;
    if after == [] {
      assert all == before + [m] && all[..|all| - 1] == before;
      OverrunIsShort(before);
    } else {
      var n := |after| - 1;
      LastExifCounts(before, m, after[..n]);
      assert all[..|all| - 1] == before + [m] + after[..n];
      assert after[n] in after;
    }
  }

  /** Round trip through a whole marker list. */
  lemma MarkerRoundTrip(before: seq<Marker>, after: seq<Marker>, order: Order, gap: seq<Byte>, es: seq<Entry>, tail: seq<Byte>)
    requires |es| < 0x1_0000 && 8 + |gap| < UINT_MODULUS && |Payload(order, gap, es, tail)| <= MARKER_LIMIT
    requires !ShortApp1(before) && forall x :: x in after ==> NotExif(x)
    ensures GetOrientation(before + [Marker(EXIF_JPEG_MARKER, Payload(order, gap, es, tail))] + after) ==
            Orientation(if |Payload(order, gap, es, tail)| < SHORTEST_DATA then 0 else Expected(es))
  {
    var data := Payload(order, gap, es, tail);
    PayloadParts(order, gap, es, tail);
    LastExifCounts(before, Marker(EXIF_JPEG_MARKER, data), after);
    PayloadRoundTrip(order, gap, es, tail);
  }

  /** Only an entry list of at most one can be too short, so from two entries on the value always comes back. */
  lemma ShortMeansFewEntries(order: Order, gap: seq<Byte>, es: seq<Entry>, tail: seq<Byte>)
    requires |es| < 0x1_0000 && 8 + |gap| < UINT_MODULUS
    ensures |Payload(order, gap, es, tail)| < SHORTEST_DATA <==> 12 * |es| + |gap| + |tail| < 16
  {
    PayloadParts(order, gap, es, tail);
  }
}

/** The reader's loops over the marker list and the byte buffer. */
module ExifOrientation {
  import opened Common
  import opened ExifOrientationSpec

  method FindMarker(markers: seq<Marker>) returns (found: Search)
    ensures found == FindExif(markers)
  {
    found := Missing;
    var k := 0;
    while k < |markers|
      invariant 0 <= k <= |markers|
      invariant found == FindExif(markers[..k]) && !found.Overrun?
    {
      var m := markers[k];
      assert markers[..k + 1][..k] == markers[..k];
      if m.code == EXIF_JPEG_MARKER {
        if |m.data| < 6 {
          OverrunIsShort(markers);
          assert ShortApp1(markers);
          return Overrun;
        }
        if m.data[..6] == EXIF_IDENT {
          found := Found(m.data);
        }
      }
      k := k + 1;
    }
    assert markers[..k] == markers;
  }

  /** The first byte order header in the first sixteen positions. */
  method FindHeader(data: seq<Byte>) returns (tiff: nat, order: Order)
    requires |data| >= 32
    ensures tiff == if FindTiff(data, 0) == 16 then 0 else FindTiff(data, 0)
    ensures 0 < tiff ==> tiff < 16 && order == OrderAt(data, tiff)
  {
    var i := 0;
    order := Intel;
    while i < 16
      invariant 0 <= i <= 16 && FindTiff(data, i) == FindTiff(data, 0)
    {
      if data[i..i + 4] == Header(Intel) {
        return i, Intel;
      } else if data[i..i + 4] == Header(Motorola) {
        return i, Motorola;
      } else {
        i := i + 1;
      }
    }
    tiff := 0;
  }

  /** The entries of IFD0; the caller has checked that they lie inside the data. */
  method ScanEntries(data: seq<Byte>, start: nat, count: nat, order: Order) returns (result: Result)
    requires start + count * 12 <= |data|
    ensures result == Scan(data, start, count, order)
  {
    var i: nat, tags: nat := start, count;
    while tags > 0
      invariant 0 <= tags <= count && i + tags * 12 <= |data|
      invariant Scan(data, i, tags, order) == Scan(data, start, count, order)
    {
      var kind := D16(data[i + 2..i + 4], order);
      var n := D32(data[i + 4..i + 8], order);
      if data[i..i + 2] == E16(ORIENTATION_TAG, order) {
        if kind != 3 || n != 1 { return Orientation(0); }
        var ret := D16(data[i + 8..i + 10], order);
        return Orientation(if ret <= 8 then ret else 0);
      }
      i := i + 12;
      tags := tags - 1;
    }
    result := Orientation(0);
  }

  /** IFD0, with the bounds checks in 32-bit arithmetic. */
  method ReadIfdAt(data: seq<Byte>, start: nat, order: Order) returns (result: Result)
    requires |data| <= MARKER_LIMIT && start < UINT_MODULUS
    ensures result == ReadIfd(data, start, order)
  {
    var i := start;
    if (i + 2) % UINT_MODULUS > |data| { return Orientation(0); }
    if i + 2 > |data| { return OutOfBounds; }
    var tags := D16(data[i..i + 2], order);
    i := i + 2;
    if (i + tags * 12) % UINT_MODULUS > |data| { return Orientation(0); }
    SmallWraps(i + tags * 12);
    result := ScanEntries(data, i, tags, order);
  }

  method ReadOrientation(markers: seq<Marker>) returns (result: Result)
    requires Saved(markers)
    ensures result == GetOrientation(markers)
  {
    var found := FindMarker(markers);
    if found.Missing? { return Orientation(0); }
    if found.Overrun? { return OutOfBounds; }
    FoundIsSaved(markers);
    result := ReadData(found.data);
  }

  /** The reader on the marker it has found. */
  method ReadData(data: seq<Byte>) returns (result: Result)
    requires |data| <= MARKER_LIMIT
    ensures result == ReadExif(data)
  {
    if |data| < 32 { return Orientation(0); }
    var tiff, order := FindHeader(data);
    if tiff == 0 { return Orientation(0); }
    var offset := D32(data[tiff + 4..tiff + 8], order);
    result := ReadIfdAt(data, (tiff + offset) % UINT_MODULUS, order);
  }
}
