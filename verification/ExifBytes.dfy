/** What the orientation reader answers, in terms of the bytes alone: 49 49 2A 00 announces numbers with
    the least byte first, 4D 4D 00 2A numbers with the greatest byte first. */
module ExifBytes {
  import opened Common
  import opened ExifOrientationSpec

  function Val16(d: seq<Byte>, i: nat, little: bool): nat
    requires i + 2 <= |d|
  {
    var (a: int, b: int) := (d[i], d[i + 1]);
    if little then a + 256 * b else 256 * a + b
  }

  function Val32(d: seq<Byte>, i: nat, little: bool): nat
    requires i + 4 <= |d|
  {
    var (a: int, b: int, c: int, e: int) := (d[i], d[i + 1], d[i + 2], d[i + 3]);
    if little then a + 256 * b + 65536 * c + 16777216 * e else 16777216 * a + 65536 * b + 256 * c + e
  }

  predicate Announces(d: seq<Byte>, i: nat, little: bool)
    requires i + 4 <= |d|
  {
    if little then d[i] == 0x49 && d[i + 1] == 0x49 && d[i + 2] == 0x2A && d[i + 3] == 0x00
    else d[i] == 0x4D && d[i + 1] == 0x4D && d[i + 2] == 0x00 && d[i + 3] == 0x2A
  }

  /** The first announcement is at p, among the first sixteen positions. */
  predicate FirstAnnounced(d: seq<Byte>, p: nat, little: bool)
    requires |d| >= 32
  {
    p < 16 && Announces(d, p, little) && forall q :: 0 <= q < p ==> !Announces(d, q, true) && !Announces(d, q, false)
  }

  predicate Tagged(d: seq<Byte>, at: nat, little: bool)
    requires at + 2 <= |d|
  {
    Val16(d, at, little) == 0x112
  }

  /** The value of the entry at `at`: a single SHORT of at most 8, else 0. */
  function ValueAt(d: seq<Byte>, at: nat, little: bool): nat
    requires at + 12 <= |d|
  {
    if Val16(d, at + 2, little) == 3 && Val32(d, at + 4, little) == 1 && Val16(d, at + 8, little) <= 8
    then Val16(d, at + 8, little) else 0
  }

  function OrderOf(little: bool): Order {
    if little then Intel else Motorola
  }

  // ---------------------------------------------------------------- the reader's numbers are these

  lemma Read16(d: seq<Byte>, i: nat, little: bool)
    requires i + 2 <= |d|
    ensures D16(d[i..i + 2], OrderOf(little)) == Val16(d, i, little)
  {}

  lemma Read32(d: seq<Byte>, i: nat, little: bool)
    requires i + 4 <= |d|
    ensures D32(d[i..i + 4], OrderOf(little)) == Val32(d, i, little)
  {
    assert d[i..i + 4][..2] == d[i..i + 2] && d[i..i + 4][2..] == d[i + 2..i + 4];
    Read16(d, i, little);
    Read16(d, i + 2, little);
  }

  lemma HeaderIs(d: seq<Byte>, i: nat, little: bool)
    requires i + 4 <= |d|
    ensures Announces(d, i, little) <==> d[i..i + 4] == Header(OrderOf(little))
  {
    var (s, h) := (d[i..i + 4], Header(OrderOf(little)));
    assert s[0] == d[i] && s[1] == d[i + 1] && s[2] == d[i + 2] && s[3] == d[i + 3];
    if Announces(d, i, little) {
      assert s == h;
    }
  }

  lemma TagIs(d: seq<Byte>, i: nat, little: bool)
    requires i + 2 <= |d|
    ensures Tagged(d, i, little) <==> d[i..i + 2] == E16(ORIENTATION_TAG, OrderOf(little))
  {
    var (s, t) := (d[i..i + 2], E16(ORIENTATION_TAG, OrderOf(little)));
    assert s[0] == d[i] && s[1] == d[i + 1];
    if Tagged(d, i, little) {
      assert s == t;
    }
  }

  lemma {:induction false} FindsFirst(d: seq<Byte>, i: nat, p: nat, little: bool)
    requires |d| >= 32 && i <= p && FirstAnnounced(d, p, little)
    ensures FindTiff(d, i) == p && OrderAt(d, p) == OrderOf(little)
    decreases p - i
  {
    HeaderIs(d, i, true);
    HeaderIs(d, i, false);
    if i < p {
      FindsFirst(d, i + 1, p, little);
    }
  }

  lemma {:induction false} FindsNone(d: seq<Byte>, i: nat)
    requires |d| >= 32 && i <= 16 && forall q :: i <= q < 16 ==> !Announces(d, q, true) && !Announces(d, q, false)
    ensures FindTiff(d, i) == 16
    decreases 16 - i
  {
    if i < 16 {
      HeaderIs(d, i, true);
      HeaderIs(d, i, false);
      FindsNone(d, i + 1);
    }
  }

  lemma {:induction false} ScanSkipsOne(d: seq<Byte>, i: nat, tags: nat, little: bool)
    requires tags > 0 && i + 12 * tags <= |d| && !Tagged(d, i, little)
    ensures Scan(d, i, tags, OrderOf(little)) == Scan(d, i + 12, tags - 1, OrderOf(little))
  {
    TagIs(d, i, little);
  }

  lemma {:induction false} ScanSkips(d: seq<Byte>, i: nat, tags: nat, k: nat, little: bool)
    requires k <= tags && i + 12 * tags <= |d| && forall j :: 0 <= j < k ==> !Tagged(d, i + 12 * j, little)
    ensures Scan(d, i, tags, OrderOf(little)) == Scan(d, i + 12 * k, tags - k, OrderOf(little))
    decreases k
  {
    if k > 0 {
      ScanSkips(d, i, tags, k - 1, little);
      ScanSkipsOne(d, i + 12 * (k - 1), tags - (k - 1), little);
    }
  }

  lemma {:induction false} ScanReads(d: seq<Byte>, i: nat, tags: nat, little: bool)
    requires tags > 0 && i + 12 * tags <= |d| && Tagged(d, i, little)
    ensures Scan(d, i, tags, OrderOf(little)) == Orientation(ValueAt(d, i, little))
  {
    TagIs(d, i, little);
    Read16(d, i + 2, little);
    Read32(d, i + 4, little);
    Read16(d, i + 8, little);
  }

  lemma {:induction false} DirectoryScanned(d: seq<Byte>, i: nat, k: nat, little: bool)
    requires i + 2 <= |d| <= MARKER_LIMIT && i + 2 + 12 * Val16(d, i, little) <= |d| && k <= Val16(d, i, little)
    requires forall j :: 0 <= j < k ==> !Tagged(d, i + 2 + 12 * j, little)
    ensures ReadIfd(d, i, OrderOf(little)) == Scan(d, i + 2 + 12 * k, Val16(d, i, little) - k, OrderOf(little))
  {
    Read16(d, i, little);
    IfdScans(d, i, OrderOf(little));
    ScanSkips(d, i + 2, Val16(d, i, little), k, little);
  }

  lemma {:induction false} DirectoryReads(d: seq<Byte>, i: nat, k: nat, little: bool)
    requires i + 2 <= |d| <= MARKER_LIMIT && i + 2 + 12 * Val16(d, i, little) <= |d| && k < Val16(d, i, little)
    requires (forall j :: 0 <= j < k ==> !Tagged(d, i + 2 + 12 * j, little)) && Tagged(d, i + 2 + 12 * k, little)
    ensures ReadIfd(d, i, OrderOf(little)) == Orientation(ValueAt(d, i + 2 + 12 * k, little))
  {
    DirectoryScanned(d, i, k, little);
    ScanReads(d, i + 2 + 12 * k, Val16(d, i, little) - k, little);
  }

  lemma {:induction false} DirectoryOutside(d: seq<Byte>, i: nat, little: bool)
    requires i + 2 < UINT_MODULUS && |d| <= MARKER_LIMIT
    requires i + 2 <= |d| ==> i + 2 + 12 * Val16(d, i, little) > |d|
    ensures ReadIfd(d, i, OrderOf(little)) == Orientation(0)
  {
    SmallWraps(i + 2);
    if i + 2 <= |d| {
      Read16(d, i, little);
      SmallWraps(i + 2 + Val16(d, i, little) * 12);
    }
  }

  lemma {:induction false} ReadsIfdFrom(d: seq<Byte>, p: nat, order: Order, offset: nat)
    requires 32 <= |d| && 0 < p < 16 && FindTiff(d, 0) == p && OrderAt(d, p) == order
    requires D32(d[p + 4..p + 8], order) == offset && p + offset < UINT_MODULUS
    ensures ReadExif(d) == ReadIfd(d, p + offset, order)
  {
    SmallWraps(p + offset);
  }

  lemma {:induction false} StartsAt(d: seq<Byte>, p: nat, little: bool)
    requires 32 <= |d| && 0 < p && FirstAnnounced(d, p, little) && p + Val32(d, p + 4, little) < UINT_MODULUS
    ensures ReadExif(d) == ReadIfd(d, p + Val32(d, p + 4, little), OrderOf(little))
  {
    FindsFirst(d, 0, p, little);
    Read32(d, p + 4, little);
    ReadsIfdFrom(d, p, OrderOf(little), Val32(d, p + 4, little));
  }

  // ---------------------------------------------------------------- what is read

  /** The directory announced at p lies at i. */
  predicate DirectoryAt(d: seq<Byte>, p: nat, little: bool, i: nat) {
    32 <= |d| <= 65535 && 0 < p && FirstAnnounced(d, p, little) && i == p + Val32(d, p + 4, little)
  }

  /** The directory and its entries lie inside the data. */
  predicate Inside(d: seq<Byte>, i: nat, little: bool) {
    i + 2 <= |d| && i + 2 + 12 * Val16(d, i, little) <= |d|
  }

  /** Entry k of the directory is the first with tag 0x112: its value is read. */
  lemma {:induction false} ReadsFirstTagged(d: seq<Byte>, p: nat, little: bool, i: nat, k: nat)
    requires DirectoryAt(d, p, little, i) && Inside(d, i, little) && k < Val16(d, i, little)
    requires (forall j :: 0 <= j < k ==> !Tagged(d, i + 2 + 12 * j, little)) && Tagged(d, i + 2 + 12 * k, little)
    ensures ReadExif(d) == Orientation(ValueAt(d, i + 2 + 12 * k, little))
  {
    StartsAt(d, p, little);
    DirectoryReads(d, i, k, little);
  }

  /** No entry has the tag, or the directory does not lie inside the data: the answer is 0. */
  lemma {:induction false} NoTagReadsZero(d: seq<Byte>, p: nat, little: bool, i: nat)
    requires DirectoryAt(d, p, little, i) && i + 2 < 0x1_0000_0000
    requires Inside(d, i, little) ==> forall j :: 0 <= j < Val16(d, i, little) ==> !Tagged(d, i + 2 + 12 * j, little)
    ensures ReadExif(d) == Orientation(0)
  {
    StartsAt(d, p, little);
    if Inside(d, i, little) {
      DirectoryScanned(d, i, Val16(d, i, little), little);
    } else {
      DirectoryOutside(d, i, little);
    }
  }

  /** Data under 32 bytes, without an announcement in its first sixteen positions, or with one at its very
      start, reads as 0. */
  lemma {:induction false} NoHeaderReadsZero(d: seq<Byte>)
    requires |d| >= 32 ==>
      (forall q :: 0 <= q < 16 ==> !Announces(d, q, true) && !Announces(d, q, false)) ||
      Announces(d, 0, true) || Announces(d, 0, false)
    ensures ReadExif(d) == Orientation(0)
  {
    if |d| >= 32 {
      if Announces(d, 0, true) {
        FindsFirst(d, 0, 0, true);
      } else if Announces(d, 0, false) {
        FindsFirst(d, 0, 0, false);
      } else {
        FindsNone(d, 0);
      }
    }
  }

  /** The marker read is the last one of code 0xE1 that starts with 45 78 69 66 00 00. */
  lemma {:induction false} ReadsLastExif(before: seq<Marker>, data: seq<Byte>, after: seq<Marker>)
    requires |data| >= 6 && data[..6] == [0x45, 0x78, 0x69, 0x66, 0x00, 0x00]
    requires forall m :: m in before + after && m.code == 0xE1 ==> |m.data| >= 6
    requires forall m :: m in after && m.code == 0xE1 ==> m.data[..6] != [0x45, 0x78, 0x69, 0x66, 0x00, 0x00]
    ensures GetOrientation(before + [Marker(0xE1, data)] + after) == ReadExif(data)
  {
    forall m | m in before && m.code == EXIF_JPEG_MARKER ensures |m.data| >= 6 {
      assert m in before + after;
    }
    forall m | m in after ensures NotExif(m) {
      assert m in before + after;
    }
    LastExifCounts(before, Marker(0xE1, data), after);
  }

  // ---------------------------------------------------------------- literal payloads

  /** An identifier, an announcement, an offset, a count of entries, one entry in three words, and the rest. */
  lemma Parts(d: seq<Byte>, ident: seq<Byte>, header: seq<Byte>, offset: seq<Byte>, n: seq<Byte>,
      a: seq<Byte>, b: seq<Byte>, c: seq<Byte>, rest: seq<Byte>)
    requires |ident| == 6 && |header| == 4 && |offset| == 4 && |n| == 2 && |a| == 4 && |b| == 4 && |c| == 4
    requires d == ident + header + offset + n + a + b + c + rest
    ensures |d| == 28 + |rest|
    ensures d[..6] == ident && d[6..10] == header && d[10..14] == offset && d[14..16] == n
    ensures d[16..20] == a && d[20..24] == b && d[24..28] == c
  {}

  lemma At2(d: seq<Byte>, i: nat, x: Byte, y: Byte)
    requires i + 2 <= |d| && d[i..i + 2] == [x, y]
    ensures d[i] == x && d[i + 1] == y
  {
    assert d[i..i + 2][0] == x && d[i..i + 2][1] == y;
  }

  lemma At4(d: seq<Byte>, i: nat, x: Byte, y: Byte, z: Byte, w: Byte)
    requires i + 4 <= |d| && d[i..i + 4] == [x, y, z, w]
    ensures d[i] == x && d[i + 1] == y && d[i + 2] == z && d[i + 3] == w
  {
    assert d[i..i + 4][0] == x && d[i..i + 4][1] == y && d[i..i + 4][2] == z && d[i..i + 4][3] == w;
  }

  lemma AnnouncedAfterIdent(d: seq<Byte>, little: bool)
    requires |d| >= 32 && d[..6] == [0x45, 0x78, 0x69, 0x66, 0x00, 0x00] && Announces(d, 6, little)
    ensures FirstAnnounced(d, 6, little)
  {
    var h := d[..6];
    assert d[0] == h[0] && d[1] == h[1] && d[2] == h[2] && d[3] == h[3] && d[4] == h[4] && d[5] == h[5];
  }

  lemma {:induction false} OneEntry(d: seq<Byte>, little: bool, v: Byte)
    requires 32 <= |d| <= 65535 && FirstAnnounced(d, 6, little)
    requires Val32(d, 10, little) == 8 && Val16(d, 14, little) == 1 && Tagged(d, 16, little)
    requires Val16(d, 18, little) == 3 && Val32(d, 20, little) == 1 && Val16(d, 24, little) == v
    ensures ReadExif(d) == Orientation(if v <= 8 then v else 0)
  {
    ReadsFirstTagged(d, 6, little, 14, 0);
  }

  /** A directory of one orientation entry with value v, the least byte first, whatever follows it. */
  lemma {:induction false} LittleLiteral(v: Byte, rest: seq<Byte>)
    requires 4 <= |rest| <= 65507
    ensures ReadExif([0x45, 0x78, 0x69, 0x66, 0x00, 0x00] + [0x49, 0x49, 0x2A, 0x00] + [0x08, 0x00, 0x00, 0x00] + [0x01, 0x00]
      + [0x12, 0x01, 0x03, 0x00] + [0x01, 0x00, 0x00, 0x00] + [v, 0x00, 0x00, 0x00] + rest) == Orientation(if v <= 8 then v else 0)
  {
    var d := [0x45, 0x78, 0x69, 0x66, 0x00, 0x00] + [0x49, 0x49, 0x2A, 0x00] + [0x08, 0x00, 0x00, 0x00] + [0x01, 0x00]
      + [0x12, 0x01, 0x03, 0x00] + [0x01, 0x00, 0x00, 0x00] + [v, 0x00, 0x00, 0x00] + rest;
    Parts(d, [0x45, 0x78, 0x69, 0x66, 0x00, 0x00], [0x49, 0x49, 0x2A, 0x00], [0x08, 0x00, 0x00, 0x00], [0x01, 0x00],
      [0x12, 0x01, 0x03, 0x00], [0x01, 0x00, 0x00, 0x00], [v, 0x00, 0x00, 0x00], rest);
    LittleParts(d, v);
  }

  lemma {:induction false} LittleParts(d: seq<Byte>, v: Byte)
    requires 32 <= |d| <= 65535 && d[..6] == [0x45, 0x78, 0x69, 0x66, 0x00, 0x00] && d[6..10] == [0x49, 0x49, 0x2A, 0x00]
    requires d[10..14] == [0x08, 0x00, 0x00, 0x00] && d[14..16] == [0x01, 0x00] && d[16..20] == [0x12, 0x01, 0x03, 0x00]
    requires d[20..24] == [0x01, 0x00, 0x00, 0x00] && d[24..28] == [v, 0x00, 0x00, 0x00]
    ensures ReadExif(d) == Orientation(if v <= 8 then v else 0)
  {
    At4(d, 6, 0x49, 0x49, 0x2A, 0x00);
    AnnouncedAfterIdent(d, true);
    At4(d, 10, 0x08, 0x00, 0x00, 0x00);
    At2(d, 14, 0x01, 0x00);
    At4(d, 16, 0x12, 0x01, 0x03, 0x00);
    At4(d, 20, 0x01, 0x00, 0x00, 0x00);
    At4(d, 24, v, 0x00, 0x00, 0x00);
    OneEntry(d, true, v);
  }

  /** Its mirror image, the greatest byte first. */
  lemma {:induction false} BigLiteral(v: Byte, rest: seq<Byte>)
    requires 4 <= |rest| <= 65507
    ensures ReadExif([0x45, 0x78, 0x69, 0x66, 0x00, 0x00] + [0x4D, 0x4D, 0x00, 0x2A] + [0x00, 0x00, 0x00, 0x08] + [0x00, 0x01]
      + [0x01, 0x12, 0x00, 0x03] + [0x00, 0x00, 0x00, 0x01] + [0x00, v, 0x00, 0x00] + rest) == Orientation(if v <= 8 then v else 0)
  {
    var d := [0x45, 0x78, 0x69, 0x66, 0x00, 0x00] + [0x4D, 0x4D, 0x00, 0x2A] + [0x00, 0x00, 0x00, 0x08] + [0x00, 0x01]
      + [0x01, 0x12, 0x00, 0x03] + [0x00, 0x00, 0x00, 0x01] + [0x00, v, 0x00, 0x00] + rest;
    Parts(d, [0x45, 0x78, 0x69, 0x66, 0x00, 0x00], [0x4D, 0x4D, 0x00, 0x2A], [0x00, 0x00, 0x00, 0x08], [0x00, 0x01],
      [0x01, 0x12, 0x00, 0x03], [0x00, 0x00, 0x00, 0x01], [0x00, v, 0x00, 0x00], rest);
    BigParts(d, v);
  }

  lemma {:induction false} BigParts(d: seq<Byte>, v: Byte)
    requires 32 <= |d| <= 65535 && d[..6] == [0x45, 0x78, 0x69, 0x66, 0x00, 0x00] && d[6..10] == [0x4D, 0x4D, 0x00, 0x2A]
    requires d[10..14] == [0x00, 0x00, 0x00, 0x08] && d[14..16] == [0x00, 0x01] && d[16..20] == [0x01, 0x12, 0x00, 0x03]
    requires d[20..24] == [0x00, 0x00, 0x00, 0x01] && d[24..28] == [0x00, v, 0x00, 0x00]
    ensures ReadExif(d) == Orientation(if v <= 8 then v else 0)
  {
    At4(d, 6, 0x4D, 0x4D, 0x00, 0x2A);
    AnnouncedAfterIdent(d, false);
    At4(d, 10, 0x00, 0x00, 0x00, 0x08);
    At2(d, 14, 0x00, 0x01);
    At4(d, 16, 0x01, 0x12, 0x00, 0x03);
    At4(d, 20, 0x00, 0x00, 0x00, 0x01);
    At4(d, 24, 0x00, v, 0x00, 0x00);
    OneEntry(d, false, v);
  }
}
