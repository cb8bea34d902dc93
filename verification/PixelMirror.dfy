/** Mirroring and flipping a pixel buffer. */
module PixelMirrorSpec {
  import opened Common

  type Pixel = seq<Byte>
  type Picture = seq<seq<Pixel>>

  /** How a buffer holds a picture: rows start `stride` bytes apart and may be followed by padding. */
  datatype Layout = Layout(width: nat, height: nat, stride: nat, channels: nat) {
    predicate Valid() {
      width > 0 && height > 0 && (channels == 3 || channels == 4) && stride >= width * channels
    }

    function RowBytes(): nat {
      width * channels
    }

    /** Byte `k` belongs to row `i`, not to the padding after it. */
    predicate InRow(i: nat, k: nat) {
      i * stride <= k < i * stride + RowBytes()
    }

    predicate Padding(k: nat) {
      forall i :: 0 <= i < height ==> !InRow(i, k)
    }

    /** The last row need not be padded. */
    predicate FitsIn(n: nat) {
      Valid() && (height - 1) * stride + RowBytes() <= n
    }
  }

  lemma Scale(m: int, n: int, d: nat)
    requires m <= n
    ensures m * d <= n * d
  {}

  lemma Gap(m: int, n: int, d: nat)
    requires m < n
    ensures m * d + d <= n * d
  {
    Scale(m + 1, n, d);
  }

  function Row(buf: seq<Byte>, start: nat, width: nat, channels: nat): (r: seq<Pixel>)
    requires start + width * channels <= |buf|
    ensures |r| == width
  {
    if width == 0 then []
    else
      assert width * channels == (width - 1) * channels + channels;
      Row(buf, start, width - 1, channels) + [buf[start + (width - 1) * channels..start + width * channels]]
  }

  function Rows(buf: seq<Byte>, l: Layout, n: nat): (p: Picture)
    requires l.FitsIn(|buf|) && n <= l.height
    ensures |p| == n && forall i :: 0 <= i < n ==> |p[i]| == l.width
  {
    if n == 0 then []
    else
      Scale(n - 1, l.height - 1, l.stride);
      Rows(buf, l, n - 1) + [Row(buf, (n - 1) * l.stride, l.width, l.channels)]
  }

  function PictureIn(buf: seq<Byte>, l: Layout): Picture
    requires l.FitsIn(|buf|)
  {
    Rows(buf, l, l.height)
  }

  function MirrorRow(row: seq<Pixel>, mirror: bool): seq<Pixel> {
    if mirror then Reverse(row) else row
  }

  function MirrorAll(p: Picture, mirror: bool): (r: Picture)
    ensures |r| == |p|
  {
    if p == [] then [] else [MirrorRow(p[0], mirror)] + MirrorAll(p[1..], mirror)
  }

  /** What the operation promises: rows in reverse order if flipped, pixels of a row if mirrored. */
  function Transform(p: Picture, mirror: bool, flip: bool): Picture {
    var q := MirrorAll(p, mirror);
    if flip then Reverse(q) else q
  }

  lemma {:induction false} MirrorAllAt(p: Picture, mirror: bool, i: nat)
    requires i < |p|
    ensures MirrorAll(p, mirror)[i] == MirrorRow(p[i], mirror)
  {
    if i > 0 {
      MirrorAllAt(p[1..], mirror, i - 1);
    }
  }

  lemma TransformAt(p: Picture, mirror: bool, flip: bool, i: nat)
    requires i < |p|
    ensures |Transform(p, mirror, flip)| == |p|
    ensures Transform(p, mirror, flip)[if flip then |p| - 1 - i else i] == MirrorRow(p[i], mirror)
  {
    MirrorAllAt(p, mirror, i);
    if flip {
      ReverseAt(MirrorAll(p, mirror), |p| - 1 - i);
    }
  }

  lemma {:induction false} MirrorTwice(p: Picture, m: bool, n: bool)
    ensures MirrorAll(MirrorAll(p, m), n) == MirrorAll(p, m != n)
  {
    if p != [] {
      MirrorTwice(p[1..], m, n);
      ReverseTwice(p[0]);
    }
  }

  lemma {:induction false} MirrorAppend(p: Picture, row: seq<Pixel>, mirror: bool)
    ensures MirrorAll(p + [row], mirror) == MirrorAll(p, mirror) + [MirrorRow(row, mirror)]
  {
    if p != [] {
      MirrorAppend(p[1..], row, mirror);
      assert (p + [row])[1..] == p[1..] + [row];
    }
  }

  lemma {:induction false} MirrorThenFlip(p: Picture, mirror: bool)
    ensures MirrorAll(Reverse(p), mirror) == Reverse(MirrorAll(p, mirror))
  {
    if p != [] {
      MirrorThenFlip(p[1..], mirror);
      MirrorAppend(Reverse(p[1..]), p[0], mirror);
    }
  }

  /** Two calls are one call with the flags combined by exclusive or. */
  lemma Compose(p: Picture, m: bool, f: bool, n: bool, g: bool)
    ensures Transform(Transform(p, m, f), n, g) == Transform(p, m != n, f != g)
  {
    MirrorTwice(p, m, n);
    if f {
      MirrorThenFlip(MirrorAll(p, m), n);
      ReverseTwice(MirrorAll(p, m != n));
    }
  }

  lemma {:induction false} MirrorNothing(p: Picture)
    ensures MirrorAll(p, false) == p
  {
    if p != [] {
      MirrorNothing(p[1..]);
    }
  }

  /** Every flag combination undoes itself. */
  lemma Involution(p: Picture, mirror: bool, flip: bool)
    ensures Transform(Transform(p, mirror, flip), mirror, flip) == p
  {
    Compose(p, mirror, flip, mirror, flip);
    MirrorNothing(p);
  }

  /** Where each pixel goes; with both flags set this is the turn by 180 degrees. */
  lemma PixelGoesTo(p: Picture, mirror: bool, flip: bool, i: nat, j: nat)
    requires i < |p| && j < |p[i]|
    ensures var (h, w) := (|p|, |p[i]|); var q := Transform(p, mirror, flip);
      |q| == h && var row := q[if flip then h - 1 - i else i];
      |row| == w && row[if mirror then w - 1 - j else j] == p[i][j]
  {
    TransformAt(p, mirror, flip, i);
    if mirror {
      ReverseAt(p[i], |p[i]| - 1 - j);
    }
  }

  lemma {:induction false} RowsAt(buf: seq<Byte>, l: Layout, n: nat, i: nat)
    requires l.FitsIn(|buf|) && i < n <= l.height
    ensures i * l.stride + l.RowBytes() <= |buf|
    ensures Rows(buf, l, n)[i] == Row(buf, i * l.stride, l.width, l.channels)
  {
    Scale(i, l.height - 1, l.stride);
    if i < n - 1 {
      RowsAt(buf, l, n - 1, i);
    }
  }

  lemma {:induction false} RowAt(buf: seq<Byte>, start: nat, w: nat, a: nat, j: nat)
    requires start + w * a <= |buf| && j < w
    ensures start + j * a + a <= start + w * a && Row(buf, start, w, a)[j] == buf[start + j * a..start + j * a + a]
  {
    Gap(j, w, a);
    if j < w - 1 {
      Scale(w - 1, w, a);
      RowAt(buf, start, w - 1, a, j);
    }
  }
}

/** The copy loops over two strided buffers. */
module PixelMirror {
  import opened Common
  import opened PixelMirrorSpec

  /** The `a` bytes at `to` in `d` are those at `from` in `s`. */
  predicate Copied(s: seq<Byte>, d: seq<Byte>, from: int, to: int, a: nat) {
    0 <= from <= from + a <= |s| && 0 <= to <= to + a <= |d| && d[to..to + a] == s[from..from + a]
  }

  /** `e` is `d` with nothing changed but bytes `lo` to `hi`. */
  predicate SameOutside(d: seq<Byte>, e: seq<Byte>, lo: int, hi: int) {
    |d| == |e| && forall k :: 0 <= k < |d| && !(lo <= k < hi) ==> d[k] == e[k]
  }

  function Column(j: int, width: int, mirror: bool): int {
    if mirror then width - 1 - j else j
  }

  lemma {:induction false} RowIs(buf: seq<Byte>, base: nat, w: nat, a: nat, row: seq<Pixel>)
    requires base + w * a <= |buf| && |row| == w
    requires forall j :: 0 <= j < w ==> Copied(row[j], buf, 0, base + j * a, a) && |row[j]| == a
    ensures Row(buf, base, w, a) == row
  {
    forall j | 0 <= j < w ensures Row(buf, base, w, a)[j] == row[j] {
      RowAt(buf, base, w, a, j);
      assert Copied(row[j], buf, 0, base + j * a, a);
    }
  }

  lemma MirroredRowIs(s: seq<Byte>, d: seq<Byte>, start: nat, base: nat, w: nat, a: nat, mirror: bool)
    requires start + w * a <= |s| && base + w * a <= |d|
    requires ColumnsDone(s, d, start, base, w, a, mirror, w)
    ensures Row(d, base, w, a) == MirrorRow(Row(s, start, w, a), mirror)
  {
    var row := MirrorRow(Row(s, start, w, a), mirror);
    forall i | 0 <= i < w ensures Copied(row[i], d, 0, base + i * a, a) && |row[i]| == a {
      var j := Column(i, w, mirror);
      RowAt(s, start, w, a, j);
      assert ColumnDone(s, d, start, base, w, a, mirror, j);
      if mirror {
        ReverseAt(Row(s, start, w, a), i);
      }
    }
    RowIs(d, base, w, a, row);
  }

  lemma OutsideKept(d: seq<Byte>, e: seq<Byte>, lo: int, hi: int, at: nat, n: nat)
    requires SameOutside(d, e, lo, hi) && at + n <= |d| && (at + n <= lo || hi <= at)
    ensures d[at..at + n] == e[at..at + n]
  {}

  lemma OutsideGrows(c: seq<Byte>, d: seq<Byte>, e: seq<Byte>, lo: int, hi: int, from: int, to: int)
    requires SameOutside(c, d, lo, hi) && SameOutside(d, e, from, to) && lo <= from && to <= hi
    ensures SameOutside(c, e, lo, hi)
  {}

  /** The source pixel of column `j` is where it belongs. */
  predicate ColumnDone(s: seq<Byte>, d: seq<Byte>, start: nat, base: nat, w: nat, a: nat, mirror: bool, j: nat) {
    Copied(s, d, start + j * a, base + Column(j, w, mirror) * a, a)
  }

  predicate ColumnsDone(s: seq<Byte>, d: seq<Byte>, start: nat, base: nat, w: nat, a: nat, mirror: bool, n: nat) {
    forall j :: 0 <= j < n ==> ColumnDone(s, d, start, base, w, a, mirror, j)
  }

  /** A write of one pixel keeps the pixels of the other columns. */
  lemma ColumnStaysDone(s: seq<Byte>, d: seq<Byte>, e: seq<Byte>, start: nat, base: nat, w: nat, a: nat, mirror: bool, i: nat, j: nat)
    requires i != j && ColumnDone(s, d, start, base, w, a, mirror, i)
    requires SameOutside(d, e, base + Column(j, w, mirror) * a, base + Column(j, w, mirror) * a + a)
    ensures ColumnDone(s, e, start, base, w, a, mirror, i)
  {
    var m, n := Column(i, w, mirror), Column(j, w, mirror);
    if m < n { Gap(m, n, a); } else { Gap(n, m, a); }
    OutsideKept(d, e, base + n * a, base + n * a + a, base + m * a, a);
  }

  lemma ColumnStep(s: seq<Byte>, d: seq<Byte>, e: seq<Byte>, start: nat, base: nat, w: nat, a: nat, mirror: bool, j: nat)
    requires ColumnsDone(s, d, start, base, w, a, mirror, j) && ColumnDone(s, e, start, base, w, a, mirror, j)
    requires SameOutside(d, e, base + Column(j, w, mirror) * a, base + Column(j, w, mirror) * a + a)
    ensures ColumnsDone(s, e, start, base, w, a, mirror, j + 1)
  {
    forall i | 0 <= i < j ensures ColumnDone(s, e, start, base, w, a, mirror, i) {
      assert ColumnDone(s, d, start, base, w, a, mirror, i);
      ColumnStaysDone(s, d, e, start, base, w, a, mirror, i, j);
    }
  }

  function Channels(hasAlpha: bool): nat {
    if hasAlpha then 4 else 3
  }

  /** One pixel, red to alpha; the pointers end up where the next pixel is. */
  method CopyPixel(src: array<Byte>, start: int, dest: array<Byte>, base: int, hasAlpha: bool, mirror: bool) returns (sp: int, dp: int)
    requires src != dest
    requires 0 <= start && start + Channels(hasAlpha) <= src.Length
    requires 0 <= base && base + Channels(hasAlpha) <= dest.Length
    modifies dest
    ensures Copied(src[..], dest[..], start, base, Channels(hasAlpha))
    ensures SameOutside(old(dest[..]), dest[..], base, base + Channels(hasAlpha))
    ensures sp == start + Channels(hasAlpha)
    ensures dp == if mirror then base - Channels(hasAlpha) else base + Channels(hasAlpha)
  {
    sp, dp := start, base;
    dest[dp] := src[sp]; dp, sp := dp + 1, sp + 1;
    dest[dp] := src[sp]; dp, sp := dp + 1, sp + 1;
    dest[dp] := src[sp]; dp, sp := dp + 1, sp + 1;
    if hasAlpha {
      dest[dp] := src[sp]; sp := sp + 1;
      if !mirror { dp := dp + 1; }
    }
    if mirror { dp := dp - (Channels(hasAlpha) + 3); }
  }

  /** One row: `sp` walks forward over the source, `dp` forward or, when mirroring, backward pixel by pixel. */
  method CopyRow(src: array<Byte>, start: nat, dest: array<Byte>, base: nat, w: nat, hasAlpha: bool, mirror: bool)
    requires src != dest && w > 0
    requires start + w * Channels(hasAlpha) <= src.Length && base + w * Channels(hasAlpha) <= dest.Length
    modifies dest
    ensures Row(dest[..], base, w, Channels(hasAlpha)) == MirrorRow(Row(src[..], start, w, Channels(hasAlpha)), mirror)
    ensures SameOutside(old(dest[..]), dest[..], base, base + w * Channels(hasAlpha))
  {
    var a := Channels(hasAlpha);
    var sp: int, dp: int := start, base;
    if mirror { dp := dp + (w - 1) * a; }
    var j := 0;
    while j < w
      invariant 0 <= j <= w
      invariant sp == start + j * a && dp == base + Column(j, w, mirror) * a
      invariant ColumnsDone(src[..], dest[..], start, base, w, a, mirror, j)
      invariant SameOutside(old(dest[..]), dest[..], base, base + w * a)
    {
      ghost var before := dest[..];
      InsideRow(j, w, a);
      InsideRow(Column(j, w, mirror), w, a);
      NextColumn(j, w, mirror, a);
      ghost var at := dp;
      sp, dp := CopyPixel(src, sp, dest, dp, hasAlpha, mirror);
      ColumnStep(src[..], before, dest[..], start, base, w, a, mirror, j);
      OutsideGrows(old(dest[..]), before, dest[..], base, base + w * a, at, at + a);
      j := j + 1;
    }
    MirroredRowIs(src[..], dest[..], start, base, w, a, mirror);
  }

  lemma InsideRow(j: nat, w: nat, a: nat)
    requires j < w
    ensures 0 <= j * a && j * a + a <= w * a
  {
    Gap(j, w, a);
  }

  lemma NextColumn(j: nat, w: nat, mirror: bool, a: nat)
    ensures (j + 1) * a == j * a + a
    ensures Column(j + 1, w, mirror) * a == if mirror then Column(j, w, mirror) * a - a else Column(j, w, mirror) * a + a
  {}

  // The rows

  /** Row `i` of the result, for the rows done so far. */
  predicate RowDone(s: seq<Byte>, d: seq<Byte>, from: Layout, to: Layout, mirror: bool, flip: bool, i: nat)
    requires from.FitsIn(|s|) && to.FitsIn(|d|) && i < from.height == to.height
  {
    RowFits(from, |s|, i);
    RowFits(to, |d|, Line(i, to.height, flip));
    Row(d, Line(i, to.height, flip) * to.stride, to.width, to.channels)
      == MirrorRow(Row(s, i * from.stride, from.width, from.channels), mirror)
  }

  function Line(i: nat, height: nat, flip: bool): nat
    requires i < height
  {
    if flip then height - i - 1 else i
  }

  lemma RowFits(l: Layout, n: nat, i: nat)
    requires l.FitsIn(n) && i < l.height
    ensures 0 <= i * l.stride && i * l.stride + l.RowBytes() <= n
  {
    Scale(i, l.height - 1, l.stride);
    Scale(0, i, l.stride);
  }

  lemma {:induction false} RowUnchanged(d: seq<Byte>, e: seq<Byte>, at: nat, w: nat, a: nat)
    requires |d| == |e| && at + w * a <= |d|
    requires d[at..at + w * a] == e[at..at + w * a]
    ensures Row(d, at, w, a) == Row(e, at, w, a)
  {
    if w > 0 {
      Gap(w - 1, w, a);
      var m := (w - 1) * a;
      assert d[at..at + m] == d[at..at + w * a][..m] == e[at..at + m];
      RowUnchanged(d, e, at, w - 1, a);
      assert d[at + m..at + w * a] == d[at..at + w * a][m..] == e[at + m..at + w * a];
    }
  }

  predicate RowsDone(s: seq<Byte>, d: seq<Byte>, from: Layout, to: Layout, mirror: bool, flip: bool, n: nat)
    requires from.FitsIn(|s|) && to.FitsIn(|d|) && n <= from.height == to.height
  {
    forall i :: 0 <= i < n ==> RowDone(s, d, from, to, mirror, flip, i)
  }

  lemma RowStaysDone(s: seq<Byte>, d: seq<Byte>, e: seq<Byte>, from: Layout, to: Layout, mirror: bool, flip: bool, i: nat, n: nat)
    requires from.FitsIn(|s|) && to.FitsIn(|d|) && |e| == |d| && i < from.height == to.height && n < to.height && i != n
    requires RowDone(s, d, from, to, mirror, flip, i)
    requires var at := Line(n, to.height, flip) * to.stride; SameOutside(d, e, at, at + to.RowBytes())
    ensures RowDone(s, e, from, to, mirror, flip, i)
  {
    var r, t := Line(i, to.height, flip), Line(n, to.height, flip);
    RowFits(to, |d|, r);
    if r < t { Gap(r, t, to.stride); } else { Gap(t, r, to.stride); }
    OutsideKept(d, e, t * to.stride, t * to.stride + to.RowBytes(), r * to.stride, to.RowBytes());
    RowUnchanged(d, e, r * to.stride, to.width, to.channels);
  }

  lemma RowStep(s: seq<Byte>, d: seq<Byte>, e: seq<Byte>, from: Layout, to: Layout, mirror: bool, flip: bool, n: nat)
    requires from.FitsIn(|s|) && to.FitsIn(|d|) && |e| == |d| && n < from.height == to.height
    requires RowsDone(s, d, from, to, mirror, flip, n) && RowDone(s, e, from, to, mirror, flip, n)
    requires var at := Line(n, to.height, flip) * to.stride; SameOutside(d, e, at, at + to.RowBytes())
    ensures RowsDone(s, e, from, to, mirror, flip, n + 1)
  {
    forall i | 0 <= i < n ensures RowDone(s, e, from, to, mirror, flip, i) {
      RowStaysDone(s, d, e, from, to, mirror, flip, i, n);
    }
  }

  /** Padding is as it was. */
  predicate PaddingKept(d: seq<Byte>, e: seq<Byte>, l: Layout) {
    |d| == |e| && forall k :: 0 <= k < |d| && l.Padding(k) ==> d[k] == e[k]
  }

  lemma PaddingStays(c: seq<Byte>, d: seq<Byte>, e: seq<Byte>, l: Layout, line: nat)
    requires line < l.height && PaddingKept(c, d, l)
    requires SameOutside(d, e, line * l.stride, line * l.stride + l.RowBytes())
    ensures PaddingKept(c, e, l)
  {
    forall k | 0 <= k < |c| && l.Padding(k) ensures c[k] == e[k] {
      assert !l.InRow(line, k);
    }
  }

  lemma AllRowsDone(s: seq<Byte>, d: seq<Byte>, from: Layout, to: Layout, mirror: bool, flip: bool)
    requires from.FitsIn(|s|) && to.FitsIn(|d|) && from.height == to.height
    requires RowsDone(s, d, from, to, mirror, flip, to.height)
    ensures PictureIn(d, to) == Transform(PictureIn(s, from), mirror, flip)
  {
    var p, q := PictureIn(s, from), PictureIn(d, to);
    var t := Transform(p, mirror, flip);
    TransformAt(p, mirror, flip, 0);
    forall r | 0 <= r < to.height ensures q[r] == t[r] {
      var i := Line(r, to.height, flip);
      assert RowDone(s, d, from, to, mirror, flip, i);
      RowsAt(s, from, from.height, i);
      RowsAt(d, to, to.height, r);
      TransformAt(p, mirror, flip, i);
    }
  }

  /** The same byte by byte: channel c of the pixel in row i and column j of the source is found in row
      h - 1 - i if flipped and column w - 1 - j if mirrored of the destination. */
  lemma BytesLand(s: seq<Byte>, d: seq<Byte>, from: Layout, to: Layout, mirror: bool, flip: bool, i: nat, j: nat, c: nat)
    requires from.FitsIn(|s|) && to.FitsIn(|d|)
    requires from.width == to.width && from.height == to.height && from.channels == to.channels
    requires PictureIn(d, to) == Transform(PictureIn(s, from), mirror, flip)
    requires i < from.height && j < from.width && c < from.channels
    ensures var (k, l) := (if flip then from.height - 1 - i else i, if mirror then from.width - 1 - j else j);
      var (at, land) := (i * from.stride + j * from.channels + c, k * to.stride + l * to.channels + c);
      0 <= at < |s| && 0 <= land < |d| && d[land] == s[at]
  {
    var (k, l) := (if flip then from.height - 1 - i else i, if mirror then from.width - 1 - j else j);
    PixelGoesTo(PictureIn(s, from), mirror, flip, i, j);
    PixelBytes(s, from, i, j, c);
    PixelBytes(d, to, k, l, c);
  }

  lemma PixelBytes(buf: seq<Byte>, l: Layout, i: nat, j: nat, c: nat)
    requires l.FitsIn(|buf|) && i < l.height && j < l.width && c < l.channels
    ensures var at := i * l.stride + j * l.channels + c;
      0 <= at < |buf| && c < |PictureIn(buf, l)[i][j]| && PictureIn(buf, l)[i][j][c] == buf[at]
  {
    RowFits(l, |buf|, i);
    RowsAt(buf, l, l.height, i);
    RowAt(buf, i * l.stride, l.width, l.channels, j);
    Scale(0, j, l.channels);
  }

  /** The whole picture, each row copied to its place; nothing outside the rows is written. */
  method CopyMirror(src: array<Byte>, from: Layout, dest: array<Byte>, to: Layout, hasAlpha: bool, mirror: bool, flip: bool)
    requires src != dest && from.FitsIn(src.Length) && to.FitsIn(dest.Length)
    requires from.width == to.width && from.height == to.height && from.channels == to.channels == Channels(hasAlpha)
    modifies dest
    ensures PictureIn(dest[..], to) == Transform(PictureIn(src[..], from), mirror, flip)
    ensures PaddingKept(old(dest[..]), dest[..], to)
  {
    var h := from.height;
    var i := 0;
    while i < h
      invariant 0 <= i <= h
      invariant RowsDone(src[..], dest[..], from, to, mirror, flip, i)
      invariant PaddingKept(old(dest[..]), dest[..], to)
    {
      ghost var before := dest[..];
      var line := Line(i, h, flip);
      RowFits(from, src.Length, i);
      RowFits(to, dest.Length, line);
      CopyRow(src, i * from.stride, dest, line * to.stride, from.width, hasAlpha, mirror);
      RowStep(src[..], before, dest[..], from, to, mirror, flip, i);
      PaddingStays(old(dest[..]), before, dest[..], to, line);
      i := i + 1;
    }
    AllRowsDone(src[..], dest[..], from, to, mirror, flip);
  }
}
