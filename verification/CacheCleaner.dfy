/** Eviction from the thumbnail cache: newest files are kept, up to a size and an age limit. */
module CacheCleanerSpec {
  import opened Common

  const INT_LIMIT: int := 0x8000_0000
  const UINT64_MODULUS: int := 0x1_0000_0000_0000_0000

  datatype CacheFile = CacheFile(file: string, mtime: nat, size: nat)

  /** Conversion to a C `int`. */
  function ToInt(x: nat): (r: int)
    ensures -INT_LIMIT <= r < INT_LIMIT
    ensures x < INT_LIMIT ==> r == x
  {
    var m := x % UINT_MODULUS;
    if m < INT_LIMIT then m else m - UINT_MODULUS
  }

  /** `min_mtime`, a `time_t`, as the comparison with a `guint64` sees it. */
  function Threshold(minMtime: int): nat {
    minMtime % UINT64_MODULUS
  }

  /** The comparator handed to the sort. */
  function Compare(a: CacheFile, b: CacheFile): int {
    if b.mtime == a.mtime then 0 else if b.mtime < a.mtime then -1 else 1
  }

  /** What the sort guarantees; files with equal times may come in any order. */
  predicate Sorted(s: seq<CacheFile>) {
    forall i, j :: 0 <= i < j < |s| ==> Compare(s[i], s[j]) <= 0
  }

  /** The C accumulator after the first `n` files. */
  function Accumulated(s: seq<CacheFile>, n: nat): int
    requires n <= |s|
  {
    if n == 0 then 0 else ToInt((Accumulated(s, n - 1) + s[n - 1].size) % UINT64_MODULUS)
  }

  predicate Doomed(s: seq<CacheFile>, k: nat, maxSize: int, minMtime: int)
    requires k < |s|
  {
    (maxSize >= 0 && Accumulated(s, k + 1) >= maxSize) || s[k].mtime < Threshold(minMtime)
  }

  function Unlinked(s: seq<CacheFile>, n: nat, maxSize: int, minMtime: int): seq<string>
    requires n <= |s|
  {
    if n == 0 then []
    else Unlinked(s, n - 1, maxSize, minMtime) + if Doomed(s, n - 1, maxSize, minMtime) then [s[n - 1].file] else []
  }

  // The intended result, in unbounded arithmetic

  /** Bytes in the first `n` files. */
  function Bytes(s: seq<CacheFile>, n: nat): nat
    requires n <= |s|
  {
    if n == 0 then 0 else Bytes(s, n - 1) + s[n - 1].size
  }

  function Names(s: seq<CacheFile>): seq<string> {
    seq(|s|, i requires 0 <= i < |s| => s[i].file)
  }

  /** The limits allow keeping the first `n` files. */
  predicate Allowed(s: seq<CacheFile>, n: nat, maxSize: int, minMtime: int)
    requires n <= |s|
  {
    (n > 0 && maxSize >= 0 ==> Bytes(s, n) < maxSize) &&
    forall k :: 0 <= k < n ==> s[k].mtime >= Threshold(minMtime)
  }

  /** `c` cuts off the longest prefix the limits allow. */
  predicate LongestAllowed(s: seq<CacheFile>, c: nat, maxSize: int, minMtime: int) {
    c <= |s| && Allowed(s, c, maxSize, minMtime) &&
    forall n :: c < n <= |s| ==> !Allowed(s, n, maxSize, minMtime)
  }

  /** No young file sits where the running total has outgrown the limit but its `int` has wrapped below it. */
  predicate NoWrap(s: seq<CacheFile>, maxSize: int, minMtime: int) {
    maxSize >= 0 ==>
      forall k :: 0 <= k < |s| && s[k].mtime >= Threshold(minMtime) ==>
        Bytes(s, k + 1) < maxSize || maxSize <= Bytes(s, k + 1) % UINT_MODULUS < INT_LIMIT
  }

  /** Exactly the files from index `c` on are removed. */
  predicate CutsAt(s: seq<CacheFile>, c: nat, maxSize: int, minMtime: int) {
    c <= |s| && forall k :: 0 <= k < |s| ==> (Doomed(s, k, maxSize, minMtime) <==> k >= c)
  }

  lemma AddWraps(b: nat, acc: int, size: nat)
    requires acc == ToInt(b)
    ensures ToInt((acc + size) % UINT64_MODULUS) == ToInt(b + size)
  {
    var q := (acc + size) / UINT64_MODULUS;
    var p := (b - acc) / UINT_MODULUS;
    assert b - acc == p * UINT_MODULUS;
    var x, y := (acc + size) % UINT64_MODULUS, b + size;
    assert x == acc + size - q * UINT64_MODULUS;
    assert y - x == (p + q * UINT_MODULUS) * UINT_MODULUS;
    SameResidue(x, y, p + q * UINT_MODULUS);
  }

  lemma SameResidue(x: nat, y: nat, d: int)
    requires y - x == d * UINT_MODULUS
    ensures x % UINT_MODULUS == y % UINT_MODULUS
  {}

  /** The accumulator is the number of bytes so far, wrapped once. */
  lemma {:induction false} AccumulatedIsWrappedTotal(s: seq<CacheFile>, n: nat)
    requires n <= |s|
    ensures Accumulated(s, n) == ToInt(Bytes(s, n))
  {
    if n > 0 {
      AccumulatedIsWrappedTotal(s, n - 1);
      AddWraps(Bytes(s, n - 1), Accumulated(s, n - 1), s[n - 1].size);
    }
  }

  lemma {:induction false} BytesGrow(s: seq<CacheFile>, m: nat, n: nat)
    requires m <= n <= |s|
    ensures Bytes(s, m) <= Bytes(s, n)
    decreases n
  {
    if m < n {
      BytesGrow(s, m, n - 1);
    }
  }

  lemma CompareIsNewestFirst(s: seq<CacheFile>)
    ensures Sorted(s) <==> forall i, j :: 0 <= i < j < |s| ==> s[i].mtime >= s[j].mtime
  {
    if Sorted(s) {
      forall i, j | 0 <= i < j < |s| ensures s[i].mtime >= s[j].mtime {
        assert Compare(s[i], s[j]) <= 0;
      }
    }
  }

  lemma AllowedShrinks(s: seq<CacheFile>, m: nat, n: nat, maxSize: int, minMtime: int)
    requires m <= n <= |s| && Allowed(s, n, maxSize, minMtime)
    ensures Allowed(s, m, maxSize, minMtime)
  {
    BytesGrow(s, m, n);
  }

  /** A file the limits allow is never removed, wrapped or not: below the limit nothing wraps. */
  lemma AllowedIsKept(s: seq<CacheFile>, k: nat, maxSize: int, minMtime: int)
    requires k < |s| && maxSize < INT_LIMIT && Allowed(s, k + 1, maxSize, minMtime)
    ensures !Doomed(s, k, maxSize, minMtime)
  {
    AccumulatedIsWrappedTotal(s, k + 1);
  }

  /** Past the allowed prefix a file is removed exactly if it is old or the accumulator has not wrapped below the limit. */
  lemma BeyondIsRemoved(s: seq<CacheFile>, k: nat, maxSize: int, minMtime: int)
    requires Sorted(s) && k < |s| && maxSize < INT_LIMIT && !Allowed(s, k + 1, maxSize, minMtime)
    ensures Doomed(s, k, maxSize, minMtime) <==>
      s[k].mtime < Threshold(minMtime) || maxSize <= Bytes(s, k + 1) % UINT_MODULUS < INT_LIMIT
    ensures s[k].mtime >= Threshold(minMtime) ==> maxSize >= 0 && Bytes(s, k + 1) >= maxSize
  {
    CompareIsNewestFirst(s);
    AccumulatedIsWrappedTotal(s, k + 1);
  }

  lemma {:induction false} LongestExists(s: seq<CacheFile>, n: nat, maxSize: int, minMtime: int) returns (c: nat)
    requires n <= |s| && forall m :: n < m <= |s| ==> !Allowed(s, m, maxSize, minMtime)
    ensures LongestAllowed(s, c, maxSize, minMtime)
  {
    if Allowed(s, n, maxSize, minMtime) {
      c := n;
    } else {
      c := LongestExists(s, n - 1, maxSize, minMtime);
    }
  }

  lemma KeptOrNot(s: seq<CacheFile>, c: nat, k: nat, maxSize: int, minMtime: int)
    requires LongestAllowed(s, c, maxSize, minMtime) && k < |s|
    ensures Allowed(s, k + 1, maxSize, minMtime) <==> k < c
  {
    if k < c {
      AllowedShrinks(s, k + 1, c, maxSize, minMtime);
    }
  }

  /** The cleaner keeps exactly the longest prefix, newest first, that the limits allow, if and only if
      no running total wraps back below the limit. */
  lemma KeepsLongestPrefix(s: seq<CacheFile>, c: nat, maxSize: int, minMtime: int)
    requires Sorted(s) && maxSize < INT_LIMIT && LongestAllowed(s, c, maxSize, minMtime)
    ensures CutsAt(s, c, maxSize, minMtime) <==> NoWrap(s, maxSize, minMtime)
  {
    forall k | 0 <= k < |s|
      ensures k < c ==> !Doomed(s, k, maxSize, minMtime)
      ensures k < c && maxSize >= 0 ==> Bytes(s, k + 1) < maxSize
      ensures k >= c ==> (Doomed(s, k, maxSize, minMtime) <==>
        s[k].mtime < Threshold(minMtime) || maxSize <= Bytes(s, k + 1) % UINT_MODULUS < INT_LIMIT)
      ensures k >= c && s[k].mtime >= Threshold(minMtime) ==> maxSize >= 0 && Bytes(s, k + 1) >= maxSize
    {
      KeptOrNot(s, c, k, maxSize, minMtime);
      if k < c {
        AllowedIsKept(s, k, maxSize, minMtime);
      } else {
        BeyondIsRemoved(s, k, maxSize, minMtime);
      }
    }
  }

  /** A cache below 2^31 bytes never wraps. */
  lemma SmallCacheDoesNotWrap(s: seq<CacheFile>, maxSize: int, minMtime: int)
    requires Bytes(s, |s|) < INT_LIMIT
    ensures NoWrap(s, maxSize, minMtime)
  {
    forall n | 0 <= n <= |s| ensures Bytes(s, n) < INT_LIMIT {
      BytesGrow(s, n, |s|);
    }
  }

  lemma {:induction false} UnlinkedAtCut(s: seq<CacheFile>, n: nat, c: nat, maxSize: int, minMtime: int)
    requires n <= |s| && CutsAt(s, c, maxSize, minMtime)
    ensures Unlinked(s, n, maxSize, minMtime) == if n <= c then [] else Names(s[c..n])
  {
    if n > 0 {
      UnlinkedAtCut(s, n - 1, c, maxSize, minMtime);
    }
  }

  /** The first `c` files obey both limits, in plain numbers. */
  predicate Obeys(s: seq<CacheFile>, c: nat, maxSize: int, minMtime: int)
    requires c <= |s|
  {
    (c > 0 && maxSize >= 0 ==> Bytes(s, c) < maxSize) && forall k :: 0 <= k < c ==> s[k].mtime >= minMtime
  }

  /** What is removed and what stays: the removed files are a suffix, none newer than a kept one; the kept
      ones obey both limits; keeping one more would break a limit. */
  lemma CleanedCache(s: seq<CacheFile>, maxSize: int, minMtime: int) returns (c: nat)
    requires Sorted(s) && maxSize < INT_LIMIT && Bytes(s, |s|) < INT_LIMIT
    ensures c <= |s| && Unlinked(s, |s|, maxSize, minMtime) == Names(s[c..])
    ensures c > 0 && maxSize >= 0 ==> Bytes(s, c) < maxSize
    ensures forall k :: 0 <= k < c ==> s[k].mtime >= Threshold(minMtime)
    ensures 0 <= minMtime < 0x8000_0000_0000_0000 ==> Obeys(s, c, maxSize, minMtime) && (c < |s| ==> !Obeys(s, c + 1, maxSize, minMtime))
    ensures forall i, j :: 0 <= i < c <= j < |s| ==> s[j].mtime <= s[i].mtime
    ensures c < |s| ==> (maxSize >= 0 && Bytes(s, c + 1) >= maxSize) || s[c].mtime < Threshold(minMtime)
  {
    c := LongestExists(s, |s|, maxSize, minMtime);
    SmallCacheDoesNotWrap(s, maxSize, minMtime);
    KeepsLongestPrefix(s, c, maxSize, minMtime);
    UnlinkedAtCut(s, |s|, c, maxSize, minMtime);
    assert s[c..|s|] == s[c..];
    CompareIsNewestFirst(s);
    if c < |s| {
      BeyondIsRemoved(s, c, maxSize, minMtime);
    }
    if 0 <= minMtime < 0x8000_0000_0000_0000 {
      ThresholdIs(minMtime);
    }
  }

  /** An age limit that is not negative is taken as it is; a negative one is taken 2^64 too high. */
  lemma ThresholdIs(minMtime: int)
    requires -0x8000_0000_0000_0000 <= minMtime < 0x8000_0000_0000_0000
    ensures Threshold(minMtime) == if minMtime >= 0 then minMtime else minMtime + 0x1_0000_0000_0000_0000
  {}

  /** So a limit before 1970, which no file is older than, removes every file. */
  lemma {:induction false} NegativeLimitRemovesAll(s: seq<CacheFile>, n: nat, maxSize: int, minMtime: int)
    requires n <= |s| && -0x8000_0000_0000_0000 <= minMtime < 0 && forall k :: 0 <= k < n ==> s[k].mtime < 0x8000_0000_0000_0000
    ensures Unlinked(s, n, maxSize, minMtime) == Names(s[..n])
  {
    if n > 0 {
      NegativeLimitRemovesAll(s, n - 1, maxSize, minMtime);
      ThresholdIs(minMtime);
    }
  }

  /** Past 2^31 bytes the accumulator turns negative and everything young survives the size limit. */
  lemma WrappedCacheIsKept(name: string)
    ensures var s := [CacheFile(name, 1, 0x8000_0000)];
      Sorted(s) && Unlinked(s, 1, 1000, 0) == [] && !LongestAllowed(s, 1, 1000, 0)
  {
    var s := [CacheFile(name, 1, 0x8000_0000)];
    assert Accumulated(s, 1) == ToInt((Accumulated(s, 0) + s[0].size) % UINT64_MODULUS);
  }
}

/** The scan over the sorted array. */
module CacheCleaner {
  import opened CacheCleanerSpec

  /** `files` is the array after the sort; the result lists the paths unlinked, in order. */
  method CleanCache(files: array<CacheFile>, maxSize: int, minMtime: int) returns (unlinked: seq<string>)
    requires Sorted(files[..])
    ensures unlinked == Unlinked(files[..], files.Length, maxSize, minMtime)
  {
    unlinked := [];
    var size := 0;
    var i := 0;
    while i < files.Length
      invariant 0 <= i <= files.Length
      invariant size == Accumulated(files[..], i)
      invariant unlinked == Unlinked(files[..], i, maxSize, minMtime)
    {
      var item := files[i];
      assert files[..][i] == item;
      size := ToInt((size + item.size) % UINT64_MODULUS);
      if (maxSize >= 0 && size >= maxSize) || item.mtime < Threshold(minMtime) {
        unlinked := unlinked + [item.file];
      }
      i := i + 1;
    }
  }
}
