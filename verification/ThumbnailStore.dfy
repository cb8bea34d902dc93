/** Moving, copying and deleting the stored thumbnails of URIs. */
module ThumbnailStoreSpec {
  import opened Common

  datatype Size = Large | Normal | Cropped

  /** A thumbnail file name: the digest of the URI stands for the URI itself. */
  datatype Path = Path(uri: string, size: Size, png: bool)

  type Store<Data> = map<Path, Data>

  function Get<Data>(store: Store<Data>, p: Path): Option<Data> {
    if p in store then Some(store[p]) else None
  }

  function Rename<Data>(store: Store<Data>, a: Path, b: Path): Store<Data> {
    if a in store then (store - {a})[b := store[a]] else store
  }

  function CopyFile<Data>(store: Store<Data>, a: Path, b: Path): Store<Data> {
    if a in store then store[b := store[a]] else store
  }

  function MoveFormat<Data>(s: Store<Data>, a: string, b: string, png: bool): Store<Data> {
    var s1 := Rename(s, Path(a, Large, png), Path(b, Large, png));
    var s2 := Rename(s1, Path(a, Normal, png), Path(b, Normal, png));
    Rename(s2, Path(a, Cropped, png), Path(b, Cropped, png))
  }

  function CopyFormat<Data>(s: Store<Data>, a: string, b: string, png: bool): Store<Data> {
    var s1 := CopyFile(s, Path(a, Large, png), Path(b, Large, png));
    var s2 := CopyFile(s1, Path(a, Normal, png), Path(b, Normal, png));
    CopyFile(s2, Path(a, Cropped, png), Path(b, Cropped, png))
  }

  function DeleteFormat<Data>(s: Store<Data>, a: string, png: bool): Store<Data> {
    s - {Path(a, Large, png)} - {Path(a, Normal, png)} - {Path(a, Cropped, png)}
  }

  function MoveUri<Data>(s: Store<Data>, a: string, b: string): Store<Data> {
    MoveFormat(MoveFormat(s, a, b, true), a, b, false)
  }

  function CopyUri<Data>(s: Store<Data>, a: string, b: string): Store<Data> {
    CopyFormat(CopyFormat(s, a, b, true), a, b, false)
  }

  function DeleteUri<Data>(s: Store<Data>, a: string): Store<Data> {
    DeleteFormat(DeleteFormat(s, a, true), a, false)
  }

  /** The first n pairs moved, in order. */
  function MoveFirst<Data>(s: Store<Data>, from: seq<string>, to: seq<string>, n: nat): Store<Data>
    requires n <= |from| && n <= |to|
  {
    if n == 0 then s else MoveUri(MoveFirst(s, from, to, n - 1), from[n - 1], to[n - 1])
  }

  function CopyFirst<Data>(s: Store<Data>, from: seq<string>, to: seq<string>, n: nat): Store<Data>
    requires n <= |from| && n <= |to|
  {
    if n == 0 then s else CopyUri(CopyFirst(s, from, to, n - 1), from[n - 1], to[n - 1])
  }

  function DeleteFirst<Data>(s: Store<Data>, uris: seq<string>, n: nat): Store<Data>
    requires n <= |uris|
  {
    if n == 0 then s else DeleteUri(DeleteFirst(s, uris, n - 1), uris[n - 1])
  }

  /** Pairs are taken until either list ends. */
  function Pairs(from: seq<string>, to: seq<string>): nat {
    if |from| <= |to| then |from| else |to|
  }

  function Move<Data>(s: Store<Data>, from: seq<string>, to: seq<string>): Store<Data> {
    MoveFirst(s, from, to, Pairs(from, to))
  }

  function Copy<Data>(s: Store<Data>, from: seq<string>, to: seq<string>): Store<Data> {
    CopyFirst(s, from, to, Pairs(from, to))
  }

  function Delete<Data>(s: Store<Data>, uris: seq<string>): Store<Data> {
    DeleteFirst(s, uris, |uris|)
  }

  // ---------------------------------------------------------------- one URI

  lemma SameFiles<Data>(s: Store<Data>, t: Store<Data>)
    requires forall p :: Get(s, p) == Get(t, p)
    ensures s == t
  {
    forall p ensures p in s <==> p in t {
      assert Get(s, p) == Get(t, p);
    }
    forall p | p in s ensures s[p] == t[p] {
      assert Get(s, p) == Get(t, p);
    }
  }

  lemma MoveFormatAt<Data>(s: Store<Data>, a: string, b: string, png: bool, p: Path)
    requires a != b
    ensures Get(MoveFormat(s, a, b, png), p) ==
      if p.png != png then Get(s, p)
      else if p.uri == a then None
      else if p.uri == b && Get(s, p.(uri := a)).Some? then Get(s, p.(uri := a))
      else Get(s, p)
  {
    match p.size
    case Large =>
    case Normal =>
    case Cropped =>
  }

  lemma MoveUriAt<Data>(s: Store<Data>, a: string, b: string, p: Path)
    requires a != b
    ensures Get(MoveUri(s, a, b), p) ==
      if p.uri == a then None
      else if p.uri == b && Get(s, p.(uri := a)).Some? then Get(s, p.(uri := a))
      else Get(s, p)
  {
    var s1 := MoveFormat(s, a, b, true);
    MoveFormatAt(s, a, b, true, p);
    MoveFormatAt(s, a, b, true, p.(uri := a));
    MoveFormatAt(s1, a, b, false, p);
  }

  lemma CopyFormatAt<Data>(s: Store<Data>, a: string, b: string, png: bool, p: Path)
    requires a != b
    ensures Get(CopyFormat(s, a, b, png), p) ==
      if p.png == png && p.uri == b && Get(s, p.(uri := a)).Some? then Get(s, p.(uri := a)) else Get(s, p)
  {
    match p.size
    case Large =>
    case Normal =>
    case Cropped =>
  }

  lemma CopyUriAt<Data>(s: Store<Data>, a: string, b: string, p: Path)
    requires a != b
    ensures Get(CopyUri(s, a, b), p) ==
      if p.uri == b && Get(s, p.(uri := a)).Some? then Get(s, p.(uri := a)) else Get(s, p)
  {
    var s1 := CopyFormat(s, a, b, true);
    CopyFormatAt(s, a, b, true, p);
    CopyFormatAt(s, a, b, true, p.(uri := a));
    CopyFormatAt(s1, a, b, false, p);
  }

  lemma DeleteUriAt<Data>(s: Store<Data>, a: string, p: Path)
    ensures Get(DeleteUri(s, a), p) == if p.uri == a then None else Get(s, p)
  {
    match p.size
    case Large =>
    case Normal =>
    case Cropped =>
  }

  lemma {:induction false} DeleteFirstAt<Data>(s: Store<Data>, uris: seq<string>, n: nat, p: Path)
    requires n <= |uris|
    ensures Get(DeleteFirst(s, uris, n), p) == if p.uri in uris[..n] then None else Get(s, p)
  {
    if n > 0 {
      DeleteFirstAt(s, uris, n - 1, p);
      DeleteUriAt(DeleteFirst(s, uris, n - 1), uris[n - 1], p);
      assert uris[..n] == uris[..n - 1] + [uris[n - 1]];
    }
  }

  // ---------------------------------------------------------------- main results

  predicate Disjoint(from: seq<string>, to: seq<string>) {
    forall i, j :: 0 <= i < |from| && 0 <= j < |to| ==> from[i] != to[j]
  }

  lemma {:induction false} MovedSoFar<Data>(s: Store<Data>, from: seq<string>, to: seq<string>, n: nat, p: Path)
    requires n <= |from| && n <= |to| && Distinct(from) && Disjoint(from, to)
    ensures Get(MoveFirst(s, from, to, n), p) ==
      if p.uri in from[..n] then None else Get(CopyFirst(s, from, to, n), p)
  {
    if n > 0 {
      var a, b := from[n - 1], to[n - 1];
      var m, c := MoveFirst(s, from, to, n - 1), CopyFirst(s, from, to, n - 1);
      assert from[..n] == from[..n - 1] + [a];
      assert a !in from[..n - 1] && b !in from[..n - 1];
      MovedSoFar(s, from, to, n - 1, p);
      MovedSoFar(s, from, to, n - 1, p.(uri := a));
      MoveUriAt(m, a, b, p);
      CopyUriAt(c, a, b, p);
    }
  }

  /** Copying and then deleting the sources that were copied is moving. */
  lemma CopyThenDeleteIsMove<Data>(s: Store<Data>, from: seq<string>, to: seq<string>)
    requires Distinct(from) && Disjoint(from, to)
    ensures var n := if |from| < |to| then |from| else |to|;
      Delete(Copy(s, from, to), from[..n]) == Move(s, from, to)
  {
    var n := Pairs(from, to);
    forall p ensures Get(Delete(Copy(s, from, to), from[..n]), p) == Get(Move(s, from, to), p) {
      MovedSoFar(s, from, to, n, p);
      DeleteFirstAt(Copy(s, from, to), from[..n], n, p);
      assert from[..n][..n] == from[..n];
    }
    SameFiles(Delete(Copy(s, from, to), from[..n]), Move(s, from, to));
  }

  /** Files of every other URI are left alone by all three operations, whatever the lists. */
  lemma {:induction false} OthersUntouched<Data>(s: Store<Data>, from: seq<string>, to: seq<string>, n: nat, p: Path)
    requires n <= |from| && n <= |to|
    requires p.uri !in from && p.uri !in to
    ensures Get(MoveFirst(s, from, to, n), p) == Get(s, p)
    ensures Get(CopyFirst(s, from, to, n), p) == Get(s, p)
    ensures Get(DeleteFirst(s, from, n), p) == Get(s, p)
  {
    if n > 0 {
      OthersUntouched(s, from, to, n - 1, p);
      var a, b := from[n - 1], to[n - 1];
      if a == b {
        SameUriIsNoOp(MoveFirst(s, from, to, n - 1), a);
        SameUriIsNoOp(CopyFirst(s, from, to, n - 1), a);
      } else {
        MoveUriAt(MoveFirst(s, from, to, n - 1), a, b, p);
        CopyUriAt(CopyFirst(s, from, to, n - 1), a, b, p);
      }
      DeleteUriAt(DeleteFirst(s, from, n - 1), a, p);
    }
  }

  lemma SameUriIsNoOp<Data>(s: Store<Data>, a: string)
    ensures MoveUri(s, a, a) == s && CopyUri(s, a, a) == s
  {
    forall x: Store<Data>, p: Path ensures Rename(x, p, p) == x && CopyFile(x, p, p) == x {}
  }

  /** Where each file is after moving: at its target, if it had one. */
  lemma {:induction false} MoveAt<Data>(s: Store<Data>, from: seq<string>, to: seq<string>, n: nat, p: Path)
    requires n <= |from| && n <= |to| && Distinct(from) && Distinct(to) && Disjoint(from, to)
    ensures var t := MoveFirst(s, from, to, n);
      && (p.uri in from[..n] ==> Get(t, p) == None)
      && (forall j :: 0 <= j < n && p.uri == to[j] ==>
            Get(t, p) == if Get(s, p.(uri := from[j])).Some? then Get(s, p.(uri := from[j])) else Get(s, p))
      && (p.uri !in from[..n] && p.uri !in to[..n] ==> Get(t, p) == Get(s, p))
  {
    if n > 0 {
      var a, b := from[n - 1], to[n - 1];
      assert from[..n] == from[..n - 1] + [a] && to[..n] == to[..n - 1] + [b];
      assert a !in from[..n - 1] && b !in to[..n - 1] && b !in from[..n - 1] && a !in to[..n - 1];
      MoveAt(s, from, to, n - 1, p);
      MoveAt(s, from, to, n - 1, p.(uri := a));
      MoveUriAt(MoveFirst(s, from, to, n - 1), a, b, p);
    }
  }

  /** Every pair of the lists is moved: no file of the source is left, and each file of the target is the
      source's, or its own where the source had none. */
  lemma EveryPairIsMoved<Data>(s: Store<Data>, from: seq<string>, to: seq<string>, j: nat, p: Path)
    requires Distinct(from) && Distinct(to) && Disjoint(from, to) && j < |from| && j < |to|
    ensures p.uri == from[j] ==> Get(Move(s, from, to), p) == None
    ensures p.uri == to[j] && p.(uri := from[j]) in s ==> Get(Move(s, from, to), p) == Some(s[p.(uri := from[j])])
    ensures p.uri == to[j] && p.(uri := from[j]) !in s ==> Get(Move(s, from, to), p) == Get(s, p)
  {
    var n := Pairs(from, to);
    MoveAt(s, from, to, n, p);
    assert from[j] == from[..n][j] && to[j] == to[..n][j];
  }

  /** Every pair of the lists is copied: the sources stay, and each file of the target is the source's, or
      its own where the source had none. */
  lemma EveryPairIsCopied<Data>(s: Store<Data>, from: seq<string>, to: seq<string>, j: nat, p: Path)
    requires Distinct(to) && Disjoint(from, to) && j < |from| && j < |to|
    ensures p.uri == from[j] ==> Get(Copy(s, from, to), p) == Get(s, p)
    ensures p.uri == to[j] && p.(uri := from[j]) in s ==> Get(Copy(s, from, to), p) == Some(s[p.(uri := from[j])])
    ensures p.uri == to[j] && p.(uri := from[j]) !in s ==> Get(Copy(s, from, to), p) == Get(s, p)
  {
    if p.uri == from[j] {
      CopyKeeps(s, from, to, Pairs(from, to), p);
    } else if p.uri == to[j] {
      CopyPuts(s, from, to, Pairs(from, to), j, p);
    }
  }

  lemma {:induction false} CopyKeeps<Data>(s: Store<Data>, from: seq<string>, to: seq<string>, n: nat, p: Path)
    requires n <= |from| && n <= |to| && Disjoint(from, to) && p.uri !in to[..n]
    ensures Get(CopyFirst(s, from, to, n), p) == Get(s, p)
  {
    if n > 0 {
      assert to[..n] == to[..n - 1] + [to[n - 1]];
      CopyKeeps(s, from, to, n - 1, p);
      CopyUriAt(CopyFirst(s, from, to, n - 1), from[n - 1], to[n - 1], p);
    }
  }

  lemma {:induction false} CopyPuts<Data>(s: Store<Data>, from: seq<string>, to: seq<string>, n: nat, j: nat, p: Path)
    requires j < n && n <= |from| && n <= |to| && Distinct(to) && Disjoint(from, to) && p.uri == to[j]
    ensures Get(CopyFirst(s, from, to, n), p) ==
      if Get(s, p.(uri := from[j])).Some? then Get(s, p.(uri := from[j])) else Get(s, p)
  {
    CopyUriAt(CopyFirst(s, from, to, n - 1), from[n - 1], to[n - 1], p);
    if j < n - 1 {
      CopyPuts(s, from, to, n - 1, j, p);
    } else {
      CopyKeeps(s, from, to, n - 1, p);
      CopyKeeps(s, from, to, n - 1, p.(uri := from[j]));
    }
  }

  /** What no pair names is untouched, however the lists overlap; so is what stands past the shorter one. */
  lemma UnpairedUntouched<Data>(s: Store<Data>, from: seq<string>, to: seq<string>, p: Path)
    requires forall j :: 0 <= j < |from| && j < |to| ==> from[j] != p.uri && to[j] != p.uri
    ensures Get(Move(s, from, to), p) == Get(s, p) && Get(Copy(s, from, to), p) == Get(s, p)
  {
    var n := Pairs(from, to);
    PrefixOnly(s, from, to, n);
    OthersUntouched(s, from[..n], to[..n], n, p);
  }

  lemma {:induction false} PrefixOnly<Data>(s: Store<Data>, from: seq<string>, to: seq<string>, n: nat)
    requires n <= |from| && n <= |to|
    ensures MoveFirst(s, from, to, n) == MoveFirst(s, from[..n], to[..n], n)
    ensures CopyFirst(s, from, to, n) == CopyFirst(s, from[..n], to[..n], n)
    decreases n
  {
    if n > 0 {
      PrefixOnly(s, from, to, n - 1);
      PrefixOnly(s, from[..n], to[..n], n - 1);
      assert from[..n][..n - 1] == from[..n - 1] && to[..n][..n - 1] == to[..n - 1];
    }
  }

  /** Pairs are served one after the other, so what an earlier pair left is what a later one finds. */
  lemma {:induction false} OneMorePair<Data>(s: Store<Data>, from: seq<string>, to: seq<string>, a: string, b: string)
    requires |from| == |to|
    ensures Move(s, from + [a], to + [b]) == MoveUri(Move(s, from, to), a, b)
    ensures Copy(s, from + [a], to + [b]) == CopyUri(Copy(s, from, to), a, b)
    ensures Move(s, [], to) == s && Copy(s, [], to) == s
  {
    PrefixOnly(s, from + [a], to + [b], |from|);
    assert (from + [a])[..|from|] == from && (to + [b])[..|to|] == to;
    assert from[..|from|] == from && to[..|to|] == to;
  }

  /** Deleting takes every file of every listed URI and nothing else. */
  lemma DeleteAt<Data>(s: Store<Data>, uris: seq<string>, p: Path)
    ensures Get(Delete(s, uris), p) == if p.uri in uris then None else Get(s, p)
  {
    DeleteFirstAt(s, uris, |uris|, p);
    assert uris[..|uris|] == uris;
  }

  /** Moving to fresh, distinct targets and back changes nothing. */
  lemma {:induction false} MoveBack<Data>(s: Store<Data>, from: seq<string>, to: seq<string>)
    requires |from| == |to| && Distinct(from) && Distinct(to) && Disjoint(from, to)
    requires forall p :: p in s ==> p.uri !in to
    ensures Move(Move(s, from, to), to, from) == s
  {
    forall p ensures Get(Move(Move(s, from, to), to, from), p) == Get(s, p) {
      MovedBackAt(s, from, to, p);
    }
    SameFiles(Move(Move(s, from, to), to, from), s);
  }

  lemma {:induction false} MovedBackAt<Data>(s: Store<Data>, from: seq<string>, to: seq<string>, p: Path)
    requires |from| == |to| && Distinct(from) && Distinct(to) && Disjoint(from, to)
    requires forall p :: p in s ==> p.uri !in to
    ensures Get(Move(Move(s, from, to), to, from), p) == Get(s, p)
  {
    var t := Move(s, from, to);
    if p.uri in from {
      var j :| 0 <= j < |from| && from[j] == p.uri;
      EveryPairIsMoved(t, to, from, j, p);
      EveryPairIsMoved(s, from, to, j, p.(uri := to[j]));
      EveryPairIsMoved(s, from, to, j, p);
      assert p.(uri := to[j]).(uri := from[j]) == p;
    } else if p.uri in to {
      var j :| 0 <= j < |to| && to[j] == p.uri;
      EveryPairIsMoved(t, to, from, j, p);
    } else {
      UnpairedUntouched(t, to, from, p);
      UnpairedUntouched(s, from, to, p);
    }
  }
}

/** The D-Bus operations over the file store. */
module ThumbnailStore {
  import opened Common
  import opened ThumbnailStoreSpec

  class Files<Data> {
    var files: Store<Data>

    constructor (files: Store<Data>)
      ensures this.files == files
    {
      this.files := files;
    }

    method MoveThumbnails(from: seq<string>, to: seq<string>)
      modifies this
      ensures files == Move(old(files), from, to)
    {
      var i := 0;
      while i < |from| && i < |to|
        invariant 0 <= i <= Pairs(from, to)
        invariant files == MoveFirst(old(files), from, to, i)
        decreases |from| - i
      {
        var y := 0;
        ghost var before := files;
        while y < 2
          invariant 0 <= y <= 2
          invariant files == if y == 0 then before else if y == 1 then MoveFormat(before, from[i], to[i], true)
                             else MoveUri(before, from[i], to[i])
        {
          var png := y == 0;
          files := Rename(files, Path(from[i], Large, png), Path(to[i], Large, png));
          files := Rename(files, Path(from[i], Normal, png), Path(to[i], Normal, png));
          files := Rename(files, Path(from[i], Cropped, png), Path(to[i], Cropped, png));
          y := y + 1;
        }
        i := i + 1;
      }
    }

    method CopyThumbnails(from: seq<string>, to: seq<string>)
      modifies this
      ensures files == Copy(old(files), from, to)
    {
      var i := 0;
      while i < |from| && i < |to|
        invariant 0 <= i <= Pairs(from, to)
        invariant files == CopyFirst(old(files), from, to, i)
        decreases |from| - i
      {
        var y := 0;
        ghost var before := files;
        while y < 2
          invariant 0 <= y <= 2
          invariant files == if y == 0 then before else if y == 1 then CopyFormat(before, from[i], to[i], true)
                             else CopyUri(before, from[i], to[i])
        {
          var png := y == 0;
          files := CopyFile(files, Path(from[i], Large, png), Path(to[i], Large, png));
          files := CopyFile(files, Path(from[i], Normal, png), Path(to[i], Normal, png));
          files := CopyFile(files, Path(from[i], Cropped, png), Path(to[i], Cropped, png));
          y := y + 1;
        }
        i := i + 1;
      }
    }

    method DeleteThumbnails(uris: seq<string>)
      modifies this
      ensures files == Delete(old(files), uris)
    {
      var i := 0;
      while i < |uris|
        invariant 0 <= i <= |uris|
        invariant files == DeleteFirst(old(files), uris, i)
      {
        var y := 0;
        ghost var before := files;
        while y < 2
          invariant 0 <= y <= 2
          invariant files == if y == 0 then before else if y == 1 then DeleteFormat(before, uris[i], true)
                             else DeleteUri(before, uris[i])
        {
          var png := y == 0;
          files := files - {Path(uris[i], Large, png)};
          files := files - {Path(uris[i], Normal, png)};
          files := files - {Path(uris[i], Cropped, png)};
          y := y + 1;
        }
        i := i + 1;
      }
    }
  }
}
