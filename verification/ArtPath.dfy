/** Where the art for a pair of names is kept. */
module ArtPathSpec {
  import opened Common
  import opened NameStripSpec

  const DIGEST_LENGTH: nat := 32

  /** The name as it is hashed; an absent one stands as a single space. */
  function Hashed(name: Option<string>, lower: char -> char): string {
    var stripped := match name case None => " " case Some(s) => Strip(s, lower);
    Lower(stripped, lower)
  }

  /** The normal form of a name that is present. */
  function Normal(name: Option<string>, lower: char -> char): Option<string> {
    match name case None => None case Some(s) => Some(Strip(s, lower))
  }

  function Kind(prefix: Option<string>): string {
    match prefix case None => "album" case Some(p) => p
  }

  function WithoutSlashes(name: string): string {
    if name != [] && name[0] == '/' then WithoutSlashes(name[1..]) else name
  }

  /** Joins a directory and a file name with one slash. */
  function BuildFilename(dir: string, name: string): string {
    dir + "/" + WithoutSlashes(name)
  }

  function FileName(kind: string, h1: string, h2: string): string {
    kind + "-" + h1 + "-" + h2 + ".jpeg"
  }

  /** The path of the art, if there is any name at all. */
  function ArtPath(a: Option<string>, b: Option<string>, prefix: Option<string>, dir: string,
      md5: string -> string, lower: char -> char): Option<string> {
    if a.None? && b.None? then None
    else Some(BuildFilename(dir, FileName(Kind(prefix), md5(Hashed(a, lower)), md5(Hashed(b, lower)))))
  }

  /** `md5` gives digests, different ones for these two names. */
  predicate Digests(md5: string -> string, x: string, y: string) {
    |md5(x)| == DIGEST_LENGTH && |md5(y)| == DIGEST_LENGTH && (md5(x) == md5(y) ==> x == y)
  }

  lemma SuffixEqual(p: string, q: string, s: string, t: string)
    requires |s| == |t| || |p| == |q|
    ensures p + s == q + t <==> p == q && s == t
  {
    if p + s == q + t {
      assert |p| + |s| == |q| + |t|;
      assert p == (p + s)[..|p|] && q == (q + t)[..|q|];
      assert s == (p + s)[|p|..] && t == (q + t)[|q|..];
    }
  }

  lemma FileNamesDiffer(k1: string, k2: string, h1: string, h2: string, g1: string, g2: string)
    requires |h1| == |h2| == |g1| == |g2|
    ensures FileName(k1, h1, h2) == FileName(k2, g1, g2) <==> k1 == k2 && h1 == g1 && h2 == g2
  {
    SuffixEqual(k1 + "-" + h1 + "-" + h2, k2 + "-" + g1 + "-" + g2, ".jpeg", ".jpeg");
    SuffixEqual(k1 + "-" + h1 + "-", k2 + "-" + g1 + "-", h2, g2);
    SuffixEqual(k1 + "-" + h1, k2 + "-" + g1, "-", "-");
    SuffixEqual(k1 + "-", k2 + "-", h1, g1);
    SuffixEqual(k1, k2, "-", "-");
  }

  /** Hashing sees exactly the normal form: lower-casing again changes nothing, and no present name
      normalises to the space that stands for an absent one. */
  lemma HashedIffNormal(a: Option<string>, b: Option<string>, lower: char -> char)
    requires LowerOk(lower)
    ensures Hashed(a, lower) == Hashed(b, lower) <==> Normal(a, lower) == Normal(b, lower)
  {
    HashedIs(a, lower);
    HashedIs(b, lower);
  }

  lemma HashedIs(a: Option<string>, lower: char -> char)
    requires LowerOk(lower)
    ensures if a.None? then Hashed(a, lower) == " "
      else Hashed(a, lower) == Strip(a.value, lower) && Strip(a.value, lower) != " "
  {
    match a
    case None =>
      assert Lower(" ", lower) == " ";
    case Some(s) =>
      StripLowered(s, lower);
      StripOutput(s, lower);
      assert Lower(Strip(s, lower), lower) == Strip(s, lower);
  }

  lemma {:induction false} SlashesOfKind(kind: string, rest: string)
    requires rest != [] && rest[0] != '/'
    ensures WithoutSlashes(kind + rest) == WithoutSlashes(kind) + rest
  {
    if kind != [] && kind[0] == '/' {
      SlashesOfKind(kind[1..], rest);
      assert (kind + rest)[1..] == kind[1..] + rest;
    } else if kind == [] {
      assert kind + rest == rest;
    }
  }

  lemma FileNameSlashes(kind: string, h1: string, h2: string)
    ensures WithoutSlashes(FileName(kind, h1, h2)) == FileName(WithoutSlashes(kind), h1, h2)
  {
    var rest := "-" + h1 + "-" + h2 + ".jpeg";
    SlashesOfKind(kind, rest);
    assert FileName(kind, h1, h2) == kind + rest;
    assert FileName(WithoutSlashes(kind), h1, h2) == WithoutSlashes(kind) + rest;
  }

  /** Two art paths agree exactly if the kinds, leading slashes aside, and the normal forms of both names do. */
  lemma PathsAgreeIff(a: Option<string>, b: Option<string>, p: Option<string>,
      c: Option<string>, d: Option<string>, q: Option<string>, dir: string, md5: string -> string, lower: char -> char)
    requires LowerOk(lower) && (a.Some? || b.Some?) && (c.Some? || d.Some?)
    requires Digests(md5, Hashed(a, lower), Hashed(c, lower)) && Digests(md5, Hashed(b, lower), Hashed(d, lower))
    ensures ArtPath(a, b, p, dir, md5, lower) == ArtPath(c, d, q, dir, md5, lower) <==>
      WithoutSlashes(Kind(p)) == WithoutSlashes(Kind(q)) &&
      Normal(a, lower) == Normal(c, lower) && Normal(b, lower) == Normal(d, lower)
  {
    HashedIffNormal(a, c, lower);
    HashedIffNormal(b, d, lower);
    var (h1, h2) := (md5(Hashed(a, lower)), md5(Hashed(b, lower)));
    var (g1, g2) := (md5(Hashed(c, lower)), md5(Hashed(d, lower)));
    FileNameSlashes(Kind(p), h1, h2);
    FileNameSlashes(Kind(q), g1, g2);
    FileNamesDiffer(WithoutSlashes(Kind(p)), WithoutSlashes(Kind(q)), h1, h2, g1, g2);
    SuffixEqual(dir + "/", dir + "/", WithoutSlashes(FileName(Kind(p), h1, h2)), WithoutSlashes(FileName(Kind(q), g1, g2)));
  }

  function Slashes(n: nat): (s: string)
    ensures |s| == n && forall i :: 0 <= i < n ==> s[i] == '/'
  {
    if n == 0 then "" else "/" + Slashes(n - 1)
  }

  lemma {:induction false} SlashesDropped(n: nat, name: string)
    requires name != [] && name[0] != '/'
    ensures WithoutSlashes(Slashes(n) + name) == name
  {
    if n > 0 {
      SlashesDropped(n - 1, name);
      assert (Slashes(n) + name)[1..] == Slashes(n - 1) + name;
    } else {
      assert Slashes(0) + name == name;
    }
  }

  /** What is hashed for a name. */
  predicate StandsFor(hashed: string, name: Option<string>, lower: char -> char) {
    match name
    case None => hashed == " "
    case Some(s) => hashed == Strip(s, lower)
  }

  /** The path, spelled out: the directory, the kind without leading slashes (`album` if none is given), the
      digest of the first name and the digest of the second. Without any name there is no path. */
  lemma PathSpelledOut(a: Option<string>, b: Option<string>, prefix: Option<string>, dir: string, md5: string -> string,
      lower: char -> char, n: nat, kind: string, first: string, second: string)
    requires LowerOk(lower) && StandsFor(first, a, lower) && StandsFor(second, b, lower)
    requires Slashes(n) + kind == (if prefix.Some? then prefix.value else "album") && (kind != [] ==> kind[0] != '/')
    ensures a.None? && b.None? ==> ArtPath(a, b, prefix, dir, md5, lower) == None
    ensures a.Some? || b.Some? ==>
      ArtPath(a, b, prefix, dir, md5, lower) == Some(dir + "/" + (kind + "-" + md5(first) + "-" + md5(second) + ".jpeg"))
  {
    HashedIs(a, lower);
    HashedIs(b, lower);
    NameSpelledOut(n, kind, md5(first), md5(second));
  }

  lemma NameSpelledOut(n: nat, kind: string, h1: string, h2: string)
    requires kind != [] ==> kind[0] != '/'
    ensures WithoutSlashes(FileName(Slashes(n) + kind, h1, h2)) == kind + "-" + h1 + "-" + h2 + ".jpeg"
  {
    var name := kind + "-" + h1 + "-" + h2 + ".jpeg";
    SlashesDropped(n, name);
    assert FileName(Slashes(n) + kind, h1, h2) == Slashes(n) + name;
  }

  /** A closed block in a name does not change where its art is kept. */
  lemma BlocksDoNotMatter(before: string, k: nat, inner: string, after: string, b: Option<string>, p: Option<string>,
      dir: string, md5: string -> string, lower: char -> char)
    requires NoOpeners(before) && k < |BLOCKS| && BLOCKS[k].1 !in inner
    ensures ArtPath(Some(before + (Block(k, inner) + after)), b, p, dir, md5, lower)
      == ArtPath(Some(before + after), b, p, dir, md5, lower)
  {
    StripIgnoresBlock(before, k, inner, after, lower);
  }
}
