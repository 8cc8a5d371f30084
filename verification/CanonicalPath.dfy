/** `canonicalizePathAllowMissing`: the real path of what exists, followed by the segments that do not. */
module CanonicalPath {
  import opened Prelude
  import opened FileSystem

  /** The longest prefix of a path that exists; the root directory always does. */
  function LongestExisting(fs: FileSystem, p: Path): (k: nat)
    ensures k <= |p| && fs.Exists(p[..k])
    ensures forall j :: k < j <= |p| ==> !fs.Exists(p[..j])
    decreases |p|
  {
    if fs.Exists(p) then
      assert p[..|p|] == p;
      |p|
    else
      var k := LongestExisting(fs, Parent(p));
      assert forall j :: 0 <= j < |p| ==> Parent(p)[..j] == p[..j];
      assert p[..|p|] == p;
      k
  }

  function Canonical(fs: FileSystem, p: Path): Path
  {
    var k := LongestExisting(fs, p);
    fs.RealPath(p[..k]) + p[k..]
  }

  /**
   The loop: it gives up one missing segment a turn and loses none of them. All that exists, no less, is
   replaced by its real path, and everything behind it is kept.
   */
  method CanonicalizePathAllowMissing(fs: FileSystem, absolute: Path) returns (r: Path)
    ensures r == Canonical(fs, absolute)
    ensures exists k ::
      && 0 <= k <= |absolute| && fs.Exists(absolute[..k])
      && (forall j :: k < j <= |absolute| ==> !fs.Exists(absolute[..j]))
      && r == fs.RealPath(absolute[..k]) + absolute[k..]
  {
    var existing := absolute;
    var missingSegments: seq<string> := [];
    assert absolute[..|absolute|] == absolute;
    while !fs.Exists(existing)
      invariant existing + missingSegments == absolute
      invariant existing == absolute[..|existing|]
      invariant forall j :: |existing| < j <= |absolute| ==> !fs.Exists(absolute[..j])
      decreases |existing|
    {
      var parent := Parent(existing);
      if parent == existing {
        break;
      }
      missingSegments := [existing[|existing| - 1]] + missingSegments;
      existing := parent;
    }
    r := fs.RealPath(existing) + missingSegments;
    LongestUnique(fs, absolute, |existing|);
    assert missingSegments == absolute[|existing|..];
  }

  lemma LongestUnique(fs: FileSystem, p: Path, k: nat)
    requires k <= |p| && fs.Exists(p[..k])
    requires k == |p| || !fs.Exists(p[..k + 1])
    ensures LongestExisting(fs, p) == k
  {
    var m := LongestExisting(fs, p);
    assert m > k ==> p[..m][..k + 1] == p[..k + 1];
    if m > k {
      fs.PrefixExists(p[..m], k + 1);
      assert false;
    }
  }

  /**
   The lookup of the path failed, yet its first missing segment is found when it is looked up again
   from the real path of what exists in front of it.
   */
  predicate Revived(fs: FileSystem, p: Path)
  {
    var k := LongestExisting(fs, p);
    k < |p| && fs.Exists(fs.RealPath(p[..k]) + [p[k]])
  }

  lemma MoreLinksNeeded(fs: FileSystem, q: Path, n: string, left: nat)
    requires left <= fs.maxLinks
    requires !fs.Walk(q, [n], left).Found? && fs.Walk(q, [n], fs.maxLinks).Found?
    ensures fs.Walk(q, [n], left) == TooManyLinks
  {
    var more := fs.maxLinks - left;
    assert fs.Walk(q, [n], left + more) == fs.Walk(q, [n], fs.maxLinks);
    if fs.Walk(q, [n], left) != TooManyLinks {
      fs.WalkMoreLinks(q, [n], left, more);
      assert false;
    }
  }

  lemma MoreLinksFindLink(fs: FileSystem, q: Path, n: string, left: nat)
    requires PlainName(n) && fs.At(q) == Some(Dir) && fs.Walk(q, [n], left) == TooManyLinks
    ensures fs.At(q + [n]).Some? && fs.At(q + [n]).value.Link?
  {
    fs.WalkOneStep(q, n, left);
  }

  /** The real path of the existing prefix, and the lookup of the next segment from there. */
  lemma ExistingPrefix(fs: FileSystem, p: Path, k: nat)
    requires fs.Valid() && k < |p| && fs.Exists(p[..k])
    ensures var q := fs.RealPath(p[..k]);
      && fs.IsReal(q) && fs.Resolve(q) == Found(q, fs.maxLinks) && fs.Resolve(p[..k]).linksLeft <= fs.maxLinks
      && fs.Resolve(p[..k + 1]) == fs.Walk(q, [p[k]], fs.Resolve(p[..k]).linksLeft)
      && fs.Resolve(q + [p[k]]) == fs.Walk(q, [p[k]], fs.maxLinks)
  {
    var q := fs.RealPath(p[..k]);
    fs.WalkEndsReal([], p[..k], fs.maxLinks);
    fs.RealResolves(q, fs.maxLinks);
    fs.ResolveChild(p[..k], p[k]);
    fs.ResolveChild(q, p[k]);
    assert p[..k] + [p[k]] == p[..k + 1];
  }

  /** Only a lookup that ran out of links can be revived: what is revived is a link itself. */
  lemma RevivedRanOutOfLinks(fs: FileSystem, p: Path)
    requires fs.Valid() && Normal(p) && Revived(fs, p)
    ensures var k := LongestExisting(fs, p);
      && fs.Resolve(p[..k + 1]) == TooManyLinks
      && fs.At(fs.RealPath(p[..k]) + [p[k]]).Some?
      && fs.At(fs.RealPath(p[..k]) + [p[k]]).value.Link?
  {
    var k := LongestExisting(fs, p);
    ExistingPrefix(fs, p, k);
    MoreLinksNeeded(fs, fs.RealPath(p[..k]), p[k], fs.Resolve(p[..k]).linksLeft);
    MoreLinksFindLink(fs, fs.RealPath(p[..k]), p[k], fs.Resolve(p[..k]).linksLeft);
  }

  /** A result that exists is its own real path, exactly unless the lookup was revived. */
  lemma CanonicalIsReal(fs: FileSystem, p: Path)
    requires fs.Valid() && Normal(p) && fs.Exists(Canonical(fs, p))
    ensures fs.IsReal(Canonical(fs, p)) <==> !Revived(fs, p)
  {
    var k := LongestExisting(fs, p);
    var q, c := fs.RealPath(p[..k]), Canonical(fs, p);
    fs.RealPathIsReal(p[..k]);
    if k == |p| {
      assert p[..k] == p && c == q;
    } else {
      assert c[..|q| + 1] == q + [p[k]];
      fs.PrefixExists(c, |q| + 1);
      RevivedRanOutOfLinks(fs, p);
      if fs.IsReal(c) {
        fs.PrefixIsReal(c, |q| + 1);
        assert false;
      }
    }
  }

  lemma NotRevivedIsStable(fs: FileSystem, p: Path)
    requires fs.Valid() && !Revived(fs, p)
    ensures Canonical(fs, Canonical(fs, p)) == Canonical(fs, p)
  {
    var k := LongestExisting(fs, p);
    var q, c := fs.RealPath(p[..k]), Canonical(fs, p);
    fs.RealPathIsReal(p[..k]);
    assert c[..|q|] == q && c[|q|..] == p[k..];
    assert k < |p| ==> c[..|q| + 1] == q + [p[k]];
    LongestUnique(fs, c, |q|);
  }

  /** A path is left alone only if its longest existing prefix is real. */
  lemma FixedPrefixIsReal(fs: FileSystem, c: Path, j: nat)
    requires fs.Valid() && Canonical(fs, c) == c && j <= LongestExisting(fs, c)
    ensures fs.IsReal(c[..j])
  {
    var m := LongestExisting(fs, c);
    var r := fs.RealPath(c[..m]);
    fs.RealPathIsReal(c[..m]);
    assert |r| == m && r == (r + c[m..])[..m] == c[..m];
    fs.PrefixIsReal(r, j);
    assert r[..j] == c[..j];
  }

  lemma RevivedIsUnstable(fs: FileSystem, p: Path)
    requires fs.Valid() && Normal(p) && Revived(fs, p)
    ensures Canonical(fs, Canonical(fs, p)) != Canonical(fs, p)
  {
    var k := LongestExisting(fs, p);
    var q, c := fs.RealPath(p[..k]), Canonical(fs, p);
    assert c[..|q| + 1] == q + [p[k]];
    RevivedRanOutOfLinks(fs, p);
    if Canonical(fs, c) == c {
      FixedPrefixIsReal(fs, c, |q| + 1);
    }
  }

  /** Canonicalising twice changes nothing, exactly unless the lookup was revived. */
  lemma CanonicalIdempotent(fs: FileSystem, p: Path)
    requires fs.Valid() && Normal(p)
    ensures Canonical(fs, Canonical(fs, p)) == Canonical(fs, p) <==> !Revived(fs, p)
  {
    if Revived(fs, p) {
      RevivedIsUnstable(fs, p);
    } else {
      NotRevivedIsStable(fs, p);
    }
  }

  /** A path is left alone exactly if what exists of it is real: everything missing behind it is kept. */
  lemma CanonicalFixedIff(fs: FileSystem, p: Path)
    requires fs.Valid()
    ensures Canonical(fs, p) == p <==> exists k: nat :: PrefixThatExists(fs, p, k) && fs.IsReal(p[..k])
  {
    var m := LongestExisting(fs, p);
    if k: nat :| PrefixThatExists(fs, p, k) && fs.IsReal(p[..k]) {
      PrefixUnique(fs, p, k);
      fs.RealResolves(p[..k], fs.maxLinks);
      assert p[..k] + p[k..] == p;
    }
    if Canonical(fs, p) == p {
      FixedPrefixIsReal(fs, p, m);
      assert PrefixThatExists(fs, p, m);
    }
  }

  /** All of the path up to here exists, and nothing beyond. */
  predicate PrefixThatExists(fs: FileSystem, p: Path, k: nat)
  {
    k <= |p| && fs.Exists(p[..k]) && forall j :: k < j <= |p| ==> !fs.Exists(p[..j])
  }

  lemma PrefixUnique(fs: FileSystem, p: Path, k: nat)
    requires PrefixThatExists(fs, p, k)
    ensures LongestExisting(fs, p) == k
  {
    LongestUnique(fs, p, k);
  }

  /** Paths that go on from the same directory with different missing segments stay different. */
  lemma MissingTailsStayDifferent(fs: FileSystem, p: Path, q: Path, k: nat, m: nat)
    requires PrefixThatExists(fs, p, k) && PrefixThatExists(fs, q, m)
    requires fs.RealPath(p[..k]) == fs.RealPath(q[..m])
    ensures Canonical(fs, p) == Canonical(fs, q) <==> p[k..] == q[m..]
  {
    PrefixUnique(fs, p, k);
    PrefixUnique(fs, q, m);
    var r := fs.RealPath(p[..k]);
    assert Canonical(fs, p)[|r|..] == p[k..] && Canonical(fs, q)[|r|..] == q[m..];
  }

  /** A lookup that never runs out of links is canonicalised once and for all. */
  lemma CanonicalStable(fs: FileSystem, p: Path)
    requires fs.Valid() && Normal(p)
    requires forall k :: 0 <= k <= |p| ==> fs.Resolve(p[..k]) != TooManyLinks
    ensures !Revived(fs, p) && Canonical(fs, Canonical(fs, p)) == Canonical(fs, p)
  {
    if Revived(fs, p) {
      RevivedRanOutOfLinks(fs, p);
      assert false;
    }
    CanonicalIdempotent(fs, p);
  }

  // ---------- the limit on links does show ----------

  function Repeat(n: string, k: nat): (p: Path)
    ensures |p| == k && forall i :: 0 <= i < k ==> p[i] == n
  {
    if k == 0 then [] else Repeat(n, k - 1) + [n]
  }

  /** `/l` leads to `/`, `/m` to the directory `/d`, which holds one file. */
  function LoopBack(maxLinks: nat): FileSystem
  {
    FileSystem(map[
      ["l"] := Link(Target(true, [])), ["m"] := Link(Target(true, ["d"])), ["d"] := Dir, ["d", "USER.md"] := File],
      maxLinks)
  }

  lemma {:induction false} LoopBackUsesLinks(maxLinks: nat, k: nat)
    requires k <= maxLinks
    ensures LoopBack(maxLinks).Resolve(Repeat("l", k)) == Found([], maxLinks - k)
  {
    var fs := LoopBack(maxLinks);
    if k > 0 {
      LoopBackUsesLinks(maxLinks, k - 1);
      fs.ResolveChild(Repeat("l", k - 1), "l");
      fs.WalkOneStep([], "l", maxLinks - (k - 1));
      assert [] + ["l"] == ["l"];
    }
  }

  lemma LoopBackChild(maxLinks: nat)
    requires maxLinks > 0
    ensures LoopBack(maxLinks).Walk([], ["m"], 0) == TooManyLinks
    ensures LoopBack(maxLinks).Resolve([] + ["m"]) == Found(["d"], maxLinks - 1)
  {
    var fs := LoopBack(maxLinks);
    assert [] + ["m"] == ["m"] && [] + ["d"] == ["d"];
    fs.WalkOneStep([], "m", 0);
    fs.WalkOneStep([], "m", maxLinks);
    fs.WalkOneStep([], "d", maxLinks - 1);
  }

  lemma LoopBackFile(maxLinks: nat)
    requires maxLinks > 0
    ensures var fs := LoopBack(maxLinks);
      fs.Exists(["m"] + ["USER.md"]) && fs.LStat(["m"] + ["USER.md"]) == Some(File)
  {
    var fs, f := LoopBack(maxLinks), "USER.md";
    LoopBackChild(maxLinks);
    assert [] + ["m"] == ["m"] && [] + ["d"] == ["d"] && ["d"] + [f] == ["d", f];
    assert fs.Resolve(["m"]) == Found(["d"], maxLinks - 1);
    fs.ResolveChild(["m"], f);
    fs.WalkOneStep(["d"], f, maxLinks - 1);
    assert Parent(["m"] + [f]) == ["m"];
  }

  lemma LoopBackRevives(maxLinks: nat, p: Path)
    requires maxLinks > 0 && p == Repeat("l", maxLinks) + ["m"]
    ensures Revived(LoopBack(maxLinks), p)
  {
    var fs := LoopBack(maxLinks);
    assert p[..maxLinks] == Repeat("l", maxLinks) && p[..maxLinks + 1] == p;
    LoopBackUsesLinks(maxLinks, maxLinks);
    fs.ResolveChild(p[..maxLinks], "m");
    LoopBackChild(maxLinks);
    LongestUnique(fs, p, maxLinks);
  }

  lemma LoopBackNormal(maxLinks: nat)
    ensures Normal(Repeat("l", maxLinks) + ["m"])
  {
    assert PlainName("l") && PlainName("m");
  }

  lemma LoopBackValid(maxLinks: nat)
    ensures LoopBack(maxLinks).Valid()
  {
    var fs := LoopBack(maxLinks);
    forall p | p in fs.nodes
      ensures fs.WellPlaced(p)
    {
      assert p == ["l"] || p == ["m"] || p == ["d"] || p == ["d", "USER.md"];
      assert Parent(["d", "USER.md"]) == ["d"] && PlainName("USER.md");
    }
  }

  /** Whatever the limit, some path is canonicalised to a link, which canonicalises further. */
  lemma CanonicalNotIdempotent(maxLinks: nat)
    requires maxLinks > 0
    ensures exists fs: FileSystem, p: Path ::
      && fs.maxLinks == maxLinks && fs.Valid() && Normal(p)
      && Canonical(fs, Canonical(fs, p)) != Canonical(fs, p)
  {
    var fs, p := LoopBack(maxLinks), Repeat("l", maxLinks) + ["m"];
    LoopBackValid(maxLinks);
    LoopBackNormal(maxLinks);
    LoopBackRevives(maxLinks, p);
    RevivedIsUnstable(fs, p);
  }
}
