/**
 A POSIX file system with symbolic links: path resolution as the kernel performs it, with its limit
 on the links one lookup may follow, and the path calls of Node.js that the local server uses.
 */
module FileSystem {
  import opened Prelude

  /** An absolute, lexically normal path: the list of its segments. */
  type Path = seq<string>

  /** The text of a link; its steps may be empty, `.` or `..`. */
  datatype Target = Target(absolute: bool, steps: seq<string>)

  datatype Node = Dir | File | Special | Link(target: Target)

  datatype Resolution =
    | Found(path: Path, linksLeft: nat)
    | NoEntry
    | NotDirectory
    | TooManyLinks

  predicate PlainName(n: string)
  {
    n != "" && n != "." && n != ".." && '/' !in n
  }

  /** What `resolve` returns: no segment is empty, `.` or `..`. */
  predicate Normal(p: Path)
  {
    forall n :: n in p ==> PlainName(n)
  }

  /** `dirname` */
  function Parent(p: Path): Path
  {
    if p == [] then [] else p[..|p| - 1]
  }

  datatype FileSystem = FileSystem(nodes: map<Path, Node>, maxLinks: nat) {

    /** The entry has a plain name and lies in a directory. */
    predicate WellPlaced(p: Path)
    {
      p != [] && PlainName(p[|p| - 1]) && At(Parent(p)) == Some(Dir)
    }

    /** Every entry is well placed. The root directory is implicit. */
    ghost predicate Valid()
    {
      forall p {:trigger WellPlaced(p)} :: p in nodes ==> WellPlaced(p)
    }

    /** The entry at a path none of whose proper prefixes is a link. */
    function At(p: Path): Option<Node>
    {
      if p == [] then Some(Dir) else if p in nodes then Some(nodes[p]) else None
    }

    /** Path resolution from directory `cur`, following at most `links` links. */
    function Walk(cur: Path, rest: seq<string>, links: nat): Resolution
      decreases links, |rest|
    {
      if rest == [] then Found(cur, links)
      else if At(cur) != Some(Dir) then NotDirectory
      else if rest[0] == "" || rest[0] == "." then Walk(cur, rest[1..], links)
      else if rest[0] == ".." then Walk(Parent(cur), rest[1..], links)
      else
        match At(cur + [rest[0]])
        case None => NoEntry
        case Some(Link(t)) =>
          if links == 0 then TooManyLinks
          else Walk(if t.absolute then [] else cur, t.steps + rest[1..], links - 1)
        case Some(_) => Walk(cur + [rest[0]], rest[1..], links)
    }

    /** Resolution as a write performs it: only the last segment may be missing, and is then created. */
    function WalkCreate(cur: Path, rest: seq<string>, links: nat): Resolution
      decreases links, |rest|
    {
      if rest == [] then Found(cur, links)
      else if At(cur) != Some(Dir) then NotDirectory
      else if rest[0] == "" || rest[0] == "." then WalkCreate(cur, rest[1..], links)
      else if rest[0] == ".." then WalkCreate(Parent(cur), rest[1..], links)
      else
        match At(cur + [rest[0]])
        case None => if |rest| == 1 then Found(cur + rest, links) else NoEntry
        case Some(Link(t)) =>
          if links == 0 then TooManyLinks
          else WalkCreate(if t.absolute then [] else cur, t.steps + rest[1..], links - 1)
        case Some(_) => WalkCreate(cur + [rest[0]], rest[1..], links)
    }

    function Resolve(p: Path): Resolution
    {
      Walk([], p, maxLinks)
    }

    /** `existsSync` */
    predicate Exists(p: Path)
    {
      Resolve(p).Found?
    }

    /** `realpathSync` */
    function RealPath(p: Path): Path
      requires Exists(p)
    {
      Resolve(p).path
    }

    /** `statSync`: the entry a path leads to. */
    function Stat(p: Path): Option<Node>
      requires Exists(p)
    {
      At(RealPath(p))
    }

    /** `lstatSync`: the entry itself, its last segment not followed. */
    function LStat(p: Path): Option<Node>
      requires Exists(p)
    {
      if p == [] then Some(Dir)
      else match Resolve(Parent(p))
        case Found(dir, _) => At(dir + [p[|p| - 1]])
        case _ => None
    }

    /** The file `writeFileSync` writes, if it succeeds: links are followed, the last one too. */
    function Written(p: Path): Option<Path>
    {
      match WalkCreate([], p, maxLinks)
      case Found(q, _) => if At(q) == Some(Dir) then None else Some(q)
      case _ => None
    }

    predicate IsLink(p: Path)
    {
      At(p).Some? && At(p).value.Link?
    }

    /** A path that names its entry directly: it exists and neither it nor a prefix of it is a link. */
    predicate IsReal(p: Path)
    {
      At(p).Some? && !At(p).value.Link?
    }

    // ---------- laws of resolution ----------

    lemma {:induction false} WalkAppend(cur: Path, a: seq<string>, b: seq<string>, links: nat)
      ensures Walk(cur, a + b, links) ==
        match Walk(cur, a, links) { case Found(q, left) => Walk(q, b, left) case failed => failed }
      decreases links, |a|
    {
      if a == [] {
        assert a + b == b;
      } else if At(cur) == Some(Dir) {
        assert (a + b)[1..] == a[1..] + b;
        if a[0] == "" || a[0] == "." {
          WalkAppend(cur, a[1..], b, links);
        } else if a[0] == ".." {
          WalkAppend(Parent(cur), a[1..], b, links);
        } else if At(cur + [a[0]]).Some? {
          match At(cur + [a[0]]).value
          case Link(t) =>
            assert t.steps + (a[1..] + b) == (t.steps + a[1..]) + b;
            if links > 0 {
              WalkAppend(if t.absolute then [] else cur, t.steps + a[1..], b, links - 1);
            }
          case _ =>
            WalkAppend(cur + [a[0]], a[1..], b, links);
        }
      }
    }

    /** More links never change a lookup that did not run out of them. */
    lemma {:induction false} WalkMoreLinks(cur: Path, rest: seq<string>, links: nat, more: nat)
      requires Walk(cur, rest, links) != TooManyLinks
      ensures Walk(cur, rest, links + more) ==
        match Walk(cur, rest, links) { case Found(q, left) => Found(q, left + more) case failed => failed }
      decreases links, |rest|
    {
      if rest != [] && At(cur) == Some(Dir) {
        if rest[0] == "" || rest[0] == "." {
          WalkMoreLinks(cur, rest[1..], links, more);
        } else if rest[0] == ".." {
          WalkMoreLinks(Parent(cur), rest[1..], links, more);
        } else if At(cur + [rest[0]]).Some? {
          match At(cur + [rest[0]]).value
          case Link(t) =>
            WalkMoreLinks(if t.absolute then [] else cur, t.steps + rest[1..], links - 1, more);
          case _ =>
            WalkMoreLinks(cur + [rest[0]], rest[1..], links, more);
        }
      }
    }

    lemma ParentIsReal(p: Path)
      requires Valid() && IsReal(p)
      ensures At(Parent(p)) == Some(Dir)
    {
      assert p == [] || WellPlaced(p);
    }

    /** Resolution from a real directory ends at a real path. */
    lemma {:induction false} WalkEndsReal(cur: Path, rest: seq<string>, links: nat)
      requires Valid() && IsReal(cur)
      ensures Walk(cur, rest, links).Found? ==>
        IsReal(Walk(cur, rest, links).path) && Walk(cur, rest, links).linksLeft <= links
      decreases links, |rest|
    {
      if rest != [] && At(cur) == Some(Dir) {
        ParentIsReal(cur);
        if rest[0] == "" || rest[0] == "." {
          WalkEndsReal(cur, rest[1..], links);
        } else if rest[0] == ".." {
          WalkEndsReal(Parent(cur), rest[1..], links);
        } else if At(cur + [rest[0]]).Some? {
          match At(cur + [rest[0]]).value
          case Link(t) =>
            if links > 0 {
              WalkEndsReal(if t.absolute then [] else cur, t.steps + rest[1..], links - 1);
            }
          case _ =>
            WalkEndsReal(cur + [rest[0]], rest[1..], links);
        }
      }
    }

    /** The last step of a lookup, in a real directory. */
    lemma WalkOneStep(cur: Path, n: string, links: nat)
      requires At(cur) == Some(Dir) && PlainName(n)
      ensures Walk(cur, [n], links) ==
        match At(cur + [n])
        case None => NoEntry
        case Some(Link(t)) =>
          if links == 0 then TooManyLinks else Walk(if t.absolute then [] else cur, t.steps, links - 1)
        case Some(_) => Found(cur + [n], links)
    {
      assert [n][1..] == [];
      assert forall t: seq<string> :: t + [] == t;
    }

    lemma RealChild(p: Path)
      requires Valid() && IsReal(p) && p != []
      ensures PlainName(p[|p| - 1]) && At(Parent(p)) == Some(Dir) && Parent(p) + [p[|p| - 1]] == p
    {
      assert WellPlaced(p);
    }

    lemma FoundChild(front: Path, n: string, links: nat)
      requires Walk([], front, links) == Found(front, links)
      requires At(front) == Some(Dir) && PlainName(n) && IsReal(front + [n])
      ensures Walk([], front + [n], links) == Found(front + [n], links)
    {
      WalkAppend([], front, [n], links);
      WalkOneStep(front, n, links);
    }

    /** A real path resolves to itself and follows no link. */
    lemma {:induction false} RealResolves(p: Path, links: nat)
      requires Valid() && IsReal(p)
      ensures Walk([], p, links) == Found(p, links)
      decreases |p|
    {
      if p != [] {
        RealChild(p);
        RealResolves(Parent(p), links);
        FoundChild(Parent(p), p[|p| - 1], links);
      }
    }

    lemma {:induction false} PrefixIsReal(p: Path, k: nat)
      requires Valid() && IsReal(p) && k <= |p|
      ensures IsReal(p[..k])
      decreases |p|
    {
      if k < |p| {
        ParentIsReal(p);
        PrefixIsReal(Parent(p), k);
        assert Parent(p)[..k] == p[..k];
      } else {
        assert p[..k] == p;
      }
    }

    lemma PrefixExists(p: Path, k: nat)
      requires Exists(p) && k <= |p|
      ensures Exists(p[..k])
    {
      WalkAppend([], p[..k], p[k..], maxLinks);
      assert p[..k] + p[k..] == p;
    }

    /** Real paths are exactly the results of `realpathSync`, and it is idempotent. */
    lemma RealPathIsReal(p: Path)
      requires Valid() && Exists(p)
      ensures IsReal(RealPath(p)) && Exists(RealPath(p)) && RealPath(RealPath(p)) == RealPath(p)
    {
      WalkEndsReal([], p, maxLinks);
      RealResolves(RealPath(p), maxLinks);
    }

    /** One more plain segment: a lookup through the parent's real path, with the links left over. */
    lemma ResolveChild(p: Path, n: string)
      requires Exists(p)
      ensures Resolve(p + [n]) == Walk(RealPath(p), [n], Resolve(p).linksLeft)
    {
      WalkAppend([], p, [n], maxLinks);
    }

    // ---------- laws of writing ----------

    /** In front of the last segment a write resolves as a lookup does. */
    lemma {:induction false} WalkCreateAppend(cur: Path, a: seq<string>, b: seq<string>, links: nat)
      requires b != []
      ensures WalkCreate(cur, a + b, links) ==
        match Walk(cur, a, links) { case Found(q, left) => WalkCreate(q, b, left) case failed => failed }
      decreases links, |a|
    {
      if a == [] {
        assert a + b == b;
      } else if At(cur) == Some(Dir) {
        assert (a + b)[1..] == a[1..] + b;
        if a[0] == "" || a[0] == "." {
          WalkCreateAppend(cur, a[1..], b, links);
        } else if a[0] == ".." {
          WalkCreateAppend(Parent(cur), a[1..], b, links);
        } else if At(cur + [a[0]]).Some? {
          match At(cur + [a[0]]).value
          case Link(t) =>
            assert t.steps + (a[1..] + b) == (t.steps + a[1..]) + b;
            if links > 0 {
              WalkCreateAppend(if t.absolute then [] else cur, t.steps + a[1..], b, links - 1);
            }
          case _ =>
            WalkCreateAppend(cur + [a[0]], a[1..], b, links);
        }
      }
    }

    /** The last step of a write, in a directory. */
    lemma WalkCreateOneStep(cur: Path, n: string, links: nat)
      requires At(cur) == Some(Dir) && PlainName(n)
      ensures WalkCreate(cur, [n], links) ==
        match At(cur + [n])
        case Some(Link(t)) =>
          if links == 0 then TooManyLinks else WalkCreate(if t.absolute then [] else cur, t.steps, links - 1)
        case _ => Found(cur + [n], links)
    {
      assert [n][1..] == [];
      assert forall t: seq<string> :: t + [] == t;
    }

    /** A write to what a lookup finds is a write to what it finds. */
    lemma {:induction false} WalkCreateExisting(cur: Path, rest: seq<string>, links: nat)
      requires Walk(cur, rest, links) != NoEntry
      ensures WalkCreate(cur, rest, links) == Walk(cur, rest, links)
      decreases links, |rest|
    {
      if rest != [] && At(cur) == Some(Dir) {
        if rest[0] == "" || rest[0] == "." {
          WalkCreateExisting(cur, rest[1..], links);
        } else if rest[0] == ".." {
          WalkCreateExisting(Parent(cur), rest[1..], links);
        } else {
          match At(cur + [rest[0]]).value
          case Link(t) =>
            if links > 0 {
              WalkCreateExisting(if t.absolute then [] else cur, t.steps + rest[1..], links - 1);
            }
          case _ =>
            WalkCreateExisting(cur + [rest[0]], rest[1..], links);
        }
      }
    }

    /** A new name in a directory. */
    ghost predicate Fresh(p: Path)
    {
      p != [] && At(p) == None && At(Parent(p)) == Some(Dir)
    }

    /** A write ends at a real path or creates a new entry in a directory, never at a link. */
    lemma {:induction false} WalkCreateEnds(cur: Path, rest: seq<string>, links: nat)
      requires Valid() && IsReal(cur)
      ensures WalkCreate(cur, rest, links).Found? ==>
        var q := WalkCreate(cur, rest, links).path; if Walk(cur, rest, links).Found? then IsReal(q) else Fresh(q)
      decreases links, |rest|
    {
      if rest != [] && At(cur) == Some(Dir) {
        ParentIsReal(cur);
        if rest[0] == "" || rest[0] == "." {
          WalkCreateEnds(cur, rest[1..], links);
        } else if rest[0] == ".." {
          WalkCreateEnds(Parent(cur), rest[1..], links);
        } else if At(cur + [rest[0]]).None? {
          assert |rest| == 1 ==> rest == [rest[0]];
        } else {
          match At(cur + [rest[0]]).value
          case Link(t) =>
            if links > 0 {
              WalkCreateEnds(if t.absolute then [] else cur, t.steps + rest[1..], links - 1);
            }
          case _ =>
            WalkCreateEnds(cur + [rest[0]], rest[1..], links);
        }
      }
    }

    /** What a write opens exists and is what a lookup finds, or is a new entry that no lookup finds. */
    lemma WrittenExistsOrFresh(p: Path)
      requires Valid()
      ensures Exists(p) ==> Written(p) == if Stat(p) == Some(Dir) then None else Some(RealPath(p))
      ensures Written(p).Some? ==> if Exists(p) then IsReal(Written(p).value) else Fresh(Written(p).value)
    {
      WalkCreateEnds([], p, maxLinks);
      WalkEndsReal([], p, maxLinks);
      if Resolve(p) != NoEntry {
        WalkCreateExisting([], p, maxLinks);
      }
    }

    /** A write under a directory: to the entry of that name, unless it is a link. */
    lemma WrittenChild(dir: Path, n: string)
      requires Exists(dir) && Stat(dir) == Some(Dir) && PlainName(n)
      ensures var place := RealPath(dir) + [n];
        !IsLink(place) ==> Written(dir + [n]) == if At(place) == Some(Dir) then None else Some(place)
    {
      WalkCreateAppend([], dir, [n], maxLinks);
      WalkCreateOneStep(RealPath(dir), n, Resolve(dir).linksLeft);
    }
  }
}
