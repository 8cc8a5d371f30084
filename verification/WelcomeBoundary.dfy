/** The check the local server makes before it writes the welcome files of a workspace. */
module WelcomeBoundary {
  import opened Prelude
  import opened FileSystem
  import opened CanonicalPath
  import Text

  // ---------- containment ----------

  function CommonPrefix(a: Path, b: Path): (k: nat)
    ensures k <= |a| && k <= |b| && a[..k] == b[..k]
    ensures k < |a| && k < |b| ==> a[k] != b[k]
  {
    if a != [] && b != [] && a[0] == b[0] then
      var k := 1 + CommonPrefix(a[1..], b[1..]);
      assert a[..k] == [a[0]] + a[1..][..k - 1] && b[..k] == [b[0]] + b[1..][..k - 1];
      k
    else 0
  }

  /** `relative(from, to)`: a `..` for each segment to leave, then the segments to enter. */
  function Relative(from: Path, to: Path): string
  {
    var k := CommonPrefix(from, to);
    Text.Join(Repeat("..", |from| - k) + to[k..], "/")
  }

  predicate IsAbsolute(text: string)
  {
    text != "" && text[0] == '/'
  }

  /** `isPathInside` */
  predicate IsPathInside(root: Path, candidate: Path)
  {
    var pathFromRoot := Relative(root, candidate);
    pathFromRoot == "" || (!Text.StartsWith(pathFromRoot, "..") && !IsAbsolute(pathFromRoot))
  }

  lemma JoinStarts(segments: seq<string>)
    requires segments != [] && segments[0] != "" && segments[0] != "." && '/' !in segments[0]
    ensures var text := Text.Join(segments, "/");
      text != "" && !IsAbsolute(text) && (Text.StartsWith(text, "..") <==> Text.StartsWith(segments[0], ".."))
  {
    var text, n := Text.Join(segments, "/"), segments[0];
    assert text[..|n|] == n;
    assert text[0] == n[0];
    if |n| == 1 {
      assert n == [n[0]] && n[0] != '.';
      assert |text| >= 2 ==> text[..2][0] == n[0];
    } else {
      assert text[..2] == n[..2];
    }
  }

  /** Containment is by segments, except that names beginning with two dots are refused. */
  lemma InsideIsPrefix(root: Path, candidate: Path)
    requires Normal(candidate)
    ensures IsPathInside(root, candidate)
       <==> root <= candidate && (root == candidate || !Text.StartsWith(candidate[|root|], ".."))
  {
    var k := CommonPrefix(root, candidate);
    var segments := Repeat("..", |root| - k) + candidate[k..];
    if k < |root| {
      JoinStarts(segments);
      assert segments[0] == "..";
      assert !(root <= candidate);
    } else if k < |candidate| {
      assert segments == candidate[k..];
      assert candidate[k] in candidate;
      JoinStarts(segments);
    } else {
      assert segments == [];
    }
  }

  // ---------- the boundary ----------

  const WELCOME_WRITE_FILES: seq<string> :=
    ["IDENTITY.md", "USER.md", "SOUL.md", "WELCOME-STATE.json", "MEMORY.md", "HEARTBEAT.md"]

  datatype Reason = OutsideWorkspace | SymlinkRejected | SymlinkEscape | NotRegularFile

  datatype Verdict =
    | Ready(root: Path)
    | CallerRootRejected(root: Path)
    | RootNotDirectory(root: Path)
    | TargetRejected(root: Path, filename: string, reason: Reason)

  /** What stops the write of one file, in the order the checks are made. */
  function Problem(fs: FileSystem, root: Path, filename: string): Option<Reason>
  {
    var target := root + [filename];
    if !IsPathInside(root, target) then Some(OutsideWorkspace)
    else if !fs.Exists(target) then None
    else if fs.LStat(target).Some? && fs.LStat(target).value.Link? then Some(SymlinkRejected)
    else if !IsPathInside(root, fs.RealPath(target)) then Some(SymlinkEscape)
    else if fs.LStat(target) != Some(File) then Some(NotRegularFile)
    else None
  }

  predicate CallerAccepted(fs: FileSystem, root: Path, caller: Option<Path>)
  {
    caller.Some? ==> Canonical(fs, caller.value) == root
  }

  predicate RootAccepted(fs: FileSystem, root: Path)
  {
    fs.Exists(root) ==> fs.Stat(root) == Some(Dir)
  }

  // ---------- what the verdict means ----------

  predicate WelcomeName(n: string)
  {
    PlainName(n) && !Text.StartsWith(n, "..")
  }

  lemma NotDotted(n: string)
    requires PlainName(n) && n[0] != '.'
    ensures WelcomeName(n)
  {
    assert |n| >= 2 ==> n[..2][0] == n[0];
  }

  lemma WelcomeNames()
    ensures forall f :: f in WELCOME_WRITE_FILES ==> WelcomeName(f)
  {
    NotDotted("IDENTITY.md");
    NotDotted("USER.md");
    NotDotted("SOUL.md");
    NotDotted("WELCOME-STATE.json");
    NotDotted("MEMORY.md");
    NotDotted("HEARTBEAT.md");
  }

  /** A target that exists lies in the directory its root resolves to. */
  lemma TargetThroughRoot(fs: FileSystem, root: Path, f: string)
    requires fs.Valid() && WelcomeName(f) && fs.Exists(root + [f])
    ensures fs.Exists(root) && fs.At(fs.RealPath(root)) == Some(Dir)
    ensures fs.LStat(root + [f]) == fs.At(fs.RealPath(root) + [f])
    ensures fs.LStat(root + [f]).Some?
    ensures !fs.LStat(root + [f]).value.Link? ==> fs.RealPath(root + [f]) == fs.RealPath(root) + [f]
  {
    var target := root + [f];
    fs.PrefixExists(target, |root|);
    assert target[..|root|] == root == Parent(target);
    fs.RealPathIsReal(root);
    fs.ResolveChild(root, f);
    var q, left := fs.RealPath(root), fs.Resolve(root).linksLeft;
    assert fs.Walk(q, [f], left).Found?;
    assert fs.At(q) == Some(Dir);
    fs.WalkOneStep(q, f, left);
  }

  lemma {:induction false} RealIsNormal(fs: FileSystem, p: Path)
    requires fs.Valid() && fs.IsReal(p)
    ensures Normal(p)
    decreases |p|
  {
    if p != [] {
      fs.RealChild(p);
      RealIsNormal(fs, Parent(p));
    }
  }

  lemma RealPathIsNormal(fs: FileSystem, p: Path)
    requires fs.Valid() && fs.Exists(p)
    ensures Normal(fs.RealPath(p))
  {
    fs.RealPathIsReal(p);
    RealIsNormal(fs, fs.RealPath(p));
  }

  lemma RealContainer(fs: FileSystem, root: Path, target: Path)
    requires fs.Valid() && fs.IsReal(target) && IsPathInside(root, target)
    ensures fs.IsReal(root)
  {
    RealIsNormal(fs, target);
    InsideIsPrefix(root, target);
    fs.PrefixIsReal(target, |root|);
    assert target[..|root|] == root;
  }

  /** Between a real root and a real file under it there is nothing to escape through. */
  lemma EscapeNeedsUnrealRoot(fs: FileSystem, root: Path, f: string)
    requires fs.Valid() && WelcomeName(f) && fs.Exists(root + [f]) && Normal(root)
    requires fs.LStat(root + [f]).Some? && !fs.LStat(root + [f]).value.Link?
    ensures IsPathInside(root, fs.RealPath(root + [f])) <==> fs.IsReal(root)
  {
    TargetThroughRoot(fs, root, f);
    fs.RealPathIsReal(root + [f]);
    if fs.IsReal(root) {
      fs.RealResolves(root, fs.maxLinks);
      InsideIsPrefix(root, root + [f]);
    } else if IsPathInside(root, fs.RealPath(root + [f])) {
      RealContainer(fs, root, fs.RealPath(root + [f]));
    }
  }

  lemma CanonicalIsNormal(fs: FileSystem, p: Path)
    requires fs.Valid() && Normal(p)
    ensures Normal(Canonical(fs, p))
  {
    var k := LongestExisting(fs, p);
    RealPathIsNormal(fs, p[..k]);
  }

  /** No file is ever outside its root: that rejection is unreachable. */
  lemma OutsideUnreachable(fs: FileSystem, root: Path, f: string)
    requires WelcomeName(f) && Normal(root)
    ensures Problem(fs, root, f) != Some(OutsideWorkspace)
  {
    InsideIsPrefix(root, root + [f]);
  }

  /** The escape check fires exactly when the root's own lookup was revived: never otherwise. */
  lemma EscapeIffRevived(fs: FileSystem, configured: Path, f: string)
    requires fs.Valid() && Normal(configured) && WelcomeName(f)
    ensures var root := Canonical(fs, configured);
      Problem(fs, root, f) == Some(SymlinkEscape) <==>
      && Revived(fs, configured)
      && fs.Exists(root + [f])
      && fs.LStat(root + [f]).Some? && !fs.LStat(root + [f]).value.Link?
  {
    var root := Canonical(fs, configured);
    CanonicalIsNormal(fs, configured);
    OutsideUnreachable(fs, root, f);
    if fs.Exists(root + [f]) {
      TargetThroughRoot(fs, root, f);
      CanonicalIsReal(fs, configured);
      if !fs.LStat(root + [f]).value.Link? {
        EscapeNeedsUnrealRoot(fs, root, f);
      }
    }
  }

  /** A lookup does not find the file, or it is a regular file at its own real path. */
  predicate Harmless(fs: FileSystem, root: Path, f: string)
  {
    fs.Exists(root + [f]) ==> fs.At(root + [f]) == Some(File) && fs.RealPath(root + [f]) == root + [f]
  }

  lemma NoProblemIffHarmless(fs: FileSystem, root: Path, f: string)
    requires fs.Valid() && Normal(root) && WelcomeName(f)
    ensures Problem(fs, root, f) == None <==> Harmless(fs, root, f)
  {
    var target := root + [f];
    OutsideUnreachable(fs, root, f);
    if fs.Exists(target) {
      TargetThroughRoot(fs, root, f);
      if fs.At(target) == Some(File) {
        fs.RealResolves(target, fs.maxLinks);
        fs.ParentIsReal(target);
        assert Parent(target) == root;
        fs.RealResolves(root, fs.maxLinks);
      }
      if !fs.LStat(target).value.Link? {
        EscapeNeedsUnrealRoot(fs, root, f);
        if fs.IsReal(root) {
          fs.RealResolves(root, fs.maxLinks);
        }
      }
    }
  }

  /** Unless the root's lookup was revived, the entry under the root decides alone what is reported. */
  lemma ProblemByEntry(fs: FileSystem, configured: Path, f: string)
    requires fs.Valid() && Normal(configured) && WelcomeName(f) && !Revived(fs, configured)
    ensures var root := Canonical(fs, configured);
      Problem(fs, root, f) ==
        if !fs.Exists(root + [f]) then None
        else match fs.At(root + [f]) {
          case Some(Link(_)) => Some(SymlinkRejected)
          case Some(File) => None
          case _ => Some(NotRegularFile)
        }
  {
    var root := Canonical(fs, configured);
    CanonicalIsNormal(fs, configured);
    OutsideUnreachable(fs, root, f);
    EscapeIffRevived(fs, configured, f);
    if fs.Exists(root + [f]) {
      TargetThroughRoot(fs, root, f);
      CanonicalIsReal(fs, configured);
      fs.RealResolves(root, fs.maxLinks);
    }
  }

  /** The first file of the list that has a problem, with that problem. */
  ghost predicate FirstRejection(fs: FileSystem, root: Path, files: seq<string>, filename: string, reason: Reason)
  {
    exists i ::
      && 0 <= i < |files| && files[i] == filename
      && Problem(fs, root, filename) == Some(reason)
      && (forall j :: 0 <= j < i ==> Problem(fs, root, files[j]) == None)
  }

  /** The loop over the files to write: the first check that fails ends it. */
  method VerifyTargets(fs: FileSystem, workspaceRoot: Path, files: seq<string>) returns (v: Verdict)
    ensures v.root == workspaceRoot && (v.Ready? || v.TargetRejected?)
    ensures v.Ready? <==> forall f :: f in files ==> Problem(fs, workspaceRoot, f) == None
    ensures v.TargetRejected? ==> FirstRejection(fs, workspaceRoot, files, v.filename, v.reason)
  {
    for i := 0 to |files|
      invariant forall j :: 0 <= j < i ==> Problem(fs, workspaceRoot, files[j]) == None
    {
      var filename := files[i];
      assert filename in files;
      var target := workspaceRoot + [filename];
      if !IsPathInside(workspaceRoot, target) {
        return TargetRejected(workspaceRoot, filename, OutsideWorkspace);
      }
      if !fs.Exists(target) {
        continue;
      }
      var stats := fs.LStat(target);
      if stats.Some? && stats.value.Link? {
        return TargetRejected(workspaceRoot, filename, SymlinkRejected);
      }
      var canonicalTarget := fs.RealPath(target);
      if !IsPathInside(workspaceRoot, canonicalTarget) {
        return TargetRejected(workspaceRoot, filename, SymlinkEscape);
      }
      if stats != Some(File) {
        return TargetRejected(workspaceRoot, filename, NotRegularFile);
      }
    }
    v := Ready(workspaceRoot);
  }

  lemma ProblemMeaning(fs: FileSystem, configured: Path, f: string)
    requires fs.Valid() && Normal(configured) && f in WELCOME_WRITE_FILES
    ensures var root := Canonical(fs, configured);
      && (Problem(fs, root, f) == None <==> Harmless(fs, root, f))
      && Problem(fs, root, f) != Some(OutsideWorkspace)
      && (Problem(fs, root, f) == Some(SymlinkEscape) ==> Revived(fs, configured))
  {
    WelcomeNames();
    CanonicalIsNormal(fs, configured);
    NoProblemIffHarmless(fs, Canonical(fs, configured), f);
    OutsideUnreachable(fs, Canonical(fs, configured), f);
    EscapeIffRevived(fs, configured, f);
  }

  /**
   `verifyWelcomeWorkspaceBoundary`: the first check that fails decides, and the verdict is `Ready`
   exactly when every welcome file that exists is a regular file that leads to itself. What that says
   about the writes that follow is below: a link to nothing does not exist in this sense.
   */
  method VerifyWelcomeWorkspaceBoundary(fs: FileSystem, configured: Path, caller: Option<Path>) returns (v: Verdict)
    requires fs.Valid() && Normal(configured)
    ensures v.root == Canonical(fs, configured)
    ensures v.CallerRootRejected? <==> !CallerAccepted(fs, v.root, caller)
    ensures v.RootNotDirectory? <==> CallerAccepted(fs, v.root, caller) && !RootAccepted(fs, v.root)
    ensures v.Ready? <==>
      && CallerAccepted(fs, v.root, caller) && RootAccepted(fs, v.root)
      && (forall f :: f in WELCOME_WRITE_FILES ==> Harmless(fs, v.root, f))
    ensures v.TargetRejected? ==> FirstRejection(fs, v.root, WELCOME_WRITE_FILES, v.filename, v.reason)
    ensures v.TargetRejected? ==> v.reason != OutsideWorkspace
    ensures v.TargetRejected? && v.reason == SymlinkEscape ==> Revived(fs, configured)
  {
    var workspaceRoot := CanonicalizePathAllowMissing(fs, configured);
    if caller.Some? {
      var canonicalCaller := CanonicalizePathAllowMissing(fs, caller.value);
      if canonicalCaller != workspaceRoot {
        return CallerRootRejected(workspaceRoot);
      }
    }
    if fs.Exists(workspaceRoot) && fs.Stat(workspaceRoot) != Some(Dir) {
      return RootNotDirectory(workspaceRoot);
    }
    v := VerifyTargets(fs, workspaceRoot, WELCOME_WRITE_FILES);
    forall f | f in WELCOME_WRITE_FILES
      ensures Problem(fs, workspaceRoot, f) == None <==> Harmless(fs, workspaceRoot, f)
    {
      ProblemMeaning(fs, configured, f);
    }
    if v.TargetRejected? {
      ProblemMeaning(fs, configured, v.filename);
    }
  }

  // ---------- where the accepted files are written ----------

  /** What the owner answered about the two files that are optional. */
  datatype Answers = Answers(durableMemoryApproved: bool, heartbeatEnabled: bool, heartbeatApproved: bool)

  /** The `writes` of `applyRuntimeWorkspaceWelcomeSettings`, by their names. */
  method CollectWrites(answers: Answers) returns (files: seq<string>)
    ensures files == Writes(answers)
    ensures files[..4] == ["IDENTITY.md", "USER.md", "SOUL.md", "WELCOME-STATE.json"]
    ensures "MEMORY.md" in files <==> answers.durableMemoryApproved
    ensures "HEARTBEAT.md" in files <==> answers.heartbeatEnabled && answers.heartbeatApproved
  {
    assert "MEMORY.md"[0] == 'M' && "HEARTBEAT.md"[0] == 'H';
    files := ["IDENTITY.md", "USER.md", "SOUL.md", "WELCOME-STATE.json"];
    if answers.durableMemoryApproved {
      files := files + ["MEMORY.md"];
    }
    if answers.heartbeatEnabled && answers.heartbeatApproved {
      files := files + ["HEARTBEAT.md"];
    }
  }

  function Writes(answers: Answers): seq<string>
  {
    ["IDENTITY.md", "USER.md", "SOUL.md", "WELCOME-STATE.json"]
    + (if answers.durableMemoryApproved then ["MEMORY.md"] else [])
    + (if answers.heartbeatEnabled && answers.heartbeatApproved then ["HEARTBEAT.md"] else [])
  }

  /** Every file that can be written is checked first, and none is checked that cannot be written. */
  lemma CheckedAreWritable(f: string)
    ensures f in WELCOME_WRITE_FILES <==> exists answers :: f in Writes(answers)
  {
    assert Writes(Answers(true, true, true)) == WELCOME_WRITE_FILES;
    if answers :| f in Writes(answers) {
      assert f in Writes(Answers(true, true, true));
    }
    if f in WELCOME_WRITE_FILES {
      assert f in Writes(Answers(true, true, true));
    }
  }

  /**
   Where the file without a problem is written: at its own entry in the directory the root resolves to,
   exactly unless that entry is a link. A write through a link creates a file that was not there.
   */
  lemma WrittenInPlaceIff(fs: FileSystem, root: Path, f: string)
    requires fs.Valid() && Normal(root) && WelcomeName(f)
    requires fs.Exists(root) && fs.Stat(root) == Some(Dir) && Problem(fs, root, f) == None
    ensures var place, written := fs.RealPath(root) + [f], fs.Written(root + [f]);
      && (written == Some(place) <==> !fs.IsLink(place))
      && (fs.IsLink(place) ==> !fs.Exists(root + [f]) && (written.Some? ==> fs.Fresh(written.value)))
  {
    var place := fs.RealPath(root) + [f];
    NoProblemIffHarmless(fs, root, f);
    fs.WrittenChild(root, f);
    fs.WrittenExistsOrFresh(root + [f]);
    fs.ResolveChild(root, f);
    fs.WalkOneStep(fs.RealPath(root), f, fs.Resolve(root).linksLeft);
  }

  /** For a root that is its own real path: only a link that leads nowhere yet is written through. */
  lemma WrittenElsewhereIff(fs: FileSystem, root: Path, f: string)
    requires fs.Valid() && fs.At(root) == Some(Dir) && WelcomeName(f)
    requires Problem(fs, root, f) == None && fs.Written(root + [f]).Some?
    ensures fs.Written(root + [f]) != Some(root + [f]) <==> fs.IsLink(root + [f]) && !fs.Exists(root + [f])
  {
    fs.RealResolves(root, fs.maxLinks);
    RealIsNormal(fs, root);
    WrittenInPlaceIff(fs, root, f);
  }

  /** After a `Ready` verdict on a directory every write stays in it exactly if no welcome file is a link. */
  lemma ReadyWritesInPlaceIff(fs: FileSystem, configured: Path)
    requires fs.Valid() && Normal(configured)
    requires var root := Canonical(fs, configured);
      && fs.Exists(root) && RootAccepted(fs, root)
      && (forall f :: f in WELCOME_WRITE_FILES ==> Harmless(fs, root, f))
    ensures var root := Canonical(fs, configured);
      (forall f :: f in WELCOME_WRITE_FILES ==> fs.Written(root + [f]) == Some(fs.RealPath(root) + [f])) <==>
      (forall f :: f in WELCOME_WRITE_FILES ==> !fs.IsLink(fs.RealPath(root) + [f]))
  {
    var root := Canonical(fs, configured);
    CanonicalIsNormal(fs, configured);
    forall f | f in WELCOME_WRITE_FILES
      ensures fs.Written(root + [f]) == Some(fs.RealPath(root) + [f]) <==> !fs.IsLink(fs.RealPath(root) + [f])
    {
      ProblemMeaning(fs, configured, f);
      WelcomeNames();
      WrittenInPlaceIff(fs, root, f);
    }
  }

  /** A workspace `/w` whose memory file is a link to a missing file of the directory `/d`. */
  function LinkToMissing(maxLinks: nat): FileSystem
  {
    FileSystem(map[["w"] := Dir, ["d"] := Dir, ["w", "MEMORY.md"] := Link(Target(true, ["d", "MEMORY.md"]))], maxLinks)
  }

  lemma LinkToMissingValid(maxLinks: nat)
    ensures LinkToMissing(maxLinks).Valid()
  {
    var fs := LinkToMissing(maxLinks);
    assert PlainName("w") && PlainName("d") && PlainName("MEMORY.md");
    forall p | p in fs.nodes
      ensures fs.WellPlaced(p)
    {
      assert p == ["w"] || p == ["d"] || p == ["w", "MEMORY.md"];
      assert Parent(["w", "MEMORY.md"]) == ["w"];
    }
  }

  lemma LinkToMissingWrite(maxLinks: nat)
    requires maxLinks > 0
    ensures LinkToMissing(maxLinks).Written(["w"] + ["MEMORY.md"]) == Some(["d", "MEMORY.md"])
  {
    var fs, f := LinkToMissing(maxLinks), "MEMORY.md";
    LinkToMissingValid(maxLinks);
    fs.RealResolves(["w"], maxLinks);
    fs.RealResolves(["d"], maxLinks - 1);
    assert ["w"] + [f] == ["w", f] && ["d"] + [f] == ["d", f];
    fs.WalkCreateAppend([], ["w"], [f], maxLinks);
    fs.WalkCreateOneStep(["w"], f, maxLinks);
    fs.WalkCreateAppend([], ["d"], [f], maxLinks - 1);
    fs.WalkCreateOneStep(["d"], f, maxLinks - 1);
  }

  lemma LinkToMissingLookup(maxLinks: nat, f: string)
    requires maxLinks > 0 && f in WELCOME_WRITE_FILES
    ensures !LinkToMissing(maxLinks).Exists(["w"] + [f])
  {
    var fs := LinkToMissing(maxLinks);
    WelcomeNames();
    LinkToMissingValid(maxLinks);
    fs.RealResolves(["w"], maxLinks);
    fs.ResolveChild(["w"], f);
    fs.WalkOneStep(["w"], f, maxLinks);
    if f == "MEMORY.md" {
      assert ["w"] + [f] == ["w", f] && ["d"] + [f] == ["d", f];
      fs.RealResolves(["d"], maxLinks - 1);
      fs.WalkAppend([], ["d"], [f], maxLinks - 1);
      fs.WalkOneStep(["d"], f, maxLinks - 1);
    } else {
      assert (["w"] + [f])[1] == f;
    }
  }

  /** So a `Ready` verdict does not keep the writes in the workspace, whatever the limit on links. */
  lemma ReadyWritesElsewhere(maxLinks: nat)
    requires maxLinks > 0
    ensures exists fs: FileSystem, root: Path, f ::
      && fs.maxLinks == maxLinks && fs.Valid() && Normal(root) && Canonical(fs, root) == root
      && fs.At(root) == Some(Dir) && (forall g :: g in WELCOME_WRITE_FILES ==> Harmless(fs, root, g))
      && f in WELCOME_WRITE_FILES
      && fs.Written(root + [f]).Some? && !IsPathInside(root, fs.Written(root + [f]).value)
  {
    var fs, root, f := LinkToMissing(maxLinks), ["w"], "MEMORY.md";
    LinkToMissingValid(maxLinks);
    fs.RealResolves(root, maxLinks);
    forall g | g in WELCOME_WRITE_FILES
      ensures Harmless(fs, root, g)
    {
      LinkToMissingLookup(maxLinks, g);
    }
    LinkToMissingWrite(maxLinks);
    assert root[..1] == root && root + [] == root;
    LongestUnique(fs, root, 1);
    assert Normal(root) && Normal(["d", f]);
    InsideIsPrefix(root, ["d", f]);
    assert f == WELCOME_WRITE_FILES[4];
    assert fs.Written(root + [f]).Some?;
  }

  // ---------- the escape rejection is reachable ----------

  /** Whatever the limit on links, some configured root has its user file rejected as an escape. */
  lemma EscapeReachable(maxLinks: nat)
    requires maxLinks > 0
    ensures exists fs: FileSystem, p: Path ::
      && fs.maxLinks == maxLinks && fs.Valid() && Normal(p)
      && Problem(fs, Canonical(fs, p), "USER.md") == Some(SymlinkEscape)
  {
    var fs, p, f := LoopBack(maxLinks), Repeat("l", maxLinks) + ["m"], "USER.md";
    LoopBackValid(maxLinks);
    LoopBackNormal(maxLinks);
    LoopBackRevives(maxLinks, p);
    NotDotted(f);
    var front := p[..maxLinks];
    assert front == Repeat("l", maxLinks) && p[maxLinks..] == ["m"];
    LoopBackUsesLinks(maxLinks, maxLinks);
    assert p[..maxLinks + 1] == p;
    RevivedRanOutOfLinks(fs, p);
    LongestUnique(fs, p, maxLinks);
    assert Canonical(fs, p) == ["m"];
    LoopBackFile(maxLinks);
    EscapeIffRevived(fs, p, f);
  }
}
