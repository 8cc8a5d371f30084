/** The third filter: the cells of the packet a language model answers from. */
module TaskContextPacket {
  import opened Prelude
  import opened AdmissionPolicy
  import opened Admission
  import opened ContextRuntime
  import Text

  /** The role a packet cell shows: an admission role, or the tag of a cell taken from retrieval. */
  datatype PacketRole = Decided(role: Role) | Tagged(tag: Tag) | Untagged

  datatype PacketCell = PacketCell(
    id: string,
    role: PacketRole,
    admitted: bool,
    anchor: Option<string>,
    lifecycle: Option<string>,
    allowedUse: seq<string>,
    blockedUse: seq<string>,
    answerAnchorEligible: bool)

  function FormatAdmittedCell(d: Decision): PacketCell
  {
    PacketCell(d.id, Decided(d.role), d.admitted, Truthy(d.cell.anchor), Truthy(d.cell.lifecycle),
      d.cell.allowedUse, d.cell.blockedUse, d.cell.eligible == Some(true))
  }

  function FormatExcludedCell(d: Decision): PacketCell
  {
    FormatAdmittedCell(d).(admitted := false, answerAnchorEligible := false)
  }

  function FormatRetrievedCandidate(c: Cell): PacketCell
  {
    PacketCell(c.id, if c.tag.Some? then Tagged(c.tag.value) else Untagged, false, Truthy(c.anchor),
      Truthy(c.lifecycle), c.allowedUse, c.blockedUse, c.eligible == Some(true))
  }

  const UNSAFE_LIFECYCLES: set<string> := NON_ANCHOR_LIFECYCLES + {"applied_pending_independent_replay"}

  /** The packet reads allowed uses as they are written, without trimming them. */
  predicate NamesAnchorUse(allowedUse: seq<string>)
  {
    allowedUse == [] || exists use :: use in allowedUse && use in ANCHOR_USES
  }

  /** `isSafeAnswerAnchor` */
  predicate IsSafeAnswerAnchor(cell: PacketCell)
  {
    && cell.role == Decided(Anchor)
    && cell.admitted
    && (cell.lifecycle.Some? ==> cell.lifecycle.value !in UNSAFE_LIFECYCLES)
    && NamesAnchorUse(cell.allowedUse)
    && "answer_anchor" !in cell.blockedUse
    && "automatic_answer_anchor" !in cell.blockedUse
  }

  // ---------- deduplication ----------

  predicate HasId(cells: seq<PacketCell>, id: string)
  {
    exists i :: 0 <= i < |cells| && cells[i].id == id
  }

  function FirstIndex(cells: seq<PacketCell>, id: string): (i: nat)
    requires HasId(cells, id)
    ensures i < |cells| && cells[i].id == id
    ensures forall j :: 0 <= j < i ==> cells[j].id != id
  {
    if cells[0].id == id then 0
    else
      var j :| 0 <= j < |cells| && cells[j].id == id;
      assert cells[1..][j - 1].id == id;
      assert forall k :: 0 < k < |cells| ==> cells[k] == cells[1..][k - 1];
      1 + FirstIndex(cells[1..], id)
  }

  function LastIndex(cells: seq<PacketCell>, id: string): (i: nat)
    requires HasId(cells, id)
    ensures i < |cells| && cells[i].id == id
    ensures forall j :: i < j < |cells| ==> cells[j].id != id
  {
    var n := |cells| - 1;
    if cells[n].id == id then n
    else
      var j :| 0 <= j < |cells| && cells[j].id == id;
      assert cells[..n][j].id == id;
      assert forall k :: 0 <= k < n ==> cells[k] == cells[..n][k];
      LastIndex(cells[..n], id)
  }

  /** `map.set(cell.id, cell)` on the entries of a `Map`: a known key keeps its place. */
  function MapSet(entries: seq<PacketCell>, cell: PacketCell): seq<PacketCell>
  {
    if HasId(entries, cell.id) then entries[FirstIndex(entries, cell.id) := cell] else entries + [cell]
  }

  /** `dedupeCells` */
  function DedupeCells(cells: seq<PacketCell>): seq<PacketCell>
  {
    if cells == [] then [] else MapSet(DedupeCells(cells[..|cells| - 1]), cells[|cells| - 1])
  }

  /** One cell an id, each the last one that has it, in the order the ids first appear. */
  ghost predicate Deduped(d: seq<PacketCell>, cells: seq<PacketCell>)
  {
    && (forall id :: HasId(d, id) <==> HasId(cells, id))
    && (forall i :: 0 <= i < |d| ==> HasId(cells, d[i].id) && d[i] == cells[LastIndex(cells, d[i].id)])
    && (forall i, j :: 0 <= i < j < |d| ==> Earlier(cells, d[i].id, d[j].id))
  }

  /** Both ids occur, and the first occurrence of the first precedes that of the second. */
  ghost predicate Earlier(cells: seq<PacketCell>, a: string, b: string)
  {
    HasId(cells, a) && HasId(cells, b) && FirstIndex(cells, a) < FirstIndex(cells, b)
  }

  lemma IndicesAppend(cells: seq<PacketCell>, c: PacketCell, id: string)
    ensures HasId(cells + [c], id) <==> HasId(cells, id) || c.id == id
    ensures HasId(cells + [c], id) ==>
      && FirstIndex(cells + [c], id) == (if HasId(cells, id) then FirstIndex(cells, id) else |cells|)
      && LastIndex(cells + [c], id) == (if c.id == id then |cells| else LastIndex(cells, id))
  {
    var all := cells + [c];
    assert forall i :: 0 <= i < |cells| ==> all[i] == cells[i];
    assert all[|cells|] == c;
    if HasId(cells, id) {
      var i :| 0 <= i < |cells| && cells[i].id == id;
      assert all[i].id == id;
      assert all[FirstIndex(cells, id)].id == id;
    } else if c.id == id {
      assert all[|cells|].id == id;
    }
  }

  lemma {:induction false} DedupeLaw(cells: seq<PacketCell>)
    ensures Deduped(DedupeCells(cells), cells)
  {
    if cells != [] {
      var front, c := cells[..|cells| - 1], cells[|cells| - 1];
      DedupeLaw(front);
      MapSetDedupes(DedupeCells(front), front, c);
      assert cells == front + [c];
    }
  }

  lemma MapSetIds(d: seq<PacketCell>, c: PacketCell, id: string)
    ensures HasId(MapSet(d, c), id) <==> HasId(d, id) || id == c.id
  {
    var e := MapSet(d, c);
    assert forall i :: 0 <= i < |d| ==> e[i].id == d[i].id;
    if HasId(d, id) {
      assert e[FirstIndex(d, id)].id == id;
    }
    if HasId(d, c.id) {
      assert e[FirstIndex(d, c.id)] == c;
    } else {
      assert e[|d|] == c;
    }
  }

  lemma OneIdOnce(d: seq<PacketCell>, cells: seq<PacketCell>, i: nat, j: nat)
    requires Deduped(d, cells) && i < |d| && j < |d| && d[i].id == d[j].id
    ensures i == j
  {
    assert i < j ==> Earlier(cells, d[i].id, d[j].id);
    assert j < i ==> Earlier(cells, d[j].id, d[i].id);
  }

  /** What `set` leaves at a place: the entry that was there, unless it has the id of the new cell. */
  lemma MapSetEntry(d: seq<PacketCell>, cells: seq<PacketCell>, c: PacketCell, i: nat)
    requires Deduped(d, cells) && i < |MapSet(d, c)|
    ensures var e := MapSet(d, c)[i];
      && (i < |d| ==> e.id == d[i].id)
      && (i >= |d| ==> i == |d| && !HasId(d, c.id) && !HasId(cells, c.id))
      && e == if i < |d| && d[i].id != c.id then d[i] else c
  {
    if i < |d| && d[i].id == c.id {
      OneIdOnce(d, cells, i, FirstIndex(d, c.id));
    }
  }

  lemma MapSetValues(d: seq<PacketCell>, cells: seq<PacketCell>, c: PacketCell, i: nat)
    requires Deduped(d, cells) && i < |MapSet(d, c)|
    ensures var e, all := MapSet(d, c)[i], cells + [c];
      HasId(all, e.id) && e == all[LastIndex(all, e.id)]
  {
    MapSetEntry(d, cells, c, i);
    IndicesAppend(cells, c, MapSet(d, c)[i].id);
  }

  lemma MapSetOrder(d: seq<PacketCell>, cells: seq<PacketCell>, c: PacketCell, i: nat, j: nat)
    requires Deduped(d, cells) && i < j < |MapSet(d, c)|
    ensures Earlier(cells + [c], MapSet(d, c)[i].id, MapSet(d, c)[j].id)
  {
    MapSetEntry(d, cells, c, i);
    MapSetEntry(d, cells, c, j);
    IndicesAppend(cells, c, MapSet(d, c)[i].id);
    IndicesAppend(cells, c, MapSet(d, c)[j].id);
    if j < |d| {
      assert Earlier(cells, d[i].id, d[j].id);
    }
  }

  lemma MapSetDedupes(d: seq<PacketCell>, cells: seq<PacketCell>, c: PacketCell)
    requires Deduped(d, cells)
    ensures Deduped(MapSet(d, c), cells + [c])
  {
    var e, all := MapSet(d, c), cells + [c];
    forall id
      ensures HasId(e, id) <==> HasId(all, id)
    {
      IndicesAppend(cells, c, id);
      MapSetIds(d, c, id);
    }
    forall i | 0 <= i < |e|
      ensures HasId(all, e[i].id) && e[i] == all[LastIndex(all, e[i].id)]
    {
      MapSetValues(d, cells, c, i);
    }
    forall i, j | 0 <= i < j < |e|
      ensures Earlier(all, e[i].id, e[j].id)
    {
      MapSetOrder(d, cells, c, i, j);
    }
  }

  // ---------- the packet ----------

  datatype Packet = Packet(
    admittedMemory: seq<PacketCell>,
    excludedMemory: seq<PacketCell>,
    anchors: seq<PacketCell>,
    support: seq<PacketCell>,
    conflictBoundaries: seq<PacketCell>,
    blockedCandidates: seq<PacketCell>)

  predicate IsSupport(cell: PacketCell)
  {
    cell.role == Decided(Support)
  }

  predicate IsConflict(cell: PacketCell)
  {
    cell.role == Decided(Conflict)
  }

  predicate IsNotConflict(cell: PacketCell)
  {
    cell.role != Decided(Conflict)
  }

  predicate IsIneligible(c: Cell)
  {
    c.eligible == Some(false)
  }

  /** The cells of `buildLlmReadyTaskContextPacket`. */
  function BuildPacket(handoff: Option<Handoff>, mesh: seq<Cell>, session: Session): Packet
  {
    var admission := BuildAdmissionPacket(RetrievedCells(handoff, mesh), session);
    var admitted := Map(FormatAdmittedCell, admission.admittedCells);
    var excluded := Map(FormatExcludedCell, admission.rejectedCells);
    Packet(admitted, excluded, Filter(IsSafeAnswerAnchor, admitted), Filter(IsSupport, admitted),
      Filter(IsConflict, excluded),
      DedupeCells(Filter(IsNotConflict, excluded) + Map(FormatRetrievedCandidate, Filter(IsIneligible, mesh))))
  }

  // ---------- what the packet shows ----------

  /** What the packet tells of a retrieved cell: its admission, and its authority unchanged. */
  function Shown(c: Cell, session: Session): PacketCell
  {
    var admitted := RoleOf(c, session) in {Anchor, Support};
    PacketCell(c.id, Decided(RoleOf(c, session)), admitted, Truthy(c.anchor), Truthy(c.lifecycle),
      c.allowedUse, c.blockedUse, admitted && c.eligible == Some(true))
  }

  function ShownCells(cells: seq<Cell>, session: Session): seq<PacketCell>
  {
    Map((c: Cell) => Shown(c, session), cells)
  }

  function FormatDecision(d: Decision): PacketCell
  {
    if d.admitted then FormatAdmittedCell(d) else FormatExcludedCell(d)
  }

  predicate InMemory(x: PacketCell)
  {
    x.role == Decided(Anchor) || x.role == Decided(Support)
  }

  predicate OutOfMemory(x: PacketCell)
  {
    x.role == Decided(Conflict) || x.role == Decided(Rejected) || x.role == Decided(Candidate)
  }

  predicate IsRefused(x: PacketCell)
  {
    x.role == Decided(Rejected) || x.role == Decided(Candidate)
  }

  /** A decision admits what it gives one of the two roles of memory. */
  predicate Consistent(decisions: seq<Decision>)
  {
    forall d :: d in decisions ==> d.admitted == (d.role in {Anchor, Support})
  }

  lemma DecisionsConsistent(cells: seq<Cell>, session: Session)
    ensures Consistent(Decisions(cells, session))
    ensures Map(FormatDecision, Decisions(cells, session)) == ShownCells(cells, session)
  {
  }

  lemma MemoryOfDecisions(decisions: seq<Decision>)
    requires Consistent(decisions)
    ensures Map(FormatAdmittedCell, Filter(IsAdmitted, decisions)) == Filter(InMemory, Map(FormatDecision, decisions))
    ensures Map(FormatExcludedCell, Filter(IsRejected, decisions)) == Filter(OutOfMemory, Map(FormatDecision, decisions))
  {
    MapFilter(FormatAdmittedCell, IsAdmitted, FormatDecision, InMemory, decisions);
    forall d | d in decisions
      ensures IsRejected(d) == OutOfMemory(FormatDecision(d))
    {
      match d.role {
        case Anchor =>
        case Support =>
        case _ =>
      }
    }
    MapFilter(FormatExcludedCell, IsRejected, FormatDecision, OutOfMemory, decisions);
  }

  lemma PacketMemory(handoff: Option<Handoff>, mesh: seq<Cell>, session: Session)
    ensures var packet, shown := BuildPacket(handoff, mesh, session), ShownCells(RetrievedCells(handoff, mesh), session);
      && packet.admittedMemory == Filter(InMemory, shown) && packet.excludedMemory == Filter(OutOfMemory, shown)
      && packet.support == Filter(IsSupport, packet.admittedMemory)
      && packet.conflictBoundaries == Filter(IsConflict, packet.excludedMemory)
      && packet.anchors == Filter(IsSafeAnswerAnchor, packet.admittedMemory)
      && packet.blockedCandidates == DedupeCells(
           Filter(IsNotConflict, packet.excludedMemory) + Map(FormatRetrievedCandidate, Filter(IsIneligible, mesh)))
  {
    var cells := RetrievedCells(handoff, mesh);
    DecisionsConsistent(cells, session);
    MemoryOfDecisions(Decisions(cells, session));
  }

  lemma PickFromMemory(shown: seq<PacketCell>)
    ensures Filter(IsSupport, Filter(InMemory, shown)) == Filter(IsSupport, shown)
    ensures Filter(IsSafeAnswerAnchor, Filter(InMemory, shown)) == Filter(IsSafeAnswerAnchor, shown)
    ensures Filter(IsConflict, Filter(OutOfMemory, shown)) == Filter(IsConflict, shown)
    ensures Filter(IsNotConflict, Filter(OutOfMemory, shown)) == Filter(IsRefused, shown)
  {
    FilterTwice(InMemory, IsSupport, shown);
    FilterTwice(InMemory, IsSafeAnswerAnchor, shown);
    FilterTwice(OutOfMemory, IsConflict, shown);
    FilterElements(OutOfMemory, shown);
    FilterAgrees(IsNotConflict, IsRefused, Filter(OutOfMemory, shown));
    FilterTwice(OutOfMemory, IsRefused, shown);
  }

  lemma ShownAre(cells: seq<Cell>, session: Session)
    ensures forall x :: x in ShownCells(cells, session) <==> exists c :: c in cells && x == Shown(c, session)
  {
    forall x
      ensures x in ShownCells(cells, session) <==> exists c :: c in cells && x == Shown(c, session)
    {
      MapMembers((c: Cell) => Shown(c, session), cells, x);
    }
  }

  /** Each list of the packet picks the retrieved cells of its roles, in the order of retrieval. */
  lemma PacketLists(handoff: Option<Handoff>, mesh: seq<Cell>, session: Session)
    ensures var packet, shown := BuildPacket(handoff, mesh, session), ShownCells(RetrievedCells(handoff, mesh), session);
      && Picked(packet.admittedMemory, InMemory, shown) && Picked(packet.excludedMemory, OutOfMemory, shown)
      && Picked(packet.support, IsSupport, shown) && Picked(packet.conflictBoundaries, IsConflict, shown)
      && Picked(packet.anchors, IsSafeAnswerAnchor, shown)
  {
    var shown := ShownCells(RetrievedCells(handoff, mesh), session);
    PacketMemory(handoff, mesh, session);
    PickFromMemory(shown);
    FilterPicks(InMemory, shown);
    FilterPicks(OutOfMemory, shown);
    FilterPicks(IsSupport, shown);
    FilterPicks(IsConflict, shown);
    FilterPicks(IsSafeAnswerAnchor, shown);
  }

  lemma ShownWithRole(cells: seq<Cell>, session: Session, role: Role, keep: PacketCell -> bool, x: PacketCell)
    requires forall y :: keep(y) <==> y.role == Decided(role)
    ensures x in Filter(keep, ShownCells(cells, session)) <==>
      exists c :: c in cells && RoleOf(c, session) == role && x == Shown(c, session)
  {
    FilterElements(keep, ShownCells(cells, session));
    ShownAre(cells, session);
  }

  /** The support and the conflict boundaries of a packet, cell by cell. */
  lemma PacketRoles(handoff: Option<Handoff>, mesh: seq<Cell>, session: Session, x: PacketCell)
    ensures var packet, cells := BuildPacket(handoff, mesh, session), RetrievedCells(handoff, mesh);
      && (x in packet.support <==>
            exists c :: c in cells && RoleOf(c, session) == Support && x == Shown(c, session))
      && (x in packet.conflictBoundaries <==>
            exists c :: c in cells && RoleOf(c, session) == Conflict && x == Shown(c, session))
  {
    var cells := RetrievedCells(handoff, mesh);
    PacketMemory(handoff, mesh, session);
    PickFromMemory(ShownCells(cells, session));
    ShownWithRole(cells, session, Support, IsSupport, x);
    ShownWithRole(cells, session, Conflict, IsConflict, x);
  }

  /** What the packet tells of a cell retrieval found ineligible: its tag, and its authority unchanged. */
  function ShownCandidate(c: Cell): PacketCell
  {
    PacketCell(c.id, if c.tag == None then Untagged else Tagged(c.tag.value), false, Truthy(c.anchor),
      Truthy(c.lifecycle), c.allowedUse, c.blockedUse, c.eligible == Some(true))
  }

  /**
   The blocked candidates: of the cells refused without a conflict, followed by the stored cells found
   ineligible, one an id, the last.
   */
  lemma BlockedCandidatesAre(handoff: Option<Handoff>, mesh: seq<Cell>, session: Session)
    returns (refused: seq<PacketCell>, ineligible: seq<Cell>)
    ensures refused == Filter(IsRefused, ShownCells(RetrievedCells(handoff, mesh), session))
    ensures ineligible == Filter(IsIneligible, mesh)
    ensures Deduped(BuildPacket(handoff, mesh, session).blockedCandidates, refused + Map(ShownCandidate, ineligible))
  {
    PacketMemory(handoff, mesh, session);
    PickFromMemory(ShownCells(RetrievedCells(handoff, mesh), session));
    refused := Filter(IsRefused, ShownCells(RetrievedCells(handoff, mesh), session));
    ineligible := Filter(IsIneligible, mesh);
    assert Map(FormatRetrievedCandidate, ineligible) == Map(ShownCandidate, ineligible);
    DedupeLaw(refused + Map(ShownCandidate, ineligible));
  }

  /** The ids of the blocked candidates: refused without a conflict, or found ineligible by retrieval. */
  lemma BlockedCandidateIff(handoff: Option<Handoff>, mesh: seq<Cell>, session: Session, id: string)
    ensures HasId(BuildPacket(handoff, mesh, session).blockedCandidates, id) <==>
      || (exists c :: c in RetrievedCells(handoff, mesh) && c.id == id && RoleOf(c, session) in {Rejected, Candidate})
      || (exists c :: c in mesh && c.id == id && c.eligible == Some(false))
  {
    var refused, ineligible := BlockedCandidatesAre(handoff, mesh, session);
    HasIdAppend(refused, Map(ShownCandidate, ineligible), id);
    RefusedIds(RetrievedCells(handoff, mesh), session, id);
    IneligibleIds(mesh, id);
  }

  lemma HasIdAppend(a: seq<PacketCell>, b: seq<PacketCell>, id: string)
    ensures HasId(a + b, id) <==> HasId(a, id) || HasId(b, id)
  {
    HasIdIn(a, id);
    HasIdIn(b, id);
    HasIdIn(a + b, id);
  }

  lemma RefusedIds(cells: seq<Cell>, session: Session, id: string)
    ensures HasId(Filter(IsRefused, ShownCells(cells, session)), id) <==>
      exists c :: c in cells && c.id == id && RoleOf(c, session) in {Rejected, Candidate}
  {
    var refused := Filter(IsRefused, ShownCells(cells, session));
    FilterElements(IsRefused, ShownCells(cells, session));
    ShownAre(cells, session);
    HasIdIn(refused, id);
    if c :| c in cells && c.id == id && RoleOf(c, session) in {Rejected, Candidate} {
      assert Shown(c, session) in refused;
    }
  }

  lemma IneligibleIds(mesh: seq<Cell>, id: string)
    ensures HasId(Map(ShownCandidate, Filter(IsIneligible, mesh)), id) <==>
      exists c :: c in mesh && c.id == id && c.eligible == Some(false)
  {
    FilterElements(IsIneligible, mesh);
    CandidateIds(Filter(IsIneligible, mesh), id);
  }

  lemma CandidateIds(cells: seq<Cell>, id: string)
    ensures HasId(Map(ShownCandidate, cells), id) <==> exists c :: c in cells && c.id == id
  {
    var shown := Map(ShownCandidate, cells);
    if HasId(shown, id) {
      assert cells[FirstIndex(shown, id)] in cells;
    }
    if c :| c in cells && c.id == id {
      var i :| 0 <= i < |cells| && cells[i] == c;
      assert shown[i].id == id;
    }
  }

  /** A retrieved cell that ends up as a safe answer anchor. */
  predicate SafeAnchor(c: Cell, session: Session)
  {
    IsSafeAnswerAnchor(FormatAdmittedCell(Decide(c, session)))
  }

  lemma TrimmedMember(values: seq<string>, use: string)
    ensures use in values && Text.Trim(use) == use && use != "" ==> use in Uses(values)
  {
  }

  /**
   What the last filter adds to admission: it refuses an anchor only for one more lifecycle, one more
   blocked use, and allowed uses that admission recognised only after trimming them.
   */
  lemma SafeAnchorIff(c: Cell, session: Session)
    ensures SafeAnchor(c, session) <==>
      && RoleOf(c, session) == Anchor
      && c.lifecycle != Some("applied_pending_independent_replay")
      && (c.allowedUse == []
          || exists use :: use in c.allowedUse && use in {"answer_anchor", "admit", "admit_for_current_turn"})
      && "automatic_answer_anchor" !in c.blockedUse
  {
    var use := "answer_anchor";
    Text.TrimWord(use);
    TrimmedMember(c.blockedUse, use);
  }

  /** An anchor of the packet shows a retrieved cell that is a safe anchor. */
  lemma PacketAnchorOrigin(handoff: Option<Handoff>, mesh: seq<Cell>, session: Session, a: PacketCell) returns (c: Cell)
    requires a in BuildPacket(handoff, mesh, session).anchors
    ensures c in RetrievedCells(handoff, mesh) && SafeAnchor(c, session) && a == FormatAdmittedCell(Decide(c, session))
  {
    var cells := RetrievedCells(handoff, mesh);
    var decisions := BuildAdmissionPacket(cells, session).admittedCells;
    FilterElements(IsSafeAnswerAnchor, Map(FormatAdmittedCell, decisions));
    MapMembers(FormatAdmittedCell, decisions, a);
    var d :| d in decisions && FormatAdmittedCell(d) == a;
    PacketMembers(cells, session, d);
    c := d.cell;
  }

  /** Every retrieved cell that is a safe anchor is an anchor of the packet. */
  lemma SafeAnchorShown(handoff: Option<Handoff>, mesh: seq<Cell>, session: Session, c: Cell)
    requires c in RetrievedCells(handoff, mesh) && SafeAnchor(c, session)
    ensures FormatAdmittedCell(Decide(c, session)) in BuildPacket(handoff, mesh, session).anchors
  {
    var cells := RetrievedCells(handoff, mesh);
    var decisions := BuildAdmissionPacket(cells, session).admittedCells;
    PacketMembers(cells, session, Decide(c, session));
    FilterElements(IsSafeAnswerAnchor, Map(FormatAdmittedCell, decisions));
    MapMembers(FormatAdmittedCell, decisions, FormatAdmittedCell(Decide(c, session)));
  }

  /** The ids the packet warns about: conflicts and blocked candidates. */
  predicate Warned(packet: Packet, id: string)
  {
    HasId(packet.conflictBoundaries, id) || HasId(packet.blockedCandidates, id)
  }

  /** A cell the packet must not answer from: refused by admission, or found ineligible by retrieval. */
  predicate Refused(c: Cell, mesh: seq<Cell>, session: Session)
  {
    !Admits(RoleOf(c, session)) || (c in mesh && c.eligible == Some(false))
  }

  lemma HasIdIn(cells: seq<PacketCell>, id: string)
    ensures HasId(cells, id) <==> exists c :: c in cells && c.id == id
  {
    if HasId(cells, id) {
      assert cells[FirstIndex(cells, id)] in cells;
    }
    if c :| c in cells && c.id == id {
      var i :| 0 <= i < |cells| && cells[i] == c;
    }
  }

  lemma ExcludedOrigin(cells: seq<Cell>, session: Session, p: PacketCell) returns (c: Cell)
    requires p in Map(FormatExcludedCell, BuildAdmissionPacket(cells, session).rejectedCells)
    ensures c in cells && !Admits(RoleOf(c, session)) && p.id == c.id
  {
    var rejected := BuildAdmissionPacket(cells, session).rejectedCells;
    MapMembers(FormatExcludedCell, rejected, p);
    var d :| d in rejected && FormatExcludedCell(d) == p;
    PacketMembers(cells, session, d);
    c := d.cell;
  }

  lemma RejectedIsExcluded(cells: seq<Cell>, session: Session, c: Cell)
    requires c in cells && !Admits(RoleOf(c, session))
    ensures FormatExcludedCell(Decide(c, session))
      in Map(FormatExcludedCell, BuildAdmissionPacket(cells, session).rejectedCells)
  {
    var rejected := BuildAdmissionPacket(cells, session).rejectedCells;
    PacketMembers(cells, session, Decide(c, session));
    MapMembers(FormatExcludedCell, rejected, FormatExcludedCell(Decide(c, session)));
  }

  lemma IneligibleMembers(mesh: seq<Cell>, p: PacketCell)
    ensures p in Map(FormatRetrievedCandidate, Filter(IsIneligible, mesh)) <==>
      exists c :: c in mesh && c.eligible == Some(false) && p == FormatRetrievedCandidate(c)
  {
    FilterElements(IsIneligible, mesh);
    MapMembers(FormatRetrievedCandidate, Filter(IsIneligible, mesh), p);
  }

  /** The cells the packet excludes, and those retrieval found ineligible. */
  function Cautions(handoff: Option<Handoff>, mesh: seq<Cell>, session: Session): seq<PacketCell>
  {
    BuildPacket(handoff, mesh, session).excludedMemory + Map(FormatRetrievedCandidate, Filter(IsIneligible, mesh))
  }

  lemma WarnedMembers(handoff: Option<Handoff>, mesh: seq<Cell>, session: Session, id: string)
    ensures var packet := BuildPacket(handoff, mesh, session);
      Warned(packet, id) <==> HasId(Cautions(handoff, mesh, session), id)
  {
    var packet := BuildPacket(handoff, mesh, session);
    var excluded := packet.excludedMemory;
    var ineligible := Map(FormatRetrievedCandidate, Filter(IsIneligible, mesh));
    var candidates := Filter(IsNotConflict, excluded) + ineligible;
    DedupeLaw(candidates);
    assert HasId(packet.blockedCandidates, id) <==> HasId(candidates, id);
    HasIdIn(candidates, id);
    HasIdIn(packet.conflictBoundaries, id);
    HasIdIn(excluded + ineligible, id);
    FilterElements(IsConflict, excluded);
    FilterElements(IsNotConflict, excluded);
  }

  lemma WarnedOrigin(handoff: Option<Handoff>, mesh: seq<Cell>, session: Session, p: PacketCell)
    returns (c: Cell)
    requires p in Cautions(handoff, mesh, session)
    ensures c in RetrievedCells(handoff, mesh) && c.id == p.id && Refused(c, mesh, session)
  {
    if p in BuildPacket(handoff, mesh, session).excludedMemory {
      c := ExcludedOrigin(RetrievedCells(handoff, mesh), session, p);
    } else {
      IneligibleMembers(mesh, p);
      c :| c in mesh && c.eligible == Some(false) && p == FormatRetrievedCandidate(c);
    }
  }

  lemma RefusedIsWarned(handoff: Option<Handoff>, mesh: seq<Cell>, session: Session, c: Cell) returns (p: PacketCell)
    requires c in RetrievedCells(handoff, mesh) && Refused(c, mesh, session)
    ensures p in Cautions(handoff, mesh, session)
    ensures p.id == c.id
  {
    if !Admits(RoleOf(c, session)) {
      p := FormatExcludedCell(Decide(c, session));
      RejectedIsExcluded(RetrievedCells(handoff, mesh), session, c);
    } else {
      p := FormatRetrievedCandidate(c);
      IneligibleMembers(mesh, p);
    }
  }

  /** The packet warns about exactly the ids of the cells it must not answer from. */
  lemma WarnedIff(handoff: Option<Handoff>, mesh: seq<Cell>, session: Session, id: string)
    ensures Warned(BuildPacket(handoff, mesh, session), id) <==>
      exists c :: c in RetrievedCells(handoff, mesh) && c.id == id && Refused(c, mesh, session)
  {
    var warned := Cautions(handoff, mesh, session);
    WarnedMembers(handoff, mesh, session, id);
    HasIdIn(warned, id);
    if p: PacketCell :| p in warned && p.id == id {
      var c := WarnedOrigin(handoff, mesh, session, p);
    }
    if c :| c in RetrievedCells(handoff, mesh) && c.id == id && Refused(c, mesh, session) {
      var p := RefusedIsWarned(handoff, mesh, session, c);
    }
  }

  /** No id is both an answer anchor and something the packet warns about. */
  ghost predicate Disjoint(packet: Packet)
  {
    forall a :: a in packet.anchors ==> !Warned(packet, a.id)
  }

  /** No cell that shares its id with a safe anchor is refused. */
  ghost predicate TwinsAgree(cells: seq<Cell>, mesh: seq<Cell>, session: Session)
  {
    forall c, c' :: c in cells && c' in cells && c.id == c'.id && SafeAnchor(c, session) ==>
      !Refused(c', mesh, session)
  }

  /** Anchors and warnings are disjoint exactly when cells with the same id agree. */
  lemma DisjointIff(handoff: Option<Handoff>, mesh: seq<Cell>, session: Session)
    ensures Disjoint(BuildPacket(handoff, mesh, session)) <==> TwinsAgree(RetrievedCells(handoff, mesh), mesh, session)
  {
    var cells, packet := RetrievedCells(handoff, mesh), BuildPacket(handoff, mesh, session);
    if Disjoint(packet) {
      forall c, c' | c in cells && c' in cells && c.id == c'.id && SafeAnchor(c, session)
        ensures !Refused(c', mesh, session)
      {
        SafeAnchorShown(handoff, mesh, session, c);
        WarnedIff(handoff, mesh, session, c.id);
      }
    }
    if TwinsAgree(cells, mesh, session) {
      forall a | a in packet.anchors
        ensures !Warned(packet, a.id)
      {
        var c := PacketAnchorOrigin(handoff, mesh, session, a);
        WarnedIff(handoff, mesh, session, a.id);
      }
    }
  }

  predicate UniqueIds(cells: seq<Cell>)
  {
    forall i, j :: 0 <= i < j < |cells| ==> cells[i].id != cells[j].id
  }

  lemma OneCellPerId(cells: seq<Cell>, c: Cell, c': Cell)
    requires UniqueIds(cells) && c in cells && c' in cells && c.id == c'.id
    ensures c == c'
  {
    var i :| 0 <= i < |cells| && cells[i] == c;
    var j :| 0 <= j < |cells| && cells[j] == c';
    assert i == j;
  }

  lemma AnchorNotRefused(c: Cell, mesh: seq<Cell>, session: Session)
    requires SafeAnchor(c, session)
    ensures !Refused(c, mesh, session)
  {
  }

  /** When no two retrieved cells share an id, no anchor is ever warned about. */
  lemma UniqueIdsDisjoint(handoff: Option<Handoff>, mesh: seq<Cell>, session: Session)
    requires UniqueIds(RetrievedCells(handoff, mesh))
    ensures Disjoint(BuildPacket(handoff, mesh, session))
  {
    var cells := RetrievedCells(handoff, mesh);
    forall c, c' | c in cells && c' in cells && c.id == c'.id && SafeAnchor(c, session)
      ensures !Refused(c', mesh, session)
    {
      OneCellPerId(cells, c, c');
      AnchorNotRefused(c, mesh, session);
    }
    DisjointIff(handoff, mesh, session);
  }

  /** Every anchor that came from the mesh was an answer anchor for the policy, and permitted as one. */
  lemma AnchorPermittedByPolicy(mesh: seq<Cell>, policy: RequestPolicy, session: Session, c: Cell)
    requires c in mesh && c == Retrieve(c, policy, session.kind)
    requires SafeAnchor(c, session)
    ensures CandidateUse(c, policy).tag == AnswerAnchor && AuthorityUse(c).anchor
  {
    NoUpgrade(c, policy, session, Score(c, session));
  }

  /** A turn about the release has a safe answer anchor, whatever else was retrieved. */
  lemma ReleaseTurnHasAnchor(handoff: Option<Handoff>, mesh: seq<Cell>, session: Session)
    requires session.activeTargetId == RELEASE_TARGET
    ensures FormatAdmittedCell(Decide(RELEASE_CELL, session)) in BuildPacket(handoff, mesh, session).anchors
  {
    BuiltInsAdmitted(session);
    assert CORE_ALLOWED_USE[1] == "admit";
    SafeAnchorIff(RELEASE_CELL, session);
    assert RELEASE_CELL in RetrievedCells(handoff, mesh);
    SafeAnchorShown(handoff, mesh, session, RELEASE_CELL);
  }

  /** A cell the packet may answer from in this session. */
  predicate Answerable(c: Cell, session: Session)
  {
    && (c.anchor == Some(session.activeTargetId) || MatchesReferent(c, session))
    && AuthorityUse(c) == Permissions(true, true, true)
    && !Contradicts(c, session) && !HighRisk(c)
  }

  /** The session of a turn, and the policy retrieval works out for it a second time. */
  function SessionOf(turn: Turn, priorFlow: Option<string>, referent: Option<string>): Session
  {
    Session(ClassifyRequestTarget(turn, priorFlow).activeTargetId, referent, turn.kind)
  }

  function MeshPolicy(turn: Turn, priorFlow: Option<string>): RequestPolicy
  {
    ClassifyRequestTarget(turn, Some(ClassifyRequestTarget(turn, priorFlow).activeTargetId))
  }

  /** What retrieval returns: stored cells with the use and the positive score the policy gives them. */
  predicate RetrievedBy(mesh: seq<Cell>, policy: RequestPolicy, kind: string)
  {
    forall c :: c in mesh ==> c == Retrieve(c, policy, kind) && c.meshScore.value > 0.0
  }

  /** An anchor among stored cells names the target of the turn itself: a referent is never enough. */
  lemma MeshAnchorMatches(c: Cell, policy: RequestPolicy, session: Session)
    requires c == Retrieve(c, policy, session.kind) && policy.activeTargetId == session.activeTargetId
    requires RoleOf(c, session) == Anchor
    ensures c.anchor == Some(session.activeTargetId)
  {
    NoUpgrade(c, policy, session, Score(c, session));
  }

  lemma AnchorAnswerable(c: Cell, session: Session)
    requires SafeAnchor(c, session) && (c.meshScore.Some? ==> c.meshScore.value >= 0.0)
    ensures Answerable(c, session)
  {
    AnchorIff(c, session);
  }

  lemma RetrievedScores(handoff: Option<Handoff>, mesh: seq<Cell>, policy: RequestPolicy, kind: string, c: Cell)
    requires RetrievedBy(mesh, policy, kind) && c in RetrievedCells(handoff, mesh)
    ensures c.meshScore.Some? ==> c.meshScore.value >= 0.0
  {
    if c !in mesh && handoff.Some? && c == ContinuityTCell(handoff.value) {
      assert c.meshScore == None;
    }
  }

  lemma AnchorDecision(c: Cell, session: Session)
    requires SafeAnchor(c, session)
    ensures RoleOf(c, session) == Anchor && FormatAdmittedCell(Decide(c, session)).id == c.id
  {
  }

  lemma StoredAnchorOfTurn(turn: Turn, priorFlow: Option<string>, referent: Option<string>, mesh: seq<Cell>, c: Cell)
    requires RetrievedBy(mesh, MeshPolicy(turn, priorFlow), turn.kind) && c in mesh
    requires RoleOf(c, SessionOf(turn, priorFlow, referent)) == Anchor
    ensures c.anchor == Some(ClassifyRequestTarget(turn, priorFlow).activeTargetId)
  {
    RetrievalAgrees(turn, priorFlow);
    MeshAnchorMatches(c, MeshPolicy(turn, priorFlow), SessionOf(turn, priorFlow, referent));
  }

  /**
   All three filters of one turn, from the words of the turn to the packet: every anchor of the packet
   comes from a cell the turn may answer from, and if from a stored cell, one about the turn's own target.
   */
  lemma TurnAnchors(turn: Turn, priorFlow: Option<string>, referent: Option<string>, handoff: Option<Handoff>,
    mesh: seq<Cell>, a: PacketCell) returns (c: Cell)
    requires RetrievedBy(mesh, MeshPolicy(turn, priorFlow), turn.kind)
    requires a in BuildPacket(handoff, mesh, SessionOf(turn, priorFlow, referent)).anchors
    ensures c in RetrievedCells(handoff, mesh) && c.id == a.id
    ensures Answerable(c, SessionOf(turn, priorFlow, referent))
    ensures c in mesh ==> c.anchor == Some(ClassifyRequestTarget(turn, priorFlow).activeTargetId)
  {
    var session := SessionOf(turn, priorFlow, referent);
    c := PacketAnchorOrigin(handoff, mesh, session, a);
    RetrievedScores(handoff, mesh, MeshPolicy(turn, priorFlow), turn.kind, c);
    AnchorDecision(c, session);
    AnchorAnswerable(c, session);
    if c in mesh {
      StoredAnchorOfTurn(turn, priorFlow, referent, mesh, c);
    }
  }
}
