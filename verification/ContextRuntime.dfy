/** The cells a turn retrieves: a continuity cell, the two built-in cells, and whatever the mesh finds. */
module ContextRuntime {
  import opened Prelude
  import opened AdmissionPolicy
  import opened Admission

  const CORE_ALLOWED_USE: seq<string> := ["retrieve", "admit", "explain", "draft"]
  const CORE_BLOCKED_USE: seq<string> := ["external_action", "durable_mutation"]

  /** `buildCoreTCell` */
  function CoreTCell(id: string, anchor: string, validFor: seq<string>, confidence: real, risk: real): Cell
  {
    Cell(id, Some(anchor), Some("reviewed"), CORE_ALLOWED_USE, CORE_BLOCKED_USE, validFor, [],
      Some(Weights(Some(confidence), Some(risk))), 0, None, None, None)
  }

  const RELEASE_CELL: Cell :=
    CoreTCell("tcell.active-target.release-file", RELEASE_TARGET, ["follow_up", "artifact_request"], 0.84, 0.2)

  const AUTHORITY_CELL: Cell :=
    CoreTCell("tcell.authority.local-preview-first", "authority-boundary",
      ["authority_request", "artifact_request", "follow_up"], 0.9, 0.62)

  /** What a session handoff recovered: an entity, and whether it is carried without asking. */
  datatype Handoff = Handoff(cellId: string, entity: string, autoCarry: bool, confidence: real)

  /** `buildSessionContinuityTCell` */
  function ContinuityTCell(handoff: Handoff): Cell
  {
    CoreTCell(handoff.cellId, "referent:" + handoff.entity, ["follow_up"], handoff.confidence, 0.18)
      .(eligible := Some(handoff.autoCarry))
  }

  /** The `retrievedCells` of `buildContextRuntime`. */
  function RetrievedCells(handoff: Option<Handoff>, mesh: seq<Cell>): seq<Cell>
  {
    (if handoff.Some? then [ContinuityTCell(handoff.value)] else []) + [RELEASE_CELL, AUTHORITY_CELL] + mesh
  }

  /** The uses every cell of the runtime's own making is allowed and denied. */
  lemma CoreUses()
    ensures Uses(CORE_ALLOWED_USE) == {"retrieve", "admit", "explain", "draft"}
    ensures Uses(CORE_BLOCKED_USE) == {"external_action", "durable_mutation"}
  {
    UsesOfFour("retrieve", "admit", "explain", "draft");
    UsesOfTwo("external_action", "durable_mutation");
  }

  /** Words are told apart by their first letters. */
  lemma OtherWord(a: string, b: string)
    requires a != "" && b != "" && a[0] != b[0]
    ensures a != b
  {
  }

  lemma NotAllowedWord(allowed: set<string>, use: string)
    requires allowed == {"retrieve", "admit", "explain", "draft"}
    requires use != "" && use[0] != 'r' && use[0] != 'a' && use[0] != 'e' && use[0] != 'd'
    ensures use !in allowed
  {
    OtherWord(use, "retrieve");
    OtherWord(use, "admit");
    OtherWord(use, "explain");
    OtherWord(use, "draft");
  }

  lemma NotBlockedWord(blocked: set<string>, use: string)
    requires blocked == {"external_action", "durable_mutation"}
    requires use != "" && use[0] != 'e' && use[0] != 'd'
    ensures use !in blocked
  {
    OtherWord(use, "external_action");
    OtherWord(use, "durable_mutation");
  }

  lemma ContextNotBlocked(allowed: set<string>, blocked: set<string>)
    requires allowed == {"retrieve", "admit", "explain", "draft"}
    requires blocked == {"external_action", "durable_mutation"}
    ensures !AllContextBlocked(allowed, blocked)
  {
    NotAllowedWord(allowed, "none");
    NotAllowedWord(allowed, "blocked");
    NotBlockedWord(blocked, "all_context_use");
    NotBlockedWord(blocked, "context_use");
    NotBlockedWord(blocked, "admit_for_current_turn");
  }

  lemma UsesNotBlocked(blocked: set<string>)
    requires blocked == {"external_action", "durable_mutation"}
    ensures "answer_anchor" !in blocked && "supporting_context" !in blocked && "candidate_evidence" !in blocked
  {
    NotBlockedWord(blocked, "answer_anchor");
    NotBlockedWord(blocked, "supporting_context");
    NotBlockedWord(blocked, "candidate_evidence");
  }

  lemma AdmitAllows(allowed: set<string>)
    requires "admit" in allowed
    ensures Allows(allowed, ANCHOR_USES) && Allows(allowed, SUPPORT_USES) && Allows(allowed, EVIDENCE_USES)
  {
    assert "admit" in allowed * ANCHOR_USES;
    AllowedUsesNest(allowed);
  }

  lemma ReviewedAllowsAnchor()
    ensures LifecycleAllowsAnchor(Some("reviewed"))
  {
    assert "reviewed"[2] == 'v' && "raw_signal"[2] == 'w' && "rejected"[2] == 'j';
    assert "reviewed"[0] == 'r' && "stale"[0] == 's' && "archived"[0] == 'a' && "candidate"[0] == "conflicted"[0] == 'c';
  }

  lemma PermitsOf(cell: Cell, allowed: set<string>, blocked: set<string>)
    requires Uses(cell.allowedUse) == allowed == {"retrieve", "admit", "explain", "draft"}
    requires Uses(cell.blockedUse) == blocked == {"external_action", "durable_mutation"}
    requires LifecycleAllowsAnchor(cell.lifecycle)
    ensures AuthorityUse(cell) == Permissions(true, true, true)
  {
    ContextNotBlocked(allowed, blocked);
    UsesNotBlocked(blocked);
    AdmitAllows(allowed);
  }

  /** A cell with the uses of the runtime's own cells, reviewed, may be used for everything. */
  lemma CorePermits(cell: Cell)
    requires cell.allowedUse == CORE_ALLOWED_USE && cell.blockedUse == CORE_BLOCKED_USE
    requires cell.lifecycle == Some("reviewed")
    ensures AuthorityUse(cell) == Permissions(true, true, true)
  {
    CoreUses();
    ReviewedAllowsAnchor();
    PermitsOf(cell, Uses(cell.allowedUse), Uses(cell.blockedUse));
  }

  lemma ReferentName(entity: string)
    ensures ("referent:" + entity)[2] == 'f'
  {
  }

  /** A name that does not spell a referent never matches one. */
  lemma NoReferent(cell: Cell, session: Session)
    requires cell.anchor.Some? && |cell.anchor.value| > 3 && cell.anchor.value[2] != 'f'
    ensures !MatchesReferent(cell, session)
  {
    ReferentName(if session.activeReferent.Some? then session.activeReferent.value else "");
  }

  /** The role of a cell the runtime makes itself, once its score is above the threshold. */
  lemma CoreRole(cell: Cell, session: Session)
    requires AuthorityUse(cell) == Permissions(true, true, true)
    requires cell.contradicts == [] && cell.tag == None && !HighRisk(cell) && Score(cell, session) >= 5
    ensures RoleOf(cell, session) ==
      if cell.eligible == Some(false) then Support
      else if MatchesReferent(cell, session) then (if cell.eligible == Some(true) then Anchor else Support)
      else if cell.anchor == Some(session.activeTargetId) then Anchor
      else Support
  {
  }

  /** A confident cell without demerits scores above the threshold on its confidence alone. */
  lemma CoreScore(cell: Cell, session: Session)
    requires cell.contradicts == [] && cell.tag == None && cell.meshScore == None && !HighRisk(cell)
    requires cell.lifecycle == Some("reviewed")
    ensures Score(cell, session) >= ConfidencePart(cell) >= 0
    ensures MatchesReferent(cell, session) ==> Score(cell, session) >= 36
  {
    PartBounds(cell);
    assert "reviewed"[0] != "candidate"[0];
  }

  /** A confident cell of the runtime's own making is admitted in every session, and anchors its own target. */
  lemma CoreCellAdmitted(id: string, anchor: string, validFor: seq<string>, confidence: real, risk: real, session: Session)
    requires |anchor| > 3 && anchor[2] != 'f' && 0.55 <= confidence <= 1.0 && risk <= 0.8
    ensures var cell := CoreTCell(id, anchor, validFor, confidence, risk);
      Admits(RoleOf(cell, session)) && (RoleOf(cell, session) == Anchor <==> session.activeTargetId == anchor)
  {
    var cell := CoreTCell(id, anchor, validFor, confidence, risk);
    CorePermits(cell);
    NoReferent(cell, session);
    RoundBounds(confidence * 10.0, 5, 10);
    CoreScore(cell, session);
    CoreRole(cell, session);
  }

  /** Both built-in cells are admitted in every session, and each anchors exactly its own target. */
  lemma BuiltInsAdmitted(session: Session)
    ensures Admits(RoleOf(RELEASE_CELL, session)) && Admits(RoleOf(AUTHORITY_CELL, session))
    ensures RoleOf(RELEASE_CELL, session) == Anchor <==> session.activeTargetId == RELEASE_TARGET
    ensures RoleOf(AUTHORITY_CELL, session) == Anchor <==> session.activeTargetId == "authority-boundary"
  {
    CoreCellAdmitted(RELEASE_CELL.id, RELEASE_TARGET, RELEASE_CELL.validFor, 0.84, 0.2, session);
    CoreCellAdmitted(AUTHORITY_CELL.id, "authority-boundary", AUTHORITY_CELL.validFor, 0.9, 0.62, session);
  }

  /** The continuity cell anchors the answer when the handoff is carried, and only supports it otherwise. */
  lemma ContinuityRole(handoff: Handoff, session: Session)
    requires handoff.entity != "" && session.activeReferent == Some(handoff.entity)
    ensures RoleOf(ContinuityTCell(handoff), session) == if handoff.autoCarry then Anchor else Support
  {
    var cell := ContinuityTCell(handoff);
    CorePermits(cell);
    assert MatchesReferent(cell, session);
    CoreScore(cell, session);
    CoreRole(cell, session);
  }

  /** Whatever else was retrieved, a turn about the release is ready. */
  lemma ReleaseTurnReady(handoff: Option<Handoff>, mesh: seq<Cell>, session: Session)
    requires session.activeTargetId == RELEASE_TARGET
    ensures BuildAdmissionPacket(RetrievedCells(handoff, mesh), session).ready
  {
    BuiltInsAdmitted(session);
    assert RELEASE_CELL in RetrievedCells(handoff, mesh);
    PacketPartition(RetrievedCells(handoff, mesh), session);
  }

  /** A carried referent comes first as the strongest anchor; without a handoff the release is it in its turns. */
  lemma StrongestAnchorOfTurn(handoff: Option<Handoff>, mesh: seq<Cell>, session: Session)
    requires session.activeTargetId == RELEASE_TARGET
    requires handoff.Some? ==>
      handoff.value.entity != "" && handoff.value.cellId != "" && session.activeReferent == Some(handoff.value.entity)
    ensures BuildAdmissionPacket(RetrievedCells(handoff, mesh), session).strongestAnchor
         == Some(if handoff.Some? && handoff.value.autoCarry then handoff.value.cellId
                 else "tcell.active-target.release-file")
  {
    var cells := RetrievedCells(handoff, mesh);
    BuiltInsAdmitted(session);
    if handoff.Some? {
      ContinuityRole(handoff.value, session);
      assert cells[0] == ContinuityTCell(handoff.value) && cells[1] == RELEASE_CELL;
      StrongestIsFirst(cells, session, if handoff.value.autoCarry then 0 else 1);
    } else {
      assert cells[0] == RELEASE_CELL;
      StrongestIsFirst(cells, session, 0);
    }
  }

  /** Whatever was retrieved beside them, both built-in cells are on the admitted side of the packet. */
  lemma BuiltInsInPacket(handoff: Option<Handoff>, mesh: seq<Cell>, session: Session)
    ensures var admitted := BuildAdmissionPacket(RetrievedCells(handoff, mesh), session).admittedCells;
      Decide(RELEASE_CELL, session) in admitted && Decide(AUTHORITY_CELL, session) in admitted
  {
    var cells := RetrievedCells(handoff, mesh);
    BuiltInsAdmitted(session);
    assert RELEASE_CELL in cells && AUTHORITY_CELL in cells;
    PacketMembers(cells, session, Decide(RELEASE_CELL, session));
    PacketMembers(cells, session, Decide(AUTHORITY_CELL, session));
  }
}
