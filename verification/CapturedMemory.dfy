/** The cells memory capture makes, followed from their words through retrieval and admission. */
module CapturedMemory {
  import opened Prelude
  import opened AdmissionPolicy
  import opened Admission
  import opened ContextRuntime

  const CAPTURED_ALLOWED_USE: seq<string> := ["retrieve", "review", "candidate_evidence", "supporting_context", "explain"]
  const CAPTURED_BLOCKED_USE: seq<string> :=
    ["answer_anchor", "automatic_answer_anchor", "durable_promotion", "external_action", "live_rule_mutation"]
  const CAPTURED_VALID_FOR: seq<string> := ["follow_up", "artifact_request", "general_request"]

  /** `buildTCellCandidateFromMemory`, with the words of a later request found in its text. */
  function CapturedCell(id: string, anchor: string, hits: nat): Cell
  {
    Cell(id, Some(anchor), Some("candidate"), CAPTURED_ALLOWED_USE, CAPTURED_BLOCKED_USE, CAPTURED_VALID_FOR, [],
      Some(Weights(Some(0.58), Some(0.25))), hits, None, None, None)
  }

  lemma UsesOfFive(a: string, b: string, c: string, d: string, e: string)
    requires Word(a) && Word(b) && Word(c) && Word(d) && Word(e)
    ensures Uses([a, b, c, d, e]) == {a, b, c, d, e}
  {
    UsesOfFour(a, b, c, d);
    UsesOfWord([a, b, c, d], e);
    assert [a, b, c, d] + [e] == [a, b, c, d, e];
  }

  /** Words are told apart by their third letters, too. */
  lemma OtherThird(a: string, b: string)
    requires |a| > 2 && |b| > 2 && a[2] != b[2]
    ensures a != b
  {
  }

  lemma NotCapturedBlock(blocked: set<string>, use: string)
    requires blocked
      == {"answer_anchor", "automatic_answer_anchor", "durable_promotion", "external_action", "live_rule_mutation"}
    requires |use| > 2 && use[2] !in {'s', 't', 'r', 'v'}
    ensures use !in blocked
  {
    OtherThird(use, "answer_anchor");
    OtherThird(use, "automatic_answer_anchor");
    OtherThird(use, "durable_promotion");
    OtherThird(use, "external_action");
    OtherThird(use, "live_rule_mutation");
  }

  lemma NotCapturedUse(allowed: set<string>, use: string)
    requires allowed == {"retrieve", "review", "candidate_evidence", "supporting_context", "explain"}
    requires use != "" && use[0] !in {'r', 'c', 's', 'e'}
    ensures use !in allowed
  {
    OtherWord(use, "retrieve");
    OtherWord(use, "review");
    OtherWord(use, "candidate_evidence");
    OtherWord(use, "supporting_context");
    OtherWord(use, "explain");
  }

  lemma CapturedNotBlocked(allowed: set<string>, blocked: set<string>)
    requires allowed == {"retrieve", "review", "candidate_evidence", "supporting_context", "explain"}
    requires blocked
      == {"answer_anchor", "automatic_answer_anchor", "durable_promotion", "external_action", "live_rule_mutation"}
    ensures !AllContextBlocked(allowed, blocked)
    ensures "supporting_context" !in blocked && "candidate_evidence" !in blocked
  {
    NotCapturedUse(allowed, "none");
    NotCapturedUse(allowed, "blocked");
    NotCapturedBlock(blocked, "all_context_use");
    NotCapturedBlock(blocked, "context_use");
    NotCapturedBlock(blocked, "admit_for_current_turn");
    NotCapturedBlock(blocked, "supporting_context");
    NotCapturedBlock(blocked, "candidate_evidence");
  }

  lemma CapturedUses()
    ensures Uses(CAPTURED_ALLOWED_USE) == {"retrieve", "review", "candidate_evidence", "supporting_context", "explain"}
    ensures Uses(CAPTURED_BLOCKED_USE)
      == {"answer_anchor", "automatic_answer_anchor", "durable_promotion", "external_action", "live_rule_mutation"}
  {
    UsesOfFive("retrieve", "review", "candidate_evidence", "supporting_context", "explain");
    UsesOfFive("answer_anchor", "automatic_answer_anchor", "durable_promotion", "external_action", "live_rule_mutation");
  }

  lemma CapturedAllows(allowed: set<string>)
    requires "supporting_context" in allowed
    ensures Allows(allowed, SUPPORT_USES) && Allows(allowed, EVIDENCE_USES)
  {
    assert "supporting_context" in allowed * SUPPORT_USES && "supporting_context" in allowed * EVIDENCE_USES;
  }

  lemma CapturedPermits(cell: Cell)
    requires cell.allowedUse == CAPTURED_ALLOWED_USE && cell.blockedUse == CAPTURED_BLOCKED_USE
    requires cell.lifecycle == Some("candidate")
    ensures AuthorityUse(cell) == Permissions(false, true, true)
  {
    CapturedUses();
    CapturedNotBlocked(Uses(cell.allowedUse), Uses(cell.blockedUse));
    CapturedAllows(Uses(cell.allowedUse));
  }

  /** The cell is about the target of the turn, or its referent. */
  predicate AboutTurn(anchor: string, session: Session)
  {
    anchor == session.activeTargetId
    || (session.activeReferent.Some? && session.activeReferent.value != ""
        && anchor == "referent:" + session.activeReferent.value)
  }

  predicate FitsTurn(kind: string)
  {
    kind == "follow_up" || kind == "artifact_request" || kind == "general_request"
  }

  lemma CapturedScore(cell: Cell, session: Session)
    requires cell.lifecycle == Some("candidate") && cell.contradicts == [] && cell.validFor == CAPTURED_VALID_FOR
    requires cell.weights == Some(Weights(Some(0.58), Some(0.25)))
    requires cell.anchor.Some? && cell.meshScore.Some? && cell.meshScore.value > 0.0
    ensures var others := MeshPart(cell) + 1
        + (if FitsTurn(session.kind) then 15 else 0) - (if cell.tag == Some(StaleSupporting) then 10 else 0);
      && (!AboutTurn(cell.anchor.value, session) ==> Score(cell, session) == others)
      && (AboutTurn(cell.anchor.value, session) ==> Score(cell, session) >= others + 36)
  {
    assert ConfidencePart(cell) == 6;
  }

  lemma ReleaseIsNoReferent(entity: string)
    ensures "release-file" != "referent:" + entity
  {
    assert "release-file"[2] == 'l' && ("referent:" + entity)[2] == 'f';
  }

  /**
   What becomes of captured memory in every turn: it never anchors, conflicts or waits for review. It is
   support in a turn of its kinds, in one about it, or once enough words of the request are in it, which
   are three when it is a stale release cell and one otherwise.
   */
  lemma CapturedVerdict(id: string, anchor: string, hits: nat, policy: RequestPolicy, session: Session)
    requires policy.activeTargetId == session.activeTargetId
    ensures var cell := CapturedCell(id, anchor, hits);
      var stale := StaleRelease(cell, policy);
      Verdict(cell, policy, session) ==
        if FitsTurn(session.kind) || AboutTurn(anchor, session) || hits >= (if stale then 3 else 1) then Some(Support)
        else if stale && hits == 0 then None
        else Some(Rejected)
  {
    var cell := CapturedCell(id, anchor, hits);
    var retrieved := Retrieve(cell, policy, session.kind);
    CapturedPermits(cell);
    CapturedPermits(retrieved);
    TagIff(cell, policy);
    assert FitsTurn(session.kind) <==> session.kind in CAPTURED_VALID_FOR;
    if StaleRelease(cell, policy) {
      ReleaseIsNoReferent(if session.activeReferent.Some? then session.activeReferent.value else "");
    }
    if retrieved.meshScore.value > 0.0 {
      CapturedScore(retrieved, session);
      RoleIff(retrieved, session);
    }
  }
}
