/**
 The first filter on context: which target a turn is about, and which use of a memory cell its
 authority permits for that target.
 */
module AdmissionPolicy {
  import opened Prelude
  import Text

  const RELEASE_TARGET := "release-file"
  const GENERAL_TARGET := "general-runtime"

  const NON_ANCHOR_LIFECYCLES: set<string> :=
    {"raw_signal", "candidate", "stale", "conflicted", "rejected", "archived"}

  // ---------- the target of a turn ----------

  /**
   One user turn, as the patterns see it: whether its text names the release, reads like a follow-up,
   mentions a release or package at all, or asks for the work surface, and the kind of its input signal.
   */
  datatype Turn = Turn(namesRelease: bool, followUpText: bool, mentionsRelease: bool, workSurface: bool, kind: string)

  datatype RequestType =
    | ReleaseFollowUp | ReleaseRequest | ContinuityFollowUp | ArtifactRequest | WorkSurfaceRequest | GeneralRequest

  datatype TargetSource = ExplicitRequest | PriorFlowFollowUp | CurrentRequest

  datatype RequestPolicy = RequestPolicy(
    requestType: RequestType,
    activeTargetId: string,
    carryPriorTarget: bool,
    targetSource: TargetSource,
    stalePriorTarget: bool)

  predicate FollowUp(turn: Turn)
  {
    turn.kind == "follow_up" || turn.followUpText
  }

  /** `value || null` on a string: the empty string counts as absent. */
  function Truthy(value: Option<string>): Option<string>
  {
    if value == Some("") then None else value
  }

  /** `classifyRequestTarget` */
  function ClassifyRequestTarget(turn: Turn, priorFlow: Option<string>): RequestPolicy
  {
    var prior := Truthy(priorFlow);
    if turn.namesRelease then
      RequestPolicy(if FollowUp(turn) then ReleaseFollowUp else ReleaseRequest,
        RELEASE_TARGET, prior == Some(RELEASE_TARGET), ExplicitRequest, false)
    else if FollowUp(turn) && prior.Some? then
      RequestPolicy(ContinuityFollowUp, prior.value, true, PriorFlowFollowUp, false)
    else if turn.kind == "artifact_request" then
      RequestPolicy(ArtifactRequest, if turn.mentionsRelease then RELEASE_TARGET else "artifact",
        false, CurrentRequest, prior.Some?)
    else
      RequestPolicy(if turn.workSurface then WorkSurfaceRequest else GeneralRequest, GENERAL_TARGET,
        false, CurrentRequest, prior.Some? && prior.value != GENERAL_TARGET)
  }

  /** A conversation: each turn is classified with the target the turn before it stored. */
  function Converse(turns: seq<Turn>, priorFlow: Option<string>): Option<string>
  {
    if turns == [] then priorFlow
    else
      var n := |turns| - 1;
      Some(ClassifyRequestTarget(turns[n], Converse(turns[..n], priorFlow)).activeTargetId)
  }

  /** The target the words of a turn choose by themselves. */
  function OwnTarget(turn: Turn): string
  {
    if turn.namesRelease || (turn.kind == "artifact_request" && turn.mentionsRelease) then RELEASE_TARGET
    else if turn.kind == "artifact_request" then "artifact"
    else GENERAL_TARGET
  }

  /** A turn that chooses its target itself, whatever came before. */
  predicate Decides(turn: Turn)
  {
    turn.namesRelease || !FollowUp(turn)
  }

  /** The target after any conversation is that of the last turn that decided, or else what it began with. */
  lemma {:induction false} ConversationTarget(turns: seq<Turn>, priorFlow: Option<string>, last: int)
    requires turns != [] && -1 <= last < |turns|
    requires last >= 0 ==> Decides(turns[last])
    requires forall i :: last < i < |turns| ==> !Decides(turns[i])
    ensures Converse(turns, priorFlow) == Some(
      if last >= 0 then OwnTarget(turns[last])
      else if priorFlow.Some? && priorFlow.value != "" then priorFlow.value
      else OwnTarget(turns[0]))
  {
    var n := |turns| - 1;
    if last < n && n > 0 {
      ConversationTarget(turns[..n], priorFlow, last);
    }
  }

  /** A carried target is the prior one and is never called stale. */
  lemma CarriedTarget(turn: Turn, priorFlow: Option<string>)
    ensures var p := ClassifyRequestTarget(turn, priorFlow);
      && p.activeTargetId != ""
      && (p.carryPriorTarget ==> Some(p.activeTargetId) == priorFlow && !p.stalePriorTarget)
      && (p.stalePriorTarget ==> Truthy(priorFlow).Some? && Decides(turn) && !turn.namesRelease)
      && (p.stalePriorTarget && Some(p.activeTargetId) == priorFlow ==> turn.kind == "artifact_request")
  {
  }

  /** When the release becomes the target: the turn names it, carries it, or is about it for an artifact. */
  lemma ReleaseTargetIff(turn: Turn, priorFlow: Option<string>)
    ensures var p := ClassifyRequestTarget(turn, priorFlow);
      p.activeTargetId == RELEASE_TARGET <==>
        || turn.namesRelease
        || (p.carryPriorTarget && priorFlow == Some(RELEASE_TARGET))
        || (p.requestType == ArtifactRequest && turn.mentionsRelease)
  {
  }

  /** Which request each turn makes, where its target comes from, and whether the prior one is carried or stale. */
  lemma RequestTypeIff(turn: Turn, priorFlow: Option<string>)
    ensures var p := ClassifyRequestTarget(turn, priorFlow);
      var prior := priorFlow.Some? && priorFlow.value != "";
      var continues := (turn.kind == "follow_up" || turn.followUpText) && prior && !turn.namesRelease;
      && (p.requestType in {ReleaseFollowUp, ReleaseRequest} <==> turn.namesRelease)
      && (p.requestType == ReleaseFollowUp <==> turn.namesRelease && (turn.kind == "follow_up" || turn.followUpText))
      && (p.requestType == ContinuityFollowUp <==> continues)
      && (p.requestType == ArtifactRequest <==> !turn.namesRelease && !continues && turn.kind == "artifact_request")
      && (p.requestType == WorkSurfaceRequest ==> turn.workSurface)
      && (p.requestType == GeneralRequest ==> !turn.workSurface)
      && (p.targetSource == ExplicitRequest <==> turn.namesRelease)
      && (p.targetSource == PriorFlowFollowUp <==> continues)
      && (p.carryPriorTarget <==> continues || (turn.namesRelease && priorFlow == Some(RELEASE_TARGET)))
      && (p.stalePriorTarget <==>
            && p.targetSource == CurrentRequest && prior
            && (priorFlow != Some(GENERAL_TARGET) || turn.kind == "artifact_request"))
  {
  }

  /**
   Retrieval classifies the turn a second time, with the session's own target as the prior one. It
   always finds the same target; it finds the same request type unless a follow-up had no prior flow.
   */
  lemma RetrievalAgrees(turn: Turn, priorFlow: Option<string>)
    ensures var session := ClassifyRequestTarget(turn, priorFlow);
      var mesh := ClassifyRequestTarget(turn, Some(session.activeTargetId));
      && mesh.activeTargetId == session.activeTargetId
      && (mesh.requestType == session.requestType <==> Decides(turn) || Truthy(priorFlow).Some?)
  {
  }

  // ---------- the uses a cell's authority permits ----------

  datatype Weights = Weights(confidence: Option<real>, risk: Option<real>)

  /** The use the policy grants a retrieved cell for the current turn. */
  datatype Tag = Blocked | CandidateEvidence | StaleSupporting | SupportingContext | AnswerAnchor

  /**
   A memory cell. `hits` counts the words of the request found in its text; `tag`, `eligible` and
   `meshScore` are what retrieval adds, and are absent from the cells the runtime builds itself.
   */
  datatype Cell = Cell(
    id: string,
    anchor: Option<string>,
    lifecycle: Option<string>,
    allowedUse: seq<string>,
    blockedUse: seq<string>,
    validFor: seq<string>,
    contradicts: seq<string>,
    weights: Option<Weights>,
    hits: nat,
    tag: Option<Tag>,
    eligible: Option<bool>,
    meshScore: Option<real>)

  /** `normalizeUses` */
  function Uses(values: seq<string>): set<string>
  {
    set v | v in values && Text.Trim(v) != "" :: Text.Trim(v)
  }

  /** A use written without blanks around it. */
  predicate Word(w: string)
  {
    w != "" && 'a' <= w[0] <= 'z' && 'a' <= w[|w| - 1] <= 'z'
  }

  lemma UsesOfWord(values: seq<string>, w: string)
    requires Word(w)
    ensures Uses(values + [w]) == Uses(values) + {w}
  {
    Text.TrimWord(w);
    assert forall v :: v in values + [w] <==> v in values || v == w;
  }

  lemma UsesOfTwo(a: string, b: string)
    requires Word(a) && Word(b)
    ensures Uses([a]) == {a} && Uses([a, b]) == {a, b}
  {
    assert Uses([]) == {};
    UsesOfWord([], a);
    UsesOfWord([a], b);
    assert [] + [a] == [a] && [a] + [b] == [a, b];
  }

  lemma UsesOfFour(a: string, b: string, c: string, d: string)
    requires Word(a) && Word(b) && Word(c) && Word(d)
    ensures Uses([a, b, c, d]) == {a, b, c, d}
  {
    UsesOfTwo(a, b);
    UsesOfWord([a, b], c);
    UsesOfWord([a, b, c], d);
    assert [a, b] + [c] == [a, b, c] && [a, b, c] + [d] == [a, b, c, d];
  }

  datatype Permissions = Permissions(anchor: bool, support: bool, evidence: bool)

  const ANCHOR_USES: set<string> := {"answer_anchor", "admit", "admit_for_current_turn"}
  const SUPPORT_USES: set<string> := ANCHOR_USES + {"supporting_context"}
  const EVIDENCE_USES: set<string> :=
    SUPPORT_USES + {"candidate_evidence", "candidate_only", "review_only", "retrieve", "review", "explain"}

  /** An empty set of allowed uses allows every use. */
  predicate Allows(allowed: set<string>, uses: set<string>)
  {
    allowed == {} || allowed * uses != {}
  }

  predicate AllContextBlocked(allowed: set<string>, blocked: set<string>)
  {
    "none" in allowed || "blocked" in allowed
    || "all_context_use" in blocked || "context_use" in blocked || "admit_for_current_turn" in blocked
  }

  predicate LifecycleAllowsAnchor(lifecycle: Option<string>)
  {
    lifecycle.Some? ==> lifecycle.value !in NON_ANCHOR_LIFECYCLES
  }

  /** `classifyCellAuthorityUse` */
  function AuthorityUse(cell: Cell): Permissions
  {
    var allowed, blocked := Uses(cell.allowedUse), Uses(cell.blockedUse);
    var all := AllContextBlocked(allowed, blocked);
    Permissions(
      LifecycleAllowsAnchor(cell.lifecycle) && Allows(allowed, ANCHOR_USES) && !all && "answer_anchor" !in blocked,
      Allows(allowed, SUPPORT_USES) && !all && "supporting_context" !in blocked,
      Allows(allowed, EVIDENCE_USES) && !all && "candidate_evidence" !in blocked)
  }

  datatype Use = Use(targetMatch: bool, tag: Tag, eligible: bool)

  /** `classifyContextCandidateUse` */
  function CandidateUse(cell: Cell, policy: RequestPolicy): Use
  {
    var anchor := if Truthy(cell.anchor).Some? then cell.anchor.value else "unknown";
    var targetMatch := anchor == policy.activeTargetId;
    var permits := AuthorityUse(cell);
    var releaseOnGeneral := anchor == RELEASE_TARGET && policy.activeTargetId != RELEASE_TARGET
                            && policy.requestType != ContinuityFollowUp;
    if !permits.evidence then Use(targetMatch, Blocked, false)
    else if releaseOnGeneral && permits.support then Use(false, StaleSupporting, false)
    else if targetMatch && permits.anchor then Use(true, AnswerAnchor, true)
    else if permits.support then Use(targetMatch, SupportingContext, false)
    else Use(targetMatch, CandidateEvidence, false)
  }

  /** `scoreCandidate` */
  function MeshScore(cell: Cell, kind: string, target: string, use: Use): real
  {
    2.0 * cell.hits as real
    + (if cell.anchor == Some(target) && use.eligible then 4.0 else 0.0)
    - (if use.tag == StaleSupporting then 1.0 else 0.0)
    + (if kind in cell.validFor then 1.0 else 0.0)
    + (if cell.lifecycle == Some("candidate") then 0.5 else 0.0)
  }

  /** The mesh score adds to what was found what the tag is worth: four for an anchor with a name. */
  lemma MeshScoreByTag(cell: Cell, kind: string, policy: RequestPolicy)
    ensures var use := CandidateUse(cell, policy);
      MeshScore(cell, kind, policy.activeTargetId, use) ==
        cell.hits as real * 2.0
        + (match use.tag
           case AnswerAnchor => if Truthy(cell.anchor).Some? then 4.0 else 0.0
           case StaleSupporting => -1.0
           case _ => 0.0)
        + (if kind in cell.validFor && cell.lifecycle == Some("candidate") then 1.5
           else if kind in cell.validFor then 1.0
           else if cell.lifecycle == Some("candidate") then 0.5
           else 0.0)
  {
  }

  /** A stored cell as retrieval hands it on; it is dropped unless its score is positive. */
  function Retrieve(cell: Cell, policy: RequestPolicy, kind: string): Cell
  {
    var use := CandidateUse(cell, policy);
    cell.(tag := Some(use.tag), eligible := Some(use.eligible),
      meshScore := Some(MeshScore(cell, kind, policy.activeTargetId, use)))
  }

  /** Some entry of the list is this use, blanks around it aside. */
  predicate Lists(values: seq<string>, use: string)
  {
    exists v :: v in values && Text.Trim(v) == use
  }

  /** Every entry of the list is blank. */
  predicate ListsNothing(values: seq<string>)
  {
    forall v :: v in values ==> Text.Trim(v) == ""
  }

  lemma UsesAreListed(values: seq<string>)
    ensures forall use :: use in Uses(values) <==> use != "" && Lists(values, use)
    ensures Uses(values) == {} <==> ListsNothing(values)
  {
    if !ListsNothing(values) {
      var v :| v in values && Text.Trim(v) != "";
      assert Text.Trim(v) in Uses(values);
    }
    forall use
      ensures use in Uses(values) <==> use != "" && Lists(values, use)
    {
    }
  }

  /** The words that block a cell for every use. */
  predicate ListsFullBlock(cell: Cell)
  {
    || Lists(cell.allowedUse, "none") || Lists(cell.allowedUse, "blocked")
    || Lists(cell.blockedUse, "all_context_use") || Lists(cell.blockedUse, "context_use")
    || Lists(cell.blockedUse, "admit_for_current_turn")
  }

  /** The allowed uses are blank, or list one of these words. */
  predicate ListsOneOf(values: seq<string>, words: set<string>)
  {
    ListsNothing(values) || exists w :: w in words && Lists(values, w)
  }

  lemma AllowsIffListed(values: seq<string>, words: set<string>)
    requires "" !in words
    ensures Allows(Uses(values), words) <==> ListsOneOf(values, words)
  {
    UsesAreListed(values);
    if w :| w in words && Lists(values, w) {
      assert w in Uses(values) * words;
    }
    if w :| w in Uses(values) * words {
      assert Lists(values, w);
    }
  }

  lemma FullBlockIff(cell: Cell)
    ensures AllContextBlocked(Uses(cell.allowedUse), Uses(cell.blockedUse)) <==> ListsFullBlock(cell)
  {
    UsesAreListed(cell.allowedUse);
    UsesAreListed(cell.blockedUse);
  }

  /** The words in a cell's lists and the lifecycle that permit it as an anchor, and those that deny it. */
  lemma AnchorPermitIff(cell: Cell)
    ensures AuthorityUse(cell).anchor <==>
      && cell.lifecycle !in {Some("raw_signal"), Some("candidate"), Some("stale"), Some("conflicted"),
                             Some("rejected"), Some("archived")}
      && ListsOneOf(cell.allowedUse, {"answer_anchor", "admit", "admit_for_current_turn"})
      && !ListsFullBlock(cell) && !Lists(cell.blockedUse, "answer_anchor")
  {
    FullBlockIff(cell);
    UsesAreListed(cell.blockedUse);
    AllowsIffListed(cell.allowedUse, ANCHOR_USES);
  }

  /** The words that permit it as support, whatever its lifecycle. */
  lemma SupportPermitIff(cell: Cell)
    ensures AuthorityUse(cell).support <==>
      && ListsOneOf(cell.allowedUse, {"answer_anchor", "supporting_context", "admit", "admit_for_current_turn"})
      && !ListsFullBlock(cell) && !Lists(cell.blockedUse, "supporting_context")
  {
    FullBlockIff(cell);
    UsesAreListed(cell.blockedUse);
    AllowsIffListed(cell.allowedUse, SUPPORT_USES);
    assert SUPPORT_USES == {"answer_anchor", "supporting_context", "admit", "admit_for_current_turn"};
  }

  /** The words that permit it as evidence. */
  lemma EvidencePermitIff(cell: Cell)
    ensures AuthorityUse(cell).evidence <==>
      && ListsOneOf(cell.allowedUse,
           {"answer_anchor", "supporting_context", "candidate_evidence", "candidate_only", "review_only",
            "admit", "admit_for_current_turn", "retrieve", "review", "explain"})
      && !ListsFullBlock(cell) && !Lists(cell.blockedUse, "candidate_evidence")
  {
    FullBlockIff(cell);
    UsesAreListed(cell.blockedUse);
    AllowsIffListed(cell.allowedUse, EVIDENCE_USES);
    assert EVIDENCE_USES ==
      {"answer_anchor", "supporting_context", "candidate_evidence", "candidate_only", "review_only",
       "admit", "admit_for_current_turn", "retrieve", "review", "explain"};
  }

  /** A release cell in a turn about something else, unless the turn only carries its target on. */
  predicate StaleRelease(cell: Cell, policy: RequestPolicy)
  {
    cell.anchor == Some("release-file") && policy.activeTargetId != "release-file"
    && policy.requestType != ContinuityFollowUp
  }

  /** Exactly which tag a cell gets: an anchor needs no permission to support, a stale cell does. */
  lemma TagIff(cell: Cell, policy: RequestPolicy)
    ensures var use, permits := CandidateUse(cell, policy), AuthorityUse(cell);
      var named := if cell.anchor.Some? && cell.anchor.value != "" then cell.anchor.value else "unknown";
      var anchors := named == policy.activeTargetId && permits.anchor;
      && (use.tag == Blocked <==> !permits.evidence)
      && (use.tag == AnswerAnchor <==> permits.evidence && anchors)
      && (use.tag == StaleSupporting <==> permits.evidence && permits.support && StaleRelease(cell, policy))
      && (use.tag == SupportingContext <==>
            permits.evidence && permits.support && !anchors && !StaleRelease(cell, policy))
      && (use.eligible <==> use.tag == AnswerAnchor)
      && (use.targetMatch <==> named == policy.activeTargetId)
  {
  }

  /** Blocking more uses never permits more. */
  lemma BlockingMoreForbidsMore(cell: Cell, blockedUse: seq<string>)
    requires Uses(cell.blockedUse) <= Uses(blockedUse)
    ensures var before, after := AuthorityUse(cell), AuthorityUse(cell.(blockedUse := blockedUse));
      && (after.anchor ==> before.anchor)
      && (after.support ==> before.support)
      && (after.evidence ==> before.evidence)
  {
  }

  /** A use that admits an anchor admits support, and a use that admits support admits evidence. */
  lemma AllowedUsesNest(allowed: set<string>)
    ensures Allows(allowed, ANCHOR_USES) ==> Allows(allowed, SUPPORT_USES)
    ensures Allows(allowed, SUPPORT_USES) ==> Allows(allowed, EVIDENCE_USES)
  {
    assert allowed * ANCHOR_USES <= allowed * SUPPORT_USES <= allowed * EVIDENCE_USES;
  }
}
