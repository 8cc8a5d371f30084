/**
 The automatic memory and growth loop: an ordered protocol of calls on the memory queue, whose answers
 are arbitrary, and the log of its runs.
 */
module GrowthLoop {
  import opened Prelude
  import opened Jsonl
  import opened RunStatuses
  import Text

  // ---------- classification ----------

  /**
   One call of the loop. `approvalReasons` are the boundary patterns its text matched and `signalKinds`
   the growth patterns; `approval` says whether the caller supplied evidence of approval.
   */
  datatype Input = Input(
    text: string, request: string, growthSignalText: string, target: string,
    approvalReasons: seq<string>, signalKinds: seq<string>, approval: bool)

  /** `a || b` on strings. */
  function Or(a: string, b: string): string
  {
    if a != "" then a else b
  }

  function NormalizedText(i: Input): string
  {
    Text.Trim(Or(i.text, i.request))
  }

  const LOCAL_TARGETS: set<string> := {"context_mesh_candidate", "gpao_t_memory_wiki"}

  /** `classifyAutoMemoryGrowthAuthority`: the reasons to ask for approval first. */
  function AuthorityReasons(i: Input): seq<string>
  {
    i.approvalReasons + (if i.target in LOCAL_TARGETS then [] else ["non_local_target"])
  }

  /** `classifyAutoMemoryGrowthSignal` */
  predicate CandidateWorthy(i: Input)
  {
    Text.Trim(Or(i.growthSignalText, Or(i.request, NormalizedText(i)))) != "" && i.signalKinds != []
  }

  // ---------- the memory queue ----------

  const AWAITING_APPROVAL := "awaiting_approval"
  const RECORDED_LOCAL_ONLY := "recorded_local_only"
  const APPLIED := "applied_context_mesh_candidate_local_only"

  /** What the memory queue happens to answer to the calls of one run, and the findings it reports. */
  datatype Queue = Queue(
    requestId: string, requestStatus: string, bridgeStatus: string, applyStatus: string, findings: seq<string>)

  /** A call with an effect on the memory stores. */
  datatype Effect =
    | Capture
    | ReviewCandidate
    | ReplayEvidence
    | ApplyRequest(requestId: string, status: string)
    | ApprovalBridge(requestId: string, status: string)
    | Apply(requestId: string, status: string)

  // ---------- runs ----------

  const BLOCKED := "blocked"
  const APPROVAL_REQUIRED := "approval_required"
  const NOT_GROWTH_MATERIAL := "not_growth_material"
  const CAPTURED_REVIEW_ONLY := "captured_review_only"
  const COMPLETED := "completed_local_auto_loop"
  const ROLLED_BACK := "completed_local_auto_loop_rolled_back"

  datatype GrowthRun = GrowthRun(status: string, findings: seq<string>, localContextMeshApplied: bool)

  /** The ways the loop ever ends a run; it never reports a rollback. */
  const ENDINGS: seq<string> := [COMPLETED, CAPTURED_REVIEW_ONLY, NOT_GROWTH_MATERIAL, APPROVAL_REQUIRED, BLOCKED]

  function StatusOf(run: GrowthRun): string
  {
    run.status
  }

  predicate KnownStatuses(runs: seq<GrowthRun>)
  {
    forall i :: 0 <= i < |runs| ==> runs[i].status in ENDINGS
  }

  /** The order in which a run may call the queue: it stops somewhere along this list. */
  function Protocol(q: Queue): seq<Effect>
  {
    [Capture, ReviewCandidate, ReplayEvidence, ApplyRequest(q.requestId, q.requestStatus),
     ApprovalBridge(q.requestId, q.bridgeStatus), Apply(q.requestId, q.applyStatus)]
  }

  /** An apply directly follows the recorded approval of the same request, which was awaiting it. */
  predicate Authorized(effects: seq<Effect>)
  {
    forall i :: 0 <= i < |effects| && effects[i].Apply? ==>
      && i >= 2
      && effects[i - 1] == ApprovalBridge(effects[i].requestId, RECORDED_LOCAL_ONLY)
      && effects[i - 2] == ApplyRequest(effects[i].requestId, AWAITING_APPROVAL)
  }

  /** How far along the protocol a run goes. */
  function Reach(i: Input, q: Queue): nat
  {
    if NormalizedText(i) == "" || AuthorityReasons(i) != [] || !CandidateWorthy(i) then 0
    else if !i.approval || q.requestStatus != AWAITING_APPROVAL then 4
    else if q.bridgeStatus != RECORDED_LOCAL_ONLY then 5
    else 6
  }

  /** The calls of a run that applies the memory of one request. */
  function AllCalls(requestId: string): seq<Effect>
  {
    [Capture, ReviewCandidate, ReplayEvidence, ApplyRequest(requestId, "awaiting_approval"),
     ApprovalBridge(requestId, "recorded_local_only"), Apply(requestId, "applied_context_mesh_candidate_local_only")]
  }

  /** There is a text to remember. */
  predicate Present(i: Input)
  {
    Text.Trim(if i.text != "" then i.text else i.request) != ""
  }

  /** The text crosses a boundary, or the target is not a local one. */
  predicate NeedsApproval(i: Input)
  {
    i.approvalReasons != [] || (i.target != "context_mesh_candidate" && i.target != "gpao_t_memory_wiki")
  }

  /** Nothing in the turn calls for growth: no pattern matched, or the text it is read from is blank. */
  predicate Routine(i: Input)
  {
    i.signalKinds == []
    || (i.growthSignalText != "" && Text.Trim(i.growthSignalText) == "")
    || (i.growthSignalText == "" && i.request != "" && Text.Trim(i.request) == "")
  }

  /** How many of the six calls a run makes: none, four, five or all. */
  lemma ReachIff(i: Input, q: Queue)
    ensures NormalizedText(i) != "" <==> Present(i)
    ensures AuthorityReasons(i) != [] <==> NeedsApproval(i)
    ensures Present(i) ==> (CandidateWorthy(i) <==> !Routine(i))
    ensures Reach(i, q) ==
      if !Present(i) || NeedsApproval(i) || Routine(i) then 0
      else if !(i.approval && q.requestStatus == "awaiting_approval") then 4
      else if q.bridgeStatus != "recorded_local_only" then 5
      else 6
  {
    if Present(i) {
      Text.TrimTwice(if i.text != "" then i.text else i.request);
    }
  }

  lemma AuthorizedAppend(effects: seq<Effect>, i: Input, q: Queue)
    requires Authorized(effects)
    ensures Authorized(effects + Protocol(q)[..Reach(i, q)])
  {
    var more := Protocol(q)[..Reach(i, q)];
    var all := effects + more;
    forall k | 0 <= k < |all| && all[k].Apply?
      ensures k >= 2 && all[k - 1] == ApprovalBridge(all[k].requestId, RECORDED_LOCAL_ONLY)
           && all[k - 2] == ApplyRequest(all[k].requestId, AWAITING_APPROVAL)
    {
      if k >= |effects| {
        assert all[k] == more[k - |effects|];
        assert k - |effects| == 5;
        assert all[k - 1] == more[4] && all[k - 2] == more[3];
      }
    }
  }

  // ---------- the summary ----------

  datatype Summary = Summary(
    totalRuns: nat, completedLocalAutoLoops: nat, rolledBackLocalAutoLoops: nat, capturedReviewOnly: nat,
    notGrowthMaterial: nat, approvalRequired: nat)

  lemma EndingsDiffer()
    ensures Distinct(ENDINGS) && ROLLED_BACK !in ENDINGS
  {
    assert BLOCKED[0] == 'b' && APPROVAL_REQUIRED[0] == 'a' && NOT_GROWTH_MATERIAL[0] == 'n';
    assert CAPTURED_REVIEW_ONLY[1] == 'a' && COMPLETED[1] == 'o' && ROLLED_BACK[1] == 'o';
    assert CAPTURED_REVIEW_ONLY[0] == COMPLETED[0] == ROLLED_BACK[0] == 'c';
    assert |ROLLED_BACK| > |COMPLETED|;
  }

  /** The five endings account for every run, and no run was rolled back. */
  lemma EndingsAddUp(statuses: seq<string>)
    requires forall i :: 0 <= i < |statuses| ==> statuses[i] in ENDINGS
    ensures CountOf(COMPLETED, statuses) + CountOf(CAPTURED_REVIEW_ONLY, statuses)
      + CountOf(NOT_GROWTH_MATERIAL, statuses) + CountOf(APPROVAL_REQUIRED, statuses)
      + CountOf(BLOCKED, statuses) == |statuses|
    ensures CountOf(ROLLED_BACK, statuses) == 0
  {
    EndingsDiffer();
    CountersAddUp(ENDINGS, statuses);
    CountPositive(ROLLED_BACK, statuses);
    var rest := ENDINGS[1..];
    assert rest == [CAPTURED_REVIEW_ONLY, NOT_GROWTH_MATERIAL, APPROVAL_REQUIRED, BLOCKED];
    assert rest[1..] == [NOT_GROWTH_MATERIAL, APPROVAL_REQUIRED, BLOCKED];
    assert Total(rest, statuses) == CountOf(CAPTURED_REVIEW_ONLY, statuses) + Total(rest[1..], statuses);
    var last := [APPROVAL_REQUIRED, BLOCKED];
    assert rest[1..][1..] == last && last[1..] == [BLOCKED];
    assert Total(last, statuses) == CountOf(APPROVAL_REQUIRED, statuses) + Total(last[1..], statuses);
    assert Total([BLOCKED], statuses) == CountOf(BLOCKED, statuses) + Total([BLOCKED][1..], statuses);
  }

  // ---------- the loop ----------

  class GrowthLoop {
    const runs: JsonlFile<GrowthRun>

    /** Every call on the memory stores so far, in order. */
    var effects: seq<Effect>

    /** What every sequence of runs keeps, whatever the queue answered. */
    ghost predicate Valid()
      reads this, runs
    {
      runs.Valid() && KnownStatuses(runs.records) && Authorized(effects)
    }

    constructor (codec: Codec<GrowthRun>)
      requires Lawful(codec)
      ensures Valid() && runs.records == [] && effects == []
      ensures fresh(runs)
    {
      runs := new JsonlFile<GrowthRun>(codec);
      effects := [];
    }

    /** `appendAutoMemoryGrowthRun` */
    method AppendRun(record: GrowthRun) returns (run: GrowthRun)
      requires Valid()
      requires record.status in ENDINGS
      modifies runs
      ensures Valid()
      ensures run == record && runs.records == old(runs.records) + [run]
    {
      runs.Append(record);
      run := record;
    }

    /** The next call of the protocol. */
    method Call(e: Effect, ghost before: seq<Effect>, ghost q: Queue, ghost k: nat)
      requires k < 6 && e == Protocol(q)[k] && effects == before + Protocol(q)[..k]
      modifies this`effects
      ensures effects == before + Protocol(q)[..k + 1]
    {
      assert Protocol(q)[..k + 1] == Protocol(q)[..k] + [e];
      effects := effects + [e];
    }

    /** The calls on the queue, each made only after the answer to the one before it allows it. */
    method CallQueue(i: Input, q: Queue) returns (applyAuthorized: bool)
      requires NormalizedText(i) != "" && AuthorityReasons(i) == [] && CandidateWorthy(i)
      modifies this`effects
      ensures effects == old(effects) + Protocol(q)[..Reach(i, q)]
      ensures applyAuthorized <==> Reach(i, q) == 6
    {
      ghost var before := effects;
      Call(Capture, before, q, 0);
      Call(ReviewCandidate, before, q, 1);
      Call(ReplayEvidence, before, q, 2);
      Call(ApplyRequest(q.requestId, q.requestStatus), before, q, 3);
      var approvalAudit: Option<string> := None;
      if i.approval && q.requestStatus == AWAITING_APPROVAL {
        Call(ApprovalBridge(q.requestId, q.bridgeStatus), before, q, 4);
        approvalAudit := Some(q.bridgeStatus);
      }
      applyAuthorized := approvalAudit == Some(RECORDED_LOCAL_ONLY);
      if applyAuthorized {
        Call(Apply(q.requestId, q.applyStatus), before, q, 5);
      }
    }

    /**
     `runAutoMemoryGrowthLoop`: a run calls the queue in the order of the protocol, as far as its
     input and the answers let it, and its record says how it ended.
     */
    method RunLoop(i: Input, q: Queue) returns (run: GrowthRun)
      requires Valid()
      modifies this`effects, runs
      ensures Valid()
      ensures runs.records == old(runs.records) + [run]
      ensures effects == old(effects) + Protocol(q)[..Reach(i, q)]
      ensures run.status in {APPROVAL_REQUIRED, NOT_GROWTH_MATERIAL} || NormalizedText(i) == "" ==>
        effects == old(effects) && !run.localContextMeshApplied
      ensures run.findings ==
        if NormalizedText(i) == "" then ["text_missing"]
        else if AuthorityReasons(i) != [] then AuthorityReasons(i)
        else if !CandidateWorthy(i) then ["routine_turn_without_growth_signal"]
        else q.findings
      ensures run.status == APPROVAL_REQUIRED <==>
        Present(i) && (i.approvalReasons != [] || i.target !in {"context_mesh_candidate", "gpao_t_memory_wiki"})
      ensures run.status == APPROVAL_REQUIRED ==> forall reason :: reason in run.findings <==>
        || reason in i.approvalReasons
        || (reason == "non_local_target" && i.target !in {"context_mesh_candidate", "gpao_t_memory_wiki"})
      ensures run.status == NOT_GROWTH_MATERIAL <==> Present(i) && !NeedsApproval(i) && Routine(i)
      ensures run.status == COMPLETED <==> run.localContextMeshApplied
      ensures run.status == COMPLETED <==>
        && Present(i) && !NeedsApproval(i) && !Routine(i) && i.approval
        && q.requestStatus == "awaiting_approval" && q.bridgeStatus == "recorded_local_only"
        && q.applyStatus == "applied_context_mesh_candidate_local_only"
      ensures run.status == CAPTURED_REVIEW_ONLY <==>
        && Present(i) && !NeedsApproval(i) && !Routine(i)
        && !(i.approval && q.requestStatus == "awaiting_approval" && q.bridgeStatus == "recorded_local_only")
      ensures run.localContextMeshApplied ==> effects == old(effects) + AllCalls(q.requestId)
      ensures run.status == BLOCKED <==> !Present(i) || (Reach(i, q) == 6 && q.applyStatus != APPLIED)
    {
      EndingsDiffer();
      ReachIff(i, q);
      AuthorizedAppend(effects, i, q);
      if NormalizedText(i) == "" {
        run := AppendRun(GrowthRun(BLOCKED, ["text_missing"], false));
        return;
      }
      if AuthorityReasons(i) != [] {
        run := AppendRun(GrowthRun(APPROVAL_REQUIRED, AuthorityReasons(i), false));
        return;
      }
      if !CandidateWorthy(i) {
        run := AppendRun(GrowthRun(NOT_GROWTH_MATERIAL, ["routine_turn_without_growth_signal"], false));
        return;
      }
      var applyAuthorized := CallQueue(i, q);
      if !applyAuthorized {
        run := AppendRun(GrowthRun(CAPTURED_REVIEW_ONLY, q.findings, false));
        return;
      }
      var localApplyKept := q.applyStatus == APPLIED;
      run := AppendRun(GrowthRun(if localApplyKept then COMPLETED else BLOCKED, q.findings, localApplyKept));
    }

    /** `buildAutoMemoryGrowthSummary`: its counters miss exactly the blocked runs, and no run was rolled back. */
    method BuildSummary() returns (s: Summary)
      requires Valid()
      ensures var statuses := Map(StatusOf, SliceLast(runs.records, 500));
        && s == Summary(|statuses|, CountOf(COMPLETED, statuses), 0, CountOf(CAPTURED_REVIEW_ONLY, statuses),
                  CountOf(NOT_GROWTH_MATERIAL, statuses), CountOf(APPROVAL_REQUIRED, statuses))
        && s.completedLocalAutoLoops + s.rolledBackLocalAutoLoops + s.capturedReviewOnly
           + s.notGrowthMaterial + s.approvalRequired + CountOf(BLOCKED, statuses) == s.totalRuns
    {
      var read := runs.ReadLast(500);
      var statuses := Map(StatusOf, read);
      assert forall k :: 0 <= k < |read| ==> read[k] in runs.records;
      EndingsAddUp(statuses);
      s := Summary(|read|, CountOf(COMPLETED, statuses), CountOf(ROLLED_BACK, statuses),
        CountOf(CAPTURED_REVIEW_ONLY, statuses), CountOf(NOT_GROWTH_MATERIAL, statuses),
        CountOf(APPROVAL_REQUIRED, statuses));
    }
  }
}
