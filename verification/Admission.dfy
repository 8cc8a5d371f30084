/** The second filter: a signed score and the role it earns a retrieved cell, and the admission packet. */
module Admission {
  import opened Prelude
  import opened AdmissionPolicy

  /** What admission needs of the session overlay and the input signal. */
  datatype Session = Session(activeTargetId: string, activeReferent: Option<string>, kind: string)

  datatype Signal =
    | ActiveTargetAnchor | ActiveReferentAnchor | StaleSupportingDowngrade | InputSignalFit | ContextMeshScore
    | Confidence | HighRiskPenalty | CandidatePenalty | ConflictPenalty

  datatype Entry = Entry(signal: Signal, value: int)

  datatype Role = Conflict | Rejected | Candidate | Support | Anchor

  const DEFAULT_WEIGHTS := Weights(Some(0.5), Some(0.2))

  function WeightsOf(cell: Cell): Weights
  {
    if cell.weights.Some? then cell.weights.value else DEFAULT_WEIGHTS
  }

  /** `Math.round` */
  function Round(x: real): int
  {
    (x + 0.5).Floor
  }

  predicate MatchesReferent(cell: Cell, session: Session)
  {
    Truthy(session.activeReferent).Some? && cell.anchor == Some("referent:" + session.activeReferent.value)
  }

  predicate Contradicts(cell: Cell, session: Session)
  {
    session.activeTargetId in cell.contradicts
  }

  predicate HighRisk(cell: Cell)
  {
    WeightsOf(cell).risk.Some? && WeightsOf(cell).risk.value > 0.8
  }

  function MeshPart(cell: Cell): int
  {
    if cell.meshScore.Some? && cell.meshScore.value != 0.0
    then var value := Round(cell.meshScore.value * 3.0); if value < 20 then value else 20
    else 0
  }

  function ConfidencePart(cell: Cell): int
  {
    var confidence := WeightsOf(cell).confidence;
    if confidence.Some? && confidence.value >= 0.55 then Round(confidence.value * 10.0) else 0
  }

  /** Whether the scorer records a signal for a cell: the condition of its `if`. */
  predicate Applies(signal: Signal, cell: Cell, session: Session)
  {
    match signal
    case ActiveTargetAnchor => cell.anchor == Some(session.activeTargetId)
    case ActiveReferentAnchor => MatchesReferent(cell, session)
    case StaleSupportingDowngrade => cell.tag == Some(StaleSupporting)
    case InputSignalFit => session.kind in cell.validFor
    case ContextMeshScore => cell.meshScore.Some? && cell.meshScore.value != 0.0
    case Confidence => WeightsOf(cell).confidence.Some? && WeightsOf(cell).confidence.value >= 0.55
    case HighRiskPenalty => HighRisk(cell)
    case CandidatePenalty => cell.lifecycle == Some("candidate")
    case ConflictPenalty => Contradicts(cell, session)
  }

  /** What a signal is worth for a cell: nothing unless it applies. */
  function Worth(signal: Signal, cell: Cell, session: Session): int
  {
    match signal
    case ActiveTargetAnchor => if cell.anchor == Some(session.activeTargetId) then 40 else 0
    case ActiveReferentAnchor => if MatchesReferent(cell, session) then 36 else 0
    case StaleSupportingDowngrade => if cell.tag == Some(StaleSupporting) then -10 else 0
    case InputSignalFit => if session.kind in cell.validFor then 15 else 0
    case ContextMeshScore => MeshPart(cell)
    case Confidence => ConfidencePart(cell)
    case HighRiskPenalty => if HighRisk(cell) then -50 else 0
    case CandidatePenalty => if cell.lifecycle == Some("candidate") then -5 else 0
    case ConflictPenalty => if Contradicts(cell, session) then -60 else 0
  }

  /** The score of a cell: what all signals together are worth. */
  function Score(cell: Cell, session: Session): int
  {
    Worth(ActiveTargetAnchor, cell, session) + Worth(ActiveReferentAnchor, cell, session)
    + Worth(StaleSupportingDowngrade, cell, session) + Worth(InputSignalFit, cell, session)
    + Worth(ContextMeshScore, cell, session) + Worth(Confidence, cell, session)
    + Worth(HighRiskPenalty, cell, session) + Worth(CandidatePenalty, cell, session)
    + Worth(ConflictPenalty, cell, session)
  }

  function Sum(breakdown: seq<Entry>): int
  {
    if breakdown == [] then 0 else Sum(breakdown[..|breakdown| - 1]) + breakdown[|breakdown| - 1].value
  }

  function Order(signal: Signal): nat
  {
    match signal
    case ActiveTargetAnchor => 0
    case ActiveReferentAnchor => 1
    case StaleSupportingDowngrade => 2
    case InputSignalFit => 3
    case ContextMeshScore => 4
    case Confidence => 5
    case HighRiskPenalty => 6
    case CandidatePenalty => 7
    case ConflictPenalty => 8
  }

  /** No applicable signal lies strictly between two places of the order. */
  ghost predicate NoneBetween(low: int, high: nat, cell: Cell, session: Session)
  {
    forall signal :: low < Order(signal) < high ==> !Applies(signal, cell, session)
  }

  /**
   Of the signals below the bound, the breakdown lists exactly those that apply, once and in order, for
   what they are worth, and adds up to the total.
   */
  ghost predicate Explains(total: int, breakdown: seq<Entry>, cell: Cell, session: Session, bound: nat)
    decreases breakdown
  {
    if breakdown == [] then total == 0 && NoneBetween(-1, bound, cell, session)
    else
      var n := |breakdown| - 1;
      var signal := breakdown[n].signal;
      && Order(signal) < bound
      && Applies(signal, cell, session)
      && breakdown[n].value == Worth(signal, cell, session)
      && NoneBetween(Order(signal), bound, cell, session)
      && Explains(total - breakdown[n].value, breakdown[..n], cell, session, Order(signal))
  }

  lemma {:induction false} ExplainsSum(total: int, breakdown: seq<Entry>, cell: Cell, session: Session, bound: nat)
    requires Explains(total, breakdown, cell, session, bound)
    ensures total == Sum(breakdown)
    decreases breakdown
  {
    if breakdown != [] {
      var n := |breakdown| - 1;
      ExplainsSum(total - breakdown[n].value, breakdown[..n], cell, session, Order(breakdown[n].signal));
    }
  }

  /** A signal applies exactly when the breakdown has its entry, for what it is worth. */
  lemma {:induction false} ExplainsExactly(
    total: int, breakdown: seq<Entry>, cell: Cell, session: Session, bound: nat, signal: Signal)
    requires Explains(total, breakdown, cell, session, bound) && Order(signal) < bound
    ensures Applies(signal, cell, session) <==> Entry(signal, Worth(signal, cell, session)) in breakdown
    ensures forall e :: e in breakdown ==> Order(e.signal) < bound
    decreases breakdown
  {
    if breakdown != [] {
      var n := |breakdown| - 1;
      var last := breakdown[n];
      assert breakdown == breakdown[..n] + [last];
      if Order(signal) < Order(last.signal) {
        ExplainsExactly(total - last.value, breakdown[..n], cell, session, Order(last.signal), signal);
      } else {
        EntriesBelow(total - last.value, breakdown[..n], cell, session, Order(last.signal));
      }
      EntriesBelow(total, breakdown, cell, session, bound);
    }
  }

  lemma {:induction false} EntriesBelow(total: int, breakdown: seq<Entry>, cell: Cell, session: Session, bound: nat)
    requires Explains(total, breakdown, cell, session, bound)
    ensures forall e :: e in breakdown ==> Order(e.signal) < bound
    decreases breakdown
  {
    if breakdown != [] {
      var n := |breakdown| - 1;
      EntriesBelow(total - breakdown[n].value, breakdown[..n], cell, session, Order(breakdown[n].signal));
      assert breakdown == breakdown[..n] + [breakdown[n]];
    }
  }

  lemma ExplainsAll(total: int, breakdown: seq<Entry>, cell: Cell, session: Session)
    requires Explains(total, breakdown, cell, session, 9)
    ensures total == Sum(breakdown)
    ensures forall signal :: Applies(signal, cell, session) <==> Entry(signal, Worth(signal, cell, session)) in breakdown
  {
    ExplainsSum(total, breakdown, cell, session, 9);
    forall signal
      ensures Applies(signal, cell, session) <==> Entry(signal, Worth(signal, cell, session)) in breakdown
    {
      ExplainsExactly(total, breakdown, cell, session, 9, signal);
    }
  }

  lemma {:induction false} EntriesApply(total: int, breakdown: seq<Entry>, cell: Cell, session: Session, bound: nat)
    requires Explains(total, breakdown, cell, session, bound)
    ensures forall e :: e in breakdown ==> Applies(e.signal, cell, session) && e.value == Worth(e.signal, cell, session)
    decreases breakdown
  {
    if breakdown != [] {
      var n := |breakdown| - 1;
      EntriesApply(total - breakdown[n].value, breakdown[..n], cell, session, Order(breakdown[n].signal));
      assert breakdown == breakdown[..n] + [breakdown[n]];
    }
  }

  /** An integer nearest to a number, a half rounded up. */
  predicate Nearest(x: real, n: int)
  {
    n as real - 0.5 <= x < n as real + 0.5
  }

  /** What a mesh score is worth: three times as much, rounded, and at most twenty. */
  predicate MeshWorth(score: real, n: int)
  {
    (n < 20 && Nearest(score * 3.0, n)) || (n == 20 && score * 3.0 >= 19.5)
  }

  /** The entries a breakdown has, and the condition of each. */
  ghost predicate Itemized(breakdown: seq<Entry>, cell: Cell, session: Session)
  {
    && (Entry(ActiveTargetAnchor, 40) in breakdown <==> cell.anchor == Some(session.activeTargetId))
    && (Entry(ActiveReferentAnchor, 36) in breakdown <==>
          session.activeReferent.Some? && session.activeReferent.value != ""
          && cell.anchor == Some("referent:" + session.activeReferent.value))
    && (Entry(StaleSupportingDowngrade, -10) in breakdown <==> cell.tag == Some(StaleSupporting))
    && (Entry(InputSignalFit, 15) in breakdown <==> session.kind in cell.validFor)
    && (forall n :: Entry(ContextMeshScore, n) in breakdown <==>
          cell.meshScore.Some? && cell.meshScore.value != 0.0 && MeshWorth(cell.meshScore.value, n))
    && (forall n :: Entry(Confidence, n) in breakdown <==>
          cell.weights.Some? && cell.weights.value.confidence.Some? && cell.weights.value.confidence.value >= 0.55
          && Nearest(cell.weights.value.confidence.value * 10.0, n))
    && (Entry(HighRiskPenalty, -50) in breakdown <==>
          cell.weights.Some? && cell.weights.value.risk.Some? && cell.weights.value.risk.value > 0.8)
    && (Entry(CandidatePenalty, -5) in breakdown <==> cell.lifecycle == Some("candidate"))
    && (Entry(ConflictPenalty, -60) in breakdown <==> session.activeTargetId in cell.contradicts)
  }

  lemma EntryIff(breakdown: seq<Entry>, cell: Cell, session: Session, e: Entry)
    requires forall s :: Applies(s, cell, session) <==> Entry(s, Worth(s, cell, session)) in breakdown
    requires forall x :: x in breakdown ==> x.value == Worth(x.signal, cell, session)
    ensures e in breakdown <==> Applies(e.signal, cell, session) && e.value == Worth(e.signal, cell, session)
  {
    assert e == Entry(e.signal, e.value);
  }

  lemma MeshEntryIff(breakdown: seq<Entry>, cell: Cell, session: Session, n: int)
    requires forall s :: Applies(s, cell, session) <==> Entry(s, Worth(s, cell, session)) in breakdown
    requires forall x :: x in breakdown ==> x.value == Worth(x.signal, cell, session)
    ensures Entry(ContextMeshScore, n) in breakdown <==>
      cell.meshScore.Some? && cell.meshScore.value != 0.0 && MeshWorth(cell.meshScore.value, n)
  {
    EntryIff(breakdown, cell, session, Entry(ContextMeshScore, n));
  }

  lemma ConfidenceEntryIff(breakdown: seq<Entry>, cell: Cell, session: Session, n: int)
    requires forall s :: Applies(s, cell, session) <==> Entry(s, Worth(s, cell, session)) in breakdown
    requires forall x :: x in breakdown ==> x.value == Worth(x.signal, cell, session)
    ensures Entry(Confidence, n) in breakdown <==>
      cell.weights.Some? && cell.weights.value.confidence.Some? && cell.weights.value.confidence.value >= 0.55
      && Nearest(cell.weights.value.confidence.value * 10.0, n)
  {
    EntryIff(breakdown, cell, session, Entry(Confidence, n));
  }

  lemma ExplainsItemized(total: int, breakdown: seq<Entry>, cell: Cell, session: Session)
    requires Explains(total, breakdown, cell, session, 9)
    ensures Itemized(breakdown, cell, session)
  {
    ExplainsAll(total, breakdown, cell, session);
    EntriesApply(total, breakdown, cell, session, 9);
    EntryIff(breakdown, cell, session, Entry(ActiveTargetAnchor, 40));
    EntryIff(breakdown, cell, session, Entry(ActiveReferentAnchor, 36));
    EntryIff(breakdown, cell, session, Entry(StaleSupportingDowngrade, -10));
    EntryIff(breakdown, cell, session, Entry(InputSignalFit, 15));
    EntryIff(breakdown, cell, session, Entry(HighRiskPenalty, -50));
    EntryIff(breakdown, cell, session, Entry(CandidatePenalty, -5));
    EntryIff(breakdown, cell, session, Entry(ConflictPenalty, -60));
    forall n: int
      ensures Entry(ContextMeshScore, n) in breakdown <==>
        cell.meshScore.Some? && cell.meshScore.value != 0.0 && MeshWorth(cell.meshScore.value, n)
    {
      MeshEntryIff(breakdown, cell, session, n);
    }
    forall n: int
      ensures Entry(Confidence, n) in breakdown <==>
        cell.weights.Some? && cell.weights.value.confidence.Some? && cell.weights.value.confidence.value >= 0.55
        && Nearest(cell.weights.value.confidence.value * 10.0, n)
    {
      ConfidenceEntryIff(breakdown, cell, session, n);
    }
  }

  lemma OrderInjective(s: Signal, t: Signal)
    requires Order(s) == Order(t)
    ensures s == t
  {
  }

  lemma NoneBetweenNext(low: int, signal: Signal, cell: Cell, session: Session)
    requires NoneBetween(low, Order(signal), cell, session) && !Applies(signal, cell, session)
    ensures NoneBetween(low, Order(signal) + 1, cell, session)
  {
    forall s: Signal | low < Order(s) < Order(signal) + 1
      ensures !Applies(s, cell, session)
    {
      if Order(s) == Order(signal) {
        OrderInjective(s, signal);
      }
    }
  }

  /** A signal that does not apply leaves the breakdown complete one place further. */
  lemma ExplainsSkip(total: int, breakdown: seq<Entry>, cell: Cell, session: Session, signal: Signal)
    requires Explains(total, breakdown, cell, session, Order(signal)) && !Applies(signal, cell, session)
    ensures Explains(total, breakdown, cell, session, Order(signal) + 1)
  {
    NoneBetweenNext(if breakdown == [] then -1 else Order(breakdown[|breakdown| - 1].signal), signal, cell, session);
  }

  /** One `if (applies) { breakdown.push(...); total += value; }` of the scorer. */
  method Push(total: int, breakdown: seq<Entry>, applies: bool, e: Entry, ghost cell: Cell, ghost session: Session)
    returns (total': int, breakdown': seq<Entry>)
    requires Explains(total, breakdown, cell, session, Order(e.signal))
    requires Worth(e.signal, cell, session) == if applies then e.value else 0
    requires applies <==> Applies(e.signal, cell, session)
    ensures total' == total + Worth(e.signal, cell, session)
    ensures Explains(total', breakdown', cell, session, Order(e.signal) + 1)
  {
    total', breakdown' := total, breakdown;
    if applies {
      breakdown' := breakdown + [e];
      total' := total + e.value;
      assert breakdown'[..|breakdown|] == breakdown;
    } else {
      ExplainsSkip(total, breakdown, cell, session, e.signal);
    }
  }

  /** The first half of `scoreAdmission`: what speaks for the target, the referent and the signal. */
  method ScoreMatches(cell: Cell, session: Session) returns (total: int, breakdown: seq<Entry>)
    ensures total == Worth(ActiveTargetAnchor, cell, session) + Worth(ActiveReferentAnchor, cell, session)
      + Worth(StaleSupportingDowngrade, cell, session) + Worth(InputSignalFit, cell, session)
    ensures Explains(total, breakdown, cell, session, 4)
  {
    total, breakdown := 0, [];
    total, breakdown := Push(total, breakdown, cell.anchor == Some(session.activeTargetId),
      Entry(ActiveTargetAnchor, 40), cell, session);
    total, breakdown := Push(total, breakdown, MatchesReferent(cell, session),
      Entry(ActiveReferentAnchor, 36), cell, session);
    total, breakdown := Push(total, breakdown, cell.tag == Some(StaleSupporting),
      Entry(StaleSupportingDowngrade, -10), cell, session);
    total, breakdown := Push(total, breakdown, session.kind in cell.validFor,
      Entry(InputSignalFit, 15), cell, session);
  }

  /** Its middle: how well the mesh found the cell, and the weights it carries. */
  method ScoreWeights(cell: Cell, session: Session, sofar: int, entries: seq<Entry>)
    returns (total: int, breakdown: seq<Entry>)
    requires Explains(sofar, entries, cell, session, 4)
    ensures total == sofar + Worth(ContextMeshScore, cell, session) + Worth(Confidence, cell, session)
      + Worth(HighRiskPenalty, cell, session)
    ensures Explains(total, breakdown, cell, session, 7)
  {
    var weights := WeightsOf(cell);
    total, breakdown := Push(sofar, entries, cell.meshScore.Some? && cell.meshScore.value != 0.0,
      Entry(ContextMeshScore, MeshPart(cell)), cell, session);
    total, breakdown := Push(total, breakdown, weights.confidence.Some? && weights.confidence.value >= 0.55,
      Entry(Confidence, ConfidencePart(cell)), cell, session);
    total, breakdown := Push(total, breakdown, weights.risk.Some? && weights.risk.value > 0.8,
      Entry(HighRiskPenalty, -50), cell, session);
  }

  /**
   `scoreAdmission`: the total is the sum of the breakdown, which has an entry, once and in order, for
   exactly the signals that apply: those whose conditions `Itemized` spells out.
   */
  method ScoreAdmission(cell: Cell, session: Session) returns (total: int, breakdown: seq<Entry>)
    ensures total == Score(cell, session)
    ensures total == Sum(breakdown) && Explains(total, breakdown, cell, session, 9)
    ensures Itemized(breakdown, cell, session)
  {
    total, breakdown := ScoreMatches(cell, session);
    total, breakdown := ScoreWeights(cell, session, total, breakdown);
    total, breakdown := Push(total, breakdown, cell.lifecycle == Some("candidate"),
      Entry(CandidatePenalty, -5), cell, session);
    total, breakdown := Push(total, breakdown, Contradicts(cell, session),
      Entry(ConflictPenalty, -60), cell, session);
    ExplainsSum(total, breakdown, cell, session, 9);
    ExplainsItemized(total, breakdown, cell, session);
  }

  /** `classifyCellRole` */
  function ClassifyCellRole(cell: Cell, session: Session, total: int): Role
  {
    var permits := AuthorityUse(cell);
    if Contradicts(cell, session) then Conflict
    else if cell.tag == Some(Blocked) || !permits.evidence then Rejected
    else if HighRisk(cell) || total < 5 then Rejected
    else if cell.tag == Some(CandidateEvidence) || !permits.support then Candidate
    else if cell.tag == Some(StaleSupporting) then Support
    else if cell.eligible == Some(false) || !permits.anchor then Support
    else if MatchesReferent(cell, session) then (if cell.eligible == Some(true) then Anchor else Support)
    else if cell.anchor == Some(session.activeTargetId) then Anchor
    else Support
  }

  function RoleOf(cell: Cell, session: Session): Role
  {
    ClassifyCellRole(cell, session, Score(cell, session))
  }

  predicate Admits(role: Role)
  {
    role == Anchor || role == Support
  }

  // ---------- the score ----------

  /** The weights the runtime documents: a confidence is a proportion, a mesh score is positive. */
  predicate Normalized(cell: Cell)
  {
    && (WeightsOf(cell).confidence.Some? ==> 0.0 <= WeightsOf(cell).confidence.value <= 1.0)
    && (cell.meshScore.Some? ==> cell.meshScore.value >= 0.0)
  }

  lemma RoundBounds(x: real, lo: int, hi: int)
    requires lo as real <= x <= hi as real
    ensures lo <= Round(x) <= hi
  {
  }

  lemma PartBounds(cell: Cell)
    requires cell.meshScore.Some? ==> cell.meshScore.value >= 0.0
    ensures 0 <= MeshPart(cell) <= 20 && 0 <= ConfidencePart(cell)
    ensures Normalized(cell) ==> ConfidencePart(cell) <= 10
  {
    var confidence := WeightsOf(cell).confidence;
    if confidence.Some? && confidence.value >= 0.55 {
      assert confidence.value * 10.0 >= 5.5;
      if Normalized(cell) {
        RoundBounds(confidence.value * 10.0, 5, 10);
      }
    }
  }

  lemma ScoreRange(cell: Cell, session: Session)
    requires Normalized(cell)
    ensures -125 <= Score(cell, session) <= 121
  {
    PartBounds(cell);
  }

  /**
   Exactly which cells anchor an answer. The threshold on the score is no part of it: a cell that
   meets the other conditions always scores above it.
   */
  lemma AnchorIff(cell: Cell, session: Session)
    requires cell.meshScore.Some? ==> cell.meshScore.value >= 0.0
    ensures RoleOf(cell, session) == Anchor <==>
      && !Contradicts(cell, session)
      && cell.tag !in {Some(Blocked), Some(CandidateEvidence), Some(StaleSupporting)}
      && AuthorityUse(cell) == Permissions(true, true, true)
      && !HighRisk(cell)
      && (if MatchesReferent(cell, session) then cell.eligible == Some(true)
          else cell.anchor == Some(session.activeTargetId) && cell.eligible != Some(false))
  {
    PartBounds(cell);
  }

  /** Exactly which cells are in conflict, kept for review, admitted, and so rejected. */
  lemma RoleIff(cell: Cell, session: Session)
    ensures var role, permits := RoleOf(cell, session), AuthorityUse(cell);
      var usable := !Contradicts(cell, session) && cell.tag != Some(Blocked) && permits.evidence
                    && !HighRisk(cell) && Score(cell, session) >= 5;
      && (role == Conflict <==> session.activeTargetId in cell.contradicts)
      && (role in {Candidate, Support, Anchor} <==> usable)
      && (role == Candidate <==> usable && (cell.tag == Some(CandidateEvidence) || !permits.support))
      && (Admits(role) <==> usable && cell.tag != Some(CandidateEvidence) && permits.support)
  {
  }

  // ---------- no later stage upgrades an earlier one ----------

  /** How far a tag lets a cell go: 0 refused, 1 kept for review, 2 admitted, 3 anchors the answer. */
  function TagRank(tag: Tag): nat
  {
    match tag
    case Blocked => 0
    case CandidateEvidence => 1
    case StaleSupporting => 2
    case SupportingContext => 2
    case AnswerAnchor => 3
  }

  function RoleRank(role: Role): nat
  {
    match role
    case Conflict => 0
    case Rejected => 0
    case Candidate => 1
    case Support => 2
    case Anchor => 3
  }

  /** Admission only ever keeps or lowers the use the policy granted, whatever the scores are. */
  lemma NoUpgrade(cell: Cell, policy: RequestPolicy, session: Session, total: int)
    ensures RoleRank(ClassifyCellRole(Retrieve(cell, policy, session.kind), session, total))
         <= TagRank(CandidateUse(cell, policy).tag)
  {
  }

  /** A stored cell that retrieval keeps, in the role admission gives it. */
  function Verdict(cell: Cell, policy: RequestPolicy, session: Session): Option<Role>
  {
    var retrieved := Retrieve(cell, policy, session.kind);
    if retrieved.meshScore.value > 0.0 then Some(RoleOf(retrieved, session)) else None
  }

  /**
   Exactly which stored cells anchor an answer: from the words of the cell to its role, none of the
   scores, tags and eligibility in between makes a difference.
   */
  lemma StoredAnchorIff(cell: Cell, policy: RequestPolicy, session: Session)
    requires policy.activeTargetId == session.activeTargetId != ""
    ensures Verdict(cell, policy, session) == Some(Anchor) <==>
      && cell.anchor == Some(session.activeTargetId)
      && AuthorityUse(cell) == Permissions(true, true, true)
      && !Contradicts(cell, session) && !HighRisk(cell)
  {
    var retrieved := Retrieve(cell, policy, session.kind);
    TagIff(cell, policy);
    assert AuthorityUse(retrieved) == AuthorityUse(cell);
    if retrieved.meshScore.value > 0.0 {
      AnchorIff(retrieved, session);
    }
  }

  /** Exactly which stored cells retrieval drops: nothing speaks for them, or too little for a stale one. */
  lemma DroppedIff(cell: Cell, policy: RequestPolicy, session: Session)
    ensures var use := CandidateUse(cell, policy);
      var fits, candidate := session.kind in cell.validFor, cell.lifecycle == Some("candidate");
      Verdict(cell, policy, session) == None <==>
        && cell.hits == 0
        && (if use.tag == StaleSupporting then !(fits && candidate)
            else !fits && !candidate && !(use.eligible && cell.anchor == Some(policy.activeTargetId)))
  {
  }

  lemma MeshPartMonotone(a: Cell, b: Cell)
    requires a.meshScore.Some? && b.meshScore.Some? && 0.0 < a.meshScore.value <= b.meshScore.value
    ensures MeshPart(a) <= MeshPart(b)
  {
  }

  /** Blocking more leaves an admitted cell's tag alone, or turns an anchor into support. */
  lemma BlockedTagOfAdmitted(cell: Cell, blockedUse: seq<string>, policy: RequestPolicy)
    requires Uses(cell.blockedUse) <= Uses(blockedUse)
    requires TagRank(CandidateUse(cell.(blockedUse := blockedUse), policy).tag) >= 2
    ensures var before, after := CandidateUse(cell, policy), CandidateUse(cell.(blockedUse := blockedUse), policy);
      || before == after
      || (before.tag == AnswerAnchor && before.eligible && after.tag == SupportingContext && !after.eligible)
  {
    BlockingMoreForbidsMore(cell, blockedUse);
  }

  /** Two cells that differ in what retrieval found score as their mesh scores do. */
  lemma ScoreFollowsMesh(a: Cell, b: Cell, session: Session)
    requires b == a.(blockedUse := b.blockedUse, tag := b.tag, eligible := b.eligible, meshScore := b.meshScore)
    requires b.tag == Some(StaleSupporting) <==> a.tag == Some(StaleSupporting)
    requires MeshPart(b) <= MeshPart(a)
    ensures Score(b, session) <= Score(a, session)
  {
    assert ConfidencePart(a) == ConfidencePart(b);
  }

  lemma BlockedMeshOfAdmitted(cell: Cell, blockedUse: seq<string>, policy: RequestPolicy, kind: string)
    requires Uses(cell.blockedUse) <= Uses(blockedUse)
    requires TagRank(CandidateUse(cell.(blockedUse := blockedUse), policy).tag) >= 2
    ensures var a, b := Retrieve(cell, policy, kind), Retrieve(cell.(blockedUse := blockedUse), policy, kind);
      b.meshScore.value <= a.meshScore.value && (b.tag == Some(StaleSupporting) <==> a.tag == Some(StaleSupporting))
  {
    BlockedTagOfAdmitted(cell, blockedUse, policy);
  }

  /** Losing eligibility is all an admitted cell's score can lose. */
  lemma BlockedScoreOfAdmitted(cell: Cell, blockedUse: seq<string>, policy: RequestPolicy, session: Session)
    requires Uses(cell.blockedUse) <= Uses(blockedUse)
    requires TagRank(CandidateUse(cell.(blockedUse := blockedUse), policy).tag) >= 2
    ensures var a := Retrieve(cell, policy, session.kind);
      var b := Retrieve(cell.(blockedUse := blockedUse), policy, session.kind);
      && b.meshScore.value <= a.meshScore.value
      && (b.meshScore.value > 0.0 ==> Score(b, session) <= Score(a, session))
  {
    var a := Retrieve(cell, policy, session.kind);
    var b := Retrieve(cell.(blockedUse := blockedUse), policy, session.kind);
    BlockedMeshOfAdmitted(cell, blockedUse, policy, session.kind);
    if b.meshScore.value > 0.0 {
      MeshPartMonotone(b, a);
      ScoreFollowsMesh(a, b, session);
    }
  }

  /**
   Blocking more uses, through retrieval, policy, score and role together: what is admitted with the
   larger set was admitted with the smaller, and what anchors the answer with it anchored it before.
   */
  lemma BlockingNeverAdmits(cell: Cell, blockedUse: seq<string>, policy: RequestPolicy, session: Session)
    requires Uses(cell.blockedUse) <= Uses(blockedUse)
    requires policy.activeTargetId == session.activeTargetId
    ensures var before := Verdict(cell, policy, session);
      var after := Verdict(cell.(blockedUse := blockedUse), policy, session);
      && (after.Some? && Admits(after.value) ==> before.Some? && Admits(before.value))
      && (after == Some(Anchor) ==> before == Some(Anchor))
  {
    var blocked := cell.(blockedUse := blockedUse);
    var a, b := Retrieve(cell, policy, session.kind), Retrieve(blocked, policy, session.kind);
    if Verdict(blocked, policy, session).Some? && Admits(RoleOf(b, session)) {
      NoUpgrade(blocked, policy, session, Score(b, session));
      BlockingMoreForbidsMore(cell, blockedUse);
      BlockedTagOfAdmitted(cell, blockedUse, policy);
      BlockedScoreOfAdmitted(cell, blockedUse, policy, session);
      assert AuthorityUse(a) == AuthorityUse(cell) && AuthorityUse(b) == AuthorityUse(blocked);
    }
  }

  /** How far a stored cell gets in the end: a dropped one nowhere. */
  function VerdictRank(verdict: Option<Role>): nat
  {
    if verdict.Some? then RoleRank(verdict.value) else 0
  }

  /**
   Blocking takes the support of a stale cell, and the penalty for being stale with it: that penalty alone
   kept the cell out of retrieval or below the threshold.
   */
  predicate ShedsStaleness(cell: Cell, blockedUse: seq<string>, policy: RequestPolicy, session: Session)
  {
    var blocked := cell.(blockedUse := blockedUse);
    var a, b := Retrieve(cell, policy, session.kind), Retrieve(blocked, policy, session.kind);
    && CandidateUse(cell, policy).tag == StaleSupporting
    && AuthorityUse(blocked).evidence && !AuthorityUse(blocked).support
    && !Contradicts(cell, session) && !HighRisk(cell)
    && b.meshScore.value > 0.0 && Score(b, session) >= 5
    && (a.meshScore.value <= 0.0 || Score(a, session) < 5)
  }

  /** Without support, a cell that was not stale scores no better for it. */
  lemma UnsupportedScore(cell: Cell, blockedUse: seq<string>, policy: RequestPolicy, session: Session)
    requires Uses(cell.blockedUse) <= Uses(blockedUse)
    requires CandidateUse(cell, policy).tag != StaleSupporting
    requires !AuthorityUse(cell.(blockedUse := blockedUse)).support
    ensures var a := Retrieve(cell, policy, session.kind);
      var b := Retrieve(cell.(blockedUse := blockedUse), policy, session.kind);
      && b.meshScore.value <= a.meshScore.value
      && (b.meshScore.value > 0.0 ==> Score(b, session) <= Score(a, session))
  {
    var a := Retrieve(cell, policy, session.kind);
    var b := Retrieve(cell.(blockedUse := blockedUse), policy, session.kind);
    BlockingMoreForbidsMore(cell, blockedUse);
    assert b.meshScore.value <= a.meshScore.value;
    if b.meshScore.value > 0.0 {
      MeshPartMonotone(b, a);
      ScoreFollowsMesh(a, b, session);
    }
  }

  lemma ShedsStalenessLifts(cell: Cell, blockedUse: seq<string>, policy: RequestPolicy, session: Session)
    requires ShedsStaleness(cell, blockedUse, policy, session)
    ensures VerdictRank(Verdict(cell, policy, session)) == 0
    ensures Verdict(cell.(blockedUse := blockedUse), policy, session) == Some(Candidate)
  {
    assert CandidateUse(cell.(blockedUse := blockedUse), policy).tag == CandidateEvidence;
  }

  lemma LiftShedsStaleness(cell: Cell, blockedUse: seq<string>, policy: RequestPolicy, session: Session)
    requires Uses(cell.blockedUse) <= Uses(blockedUse) && policy.activeTargetId == session.activeTargetId
    requires VerdictRank(Verdict(cell, policy, session)) == 0
    requires Verdict(cell.(blockedUse := blockedUse), policy, session) == Some(Candidate)
    ensures ShedsStaleness(cell, blockedUse, policy, session)
  {
    var blocked := cell.(blockedUse := blockedUse);
    var a, b := Retrieve(cell, policy, session.kind), Retrieve(blocked, policy, session.kind);
    assert AuthorityUse(a) == AuthorityUse(cell) && AuthorityUse(b) == AuthorityUse(blocked);
    BlockingMoreForbidsMore(cell, blockedUse);
    assert AuthorityUse(blocked).evidence && !AuthorityUse(blocked).support;
    assert a.meshScore.value <= 0.0 || Score(a, session) < 5;
    if CandidateUse(cell, policy).tag != StaleSupporting {
      UnsupportedScore(cell, blockedUse, policy, session);
    }
  }

  /**
   Blocking more uses moves a stored cell up exactly when it sheds its staleness, and then only from
   dropped or rejected to candidate: never among the admitted cells.
   */
  lemma BlockingLiftsIff(cell: Cell, blockedUse: seq<string>, policy: RequestPolicy, session: Session)
    requires Uses(cell.blockedUse) <= Uses(blockedUse) && policy.activeTargetId == session.activeTargetId
    ensures var before := Verdict(cell, policy, session);
      var after := Verdict(cell.(blockedUse := blockedUse), policy, session);
      && (VerdictRank(after) > VerdictRank(before) <==> ShedsStaleness(cell, blockedUse, policy, session))
      && (VerdictRank(after) > VerdictRank(before) ==> after == Some(Candidate) && VerdictRank(before) == 0)
  {
    BlockingNeverAdmits(cell, blockedUse, policy, session);
    if ShedsStaleness(cell, blockedUse, policy, session) {
      ShedsStalenessLifts(cell, blockedUse, policy, session);
    }
    var before := Verdict(cell, policy, session);
    var after := Verdict(cell.(blockedUse := blockedUse), policy, session);
    if VerdictRank(after) > VerdictRank(before) {
      LiftShedsStaleness(cell, blockedUse, policy, session);
    }
  }

  /** A reviewed release cell in a general turn, with no weights and nothing against it. */
  predicate StrayReleaseCell(cell: Cell, policy: RequestPolicy, session: Session)
  {
    && cell.anchor == Some(RELEASE_TARGET) && cell.lifecycle == None && cell.weights == None
    && cell.contradicts == [] && cell.allowedUse == [] && cell.blockedUse == []
    && policy.activeTargetId == session.activeTargetId == GENERAL_TARGET && policy.requestType == GeneralRequest
    && session.activeReferent == None
  }

  lemma StrayUses(cell: Cell, policy: RequestPolicy, use: string)
    requires cell.allowedUse == [] && cell.blockedUse == [] && cell.lifecycle == None && use == "supporting_context"
    ensures Uses(cell.blockedUse) <= Uses([use])
    ensures AuthorityUse(cell).evidence && AuthorityUse(cell).support
    ensures AuthorityUse(cell.(blockedUse := [use])).evidence && !AuthorityUse(cell.(blockedUse := [use])).support
  {
    assert Uses([]) == {};
    UsesOfTwo(use, use);
    assert use[0] == 's' && "candidate_evidence"[0] == "context_use"[0] == 'c';
    assert "all_context_use"[0] == "admit_for_current_turn"[0] == 'a';
  }

  lemma StrayTags(cell: Cell, blockedUse: seq<string>, policy: RequestPolicy, session: Session)
    requires StrayReleaseCell(cell, policy, session)
    requires AuthorityUse(cell).evidence && AuthorityUse(cell).support
    requires AuthorityUse(cell.(blockedUse := blockedUse)).evidence && !AuthorityUse(cell.(blockedUse := blockedUse)).support
    ensures CandidateUse(cell, policy).tag == StaleSupporting
    ensures CandidateUse(cell.(blockedUse := blockedUse), policy).tag == CandidateEvidence
    ensures !CandidateUse(cell, policy).eligible && !CandidateUse(cell.(blockedUse := blockedUse), policy).eligible
  {
  }

  /** Found once in the request and nothing more: kept, but scored too low while it is stale. */
  lemma StrayFoundOnce(cell: Cell, blockedUse: seq<string>, policy: RequestPolicy, session: Session)
    requires StrayReleaseCell(cell, policy, session) && cell.hits == 1 && cell.validFor == []
    requires AuthorityUse(cell).evidence && AuthorityUse(cell).support
    requires AuthorityUse(cell.(blockedUse := blockedUse)).evidence && !AuthorityUse(cell.(blockedUse := blockedUse)).support
    ensures ShedsStaleness(cell, blockedUse, policy, session)
    ensures Verdict(cell, policy, session) == Some(Rejected)
  {
    StrayTags(cell, blockedUse, policy, session);
    var a := Retrieve(cell, policy, session.kind);
    var b := Retrieve(cell.(blockedUse := blockedUse), policy, session.kind);
    assert a.meshScore == Some(1.0) && MeshPart(a) == 3 && Score(a, session) == -7;
    assert b.meshScore == Some(2.0) && MeshPart(b) == 6 && Score(b, session) == 6;
  }

  /** Not found in the request, and valid for its kind only: dropped while it is stale. */
  lemma StrayNotFound(cell: Cell, blockedUse: seq<string>, policy: RequestPolicy, session: Session)
    requires StrayReleaseCell(cell, policy, session) && cell.hits == 0 && session.kind in cell.validFor
    requires AuthorityUse(cell).evidence && AuthorityUse(cell).support
    requires AuthorityUse(cell.(blockedUse := blockedUse)).evidence && !AuthorityUse(cell.(blockedUse := blockedUse)).support
    ensures ShedsStaleness(cell, blockedUse, policy, session)
    ensures Verdict(cell, policy, session) == None
  {
    StrayTags(cell, blockedUse, policy, session);
    var a := Retrieve(cell, policy, session.kind);
    var b := Retrieve(cell.(blockedUse := blockedUse), policy, session.kind);
    assert a.meshScore == Some(0.0);
    assert b.meshScore == Some(1.0) && MeshPart(b) == 3 && Score(b, session) == 18;
  }

  lemma StrayExample(hits: nat, validFor: seq<string>, kind: string)
    returns (cell: Cell, policy: RequestPolicy, session: Session)
    ensures StrayReleaseCell(cell, policy, session)
    ensures cell.hits == hits && cell.validFor == validFor && session.kind == kind
  {
    cell := Cell("c", Some(RELEASE_TARGET), None, [], [], validFor, [], None, hits, None, None, None);
    policy := RequestPolicy(GeneralRequest, GENERAL_TARGET, false, CurrentRequest, false);
    session := Session(GENERAL_TARGET, None, kind);
  }

  /** Blocking more lifts a cell from this verdict to candidate. */
  ghost predicate Lifted(cell: Cell, blockedUse: seq<string>, policy: RequestPolicy, session: Session, from: Option<Role>)
  {
    && Uses(cell.blockedUse) <= Uses(blockedUse) && policy.activeTargetId == session.activeTargetId
    && Verdict(cell, policy, session) == from
    && Verdict(cell.(blockedUse := blockedUse), policy, session) == Some(Candidate)
  }

  /** Both lifts occur: of a rejected cell, and of one that retrieval dropped. */
  lemma BlockingCanLiftToCandidate()
    ensures exists cell, blockedUse, policy, session :: Lifted(cell, blockedUse, policy, session, Some(Rejected))
    ensures exists cell, blockedUse, policy, session :: Lifted(cell, blockedUse, policy, session, None)
  {
    var use, kind := "supporting_context", "general_request";
    var cell, policy, session := StrayExample(1, [], kind);
    StrayUses(cell, policy, use);
    StrayFoundOnce(cell, [use], policy, session);
    BlockingLiftsIff(cell, [use], policy, session);
    assert Lifted(cell, [use], policy, session, Some(Rejected));
    var cell', policy', session' := StrayExample(0, [kind], kind);
    StrayUses(cell', policy', use);
    StrayNotFound(cell', [use], policy', session');
    BlockingLiftsIff(cell', [use], policy', session');
    assert Lifted(cell', [use], policy', session', None);
  }

  // ---------- the packet ----------

  datatype Decision = Decision(id: string, role: Role, admitted: bool, score: int, cell: Cell)

  function Decide(cell: Cell, session: Session): Decision
  {
    var role := RoleOf(cell, session);
    Decision(cell.id, role, Admits(role), Score(cell, session), cell)
  }

  function Decisions(cells: seq<Cell>, session: Session): seq<Decision>
  {
    Map((c: Cell) => Decide(c, session), cells)
  }

  predicate IsAdmitted(d: Decision)
  {
    d.admitted
  }

  predicate IsRejected(d: Decision)
  {
    !d.admitted
  }

  predicate IsAnchor(d: Decision)
  {
    d.role == Anchor
  }

  datatype AdmissionPacket = AdmissionPacket(
    ready: bool, admittedCells: seq<Decision>, rejectedCells: seq<Decision>, strongestAnchor: Option<string>)

  /** `buildAdmissionPacket` */
  function BuildAdmissionPacket(cells: seq<Cell>, session: Session): AdmissionPacket
  {
    var decisions := Decisions(cells, session);
    var admitted := Filter(IsAdmitted, decisions);
    var first := FindIndex(IsAnchor, admitted);
    AdmissionPacket(first < |admitted|, admitted, Filter(IsRejected, decisions),
      if first < |admitted| then Truthy(Some(admitted[first].id)) else None)
  }

  /** The decision names its cell, its role and its score. */
  predicate DecidesOn(d: Decision, session: Session)
  {
    && d.id == d.cell.id && d.role == RoleOf(d.cell, session) && d.score == Score(d.cell, session)
    && (d.admitted <==> d.role == Anchor || d.role == Support)
  }

  /** A packet holds exactly the decisions on the cells, the admitted ones on one side. */
  lemma PacketMembers(cells: seq<Cell>, session: Session, d: Decision)
    ensures var packet := BuildAdmissionPacket(cells, session);
      && (d in packet.admittedCells <==> d.cell in cells && DecidesOn(d, session) && Admits(d.role))
      && (d in packet.rejectedCells <==> d.cell in cells && DecidesOn(d, session) && !Admits(d.role))
  {
    assert DecidesOn(d, session) <==> d == Decide(d.cell, session);
    var decisions := Decisions(cells, session);
    FilterElements(IsAdmitted, decisions);
    FilterElements(IsRejected, decisions);
    if d.cell in cells && d == Decide(d.cell, session) {
      var i :| 0 <= i < |cells| && cells[i] == d.cell;
      assert decisions[i] == d;
    }
  }

  /** Admitted and rejected cells are the decisions on the retrieved cells, each side in their order. */
  lemma PacketPartition(cells: seq<Cell>, session: Session)
    ensures var packet := BuildAdmissionPacket(cells, session);
      && Interleaves(packet.admittedCells, packet.rejectedCells, Decisions(cells, session))
      && (packet.ready <==> exists c :: c in cells && RoleOf(c, session) == Anchor)
      && (packet.ready <==> exists d :: d in packet.admittedCells && d.role == Anchor)
  {
    var decisions := Decisions(cells, session);
    var packet := BuildAdmissionPacket(cells, session);
    FilterSplits(IsAdmitted, IsRejected, decisions);
    if packet.ready {
      var d := packet.admittedCells[FindIndex(IsAnchor, packet.admittedCells)];
      PacketMembers(cells, session, d);
      assert RoleOf(d.cell, session) == Anchor && d in packet.admittedCells;
    }
    if c :| c in cells && RoleOf(c, session) == Anchor {
      PacketMembers(cells, session, Decide(c, session));
      var i :| 0 <= i < |packet.admittedCells| && packet.admittedCells[i] == Decide(c, session);
      assert IsAnchor(packet.admittedCells[i]);
    }
  }

  /** Where the first anchor among the cells stands, if there is one. */
  predicate FirstAnchor(cells: seq<Cell>, session: Session, i: nat)
  {
    i < |cells| && RoleOf(cells[i], session) == Anchor
    && forall j :: 0 <= j < i ==> RoleOf(cells[j], session) != Anchor
  }

  lemma {:induction false} FirstOfFilter<T>(keep: T -> bool, found: T -> bool, s: seq<T>, i: nat)
    requires i < |s| && found(s[i]) && keep(s[i]) && forall j :: 0 <= j < i ==> !found(s[j])
    ensures var kept := Filter(keep, s); var k := FindIndex(found, kept); k < |kept| && kept[k] == s[i]
  {
    if i > 0 {
      FirstOfFilter(keep, found, s[1..], i - 1);
    }
  }

  /** The strongest anchor is the first in the order of retrieval, whatever the scores are. */
  lemma StrongestIsFirst(cells: seq<Cell>, session: Session, i: nat)
    requires FirstAnchor(cells, session, i)
    ensures BuildAdmissionPacket(cells, session).strongestAnchor
         == if cells[i].id != "" then Some(cells[i].id) else None
  {
    FirstOfFilter(IsAdmitted, IsAnchor, Decisions(cells, session), i);
  }
}
