/** The local approval and audit records: two log files written together, and the replay that links them. */
module ApprovalAudit {
  import opened Prelude
  import opened Numerals
  import opened Jsonl
  import Text

  /** A proposal to record; the empty string stands for a missing field. */
  datatype Proposal = Proposal(
    id: string, source: string, toolKind: string, actionType: string, authorityLevel: string,
    expectedEffect: string, risk: string, rollbackReference: string)

  datatype ApprovalRecord = ApprovalRecord(
    id: string, createdAt: string, packetId: string, proposalId: string, source: string, toolKind: string,
    actionType: string, authorityLevel: string, authorityLabel: string, confirmationState: string,
    expectedEffect: string, risk: string, rollbackReference: string, auditReference: string, replayReference: string)

  datatype AuditRecord = AuditRecord(
    id: string, createdAt: string, approvalRecordId: string, proposalId: string, source: string,
    requestedAction: string, authorityLevel: string, authorityLabel: string, expectedEffect: string, risk: string,
    rollbackReference: string, userConfirmationState: string, replayReference: string)

  // ---------- validation ----------

  datatype Finding =
    | Missing(field: string)
    | ConfirmationStateRequired
    | BlockedAuthorityLevel(level: string)
    | BlockedActionType(action: string)

  const BLOCKED_AUTHORITY: set<string> := {"external_send", "destructive", "paid_action"}

  datatype Field = Field(name: string, value: string)

  /** The required fields, in the order they are checked. */
  function RequiredFields(p: Proposal): seq<Field>
  {
    [Field("id", p.id), Field("source", p.source), Field("toolKind", p.toolKind), Field("actionType", p.actionType),
     Field("authorityLevel", p.authorityLevel), Field("expectedEffect", p.expectedEffect), Field("risk", p.risk),
     Field("rollbackReference", p.rollbackReference)]
  }

  predicate IsMissing(field: Field)
  {
    field.value == ""
  }

  /** `validateLocalRecordWriteProposal` */
  function Findings(p: Proposal, confirmationState: string): seq<Finding>
  {
    Map((field: Field) => Missing(field.name), Filter(IsMissing, RequiredFields(p)))
    + (if confirmationState == "" || confirmationState == "not_confirmed" then [ConfirmationStateRequired] else [])
    + (if p.authorityLevel in BLOCKED_AUTHORITY then [BlockedAuthorityLevel(p.authorityLevel)] else [])
    + (if p.actionType in BLOCKED_AUTHORITY then [BlockedActionType(p.actionType)] else [])
  }

  /** Each finding is reported exactly when its check fails. */
  lemma FindingsIff(p: Proposal, confirmationState: string, f: Finding)
    ensures f in Findings(p, confirmationState) <==>
      match f
      case Missing(field) =>
        || (field == "id" && p.id == "") || (field == "source" && p.source == "")
        || (field == "toolKind" && p.toolKind == "") || (field == "actionType" && p.actionType == "")
        || (field == "authorityLevel" && p.authorityLevel == "") || (field == "expectedEffect" && p.expectedEffect == "")
        || (field == "risk" && p.risk == "") || (field == "rollbackReference" && p.rollbackReference == "")
      case ConfirmationStateRequired => confirmationState == "" || confirmationState == "not_confirmed"
      case BlockedAuthorityLevel(level) =>
        level == p.authorityLevel && level in {"external_send", "destructive", "paid_action"}
      case BlockedActionType(action) =>
        action == p.actionType && action in {"external_send", "destructive", "paid_action"}
  {
    var missing := Map((field: Field) => Missing(field.name), Filter(IsMissing, RequiredFields(p)));
    forall i | 0 <= i < |missing|
      ensures missing[i].Missing?
    {
    }
    assert f in Findings(p, confirmationState) && f.Missing? ==> f in missing;
    if f.Missing? {
      MissingIff(p, f.field);
    }
  }

  lemma MissingIff(p: Proposal, name: string)
    ensures Missing(name) in Map((field: Field) => Missing(field.name), Filter(IsMissing, RequiredFields(p))) <==>
      || (name == "id" && p.id == "") || (name == "source" && p.source == "")
      || (name == "toolKind" && p.toolKind == "") || (name == "actionType" && p.actionType == "")
      || (name == "authorityLevel" && p.authorityLevel == "") || (name == "expectedEffect" && p.expectedEffect == "")
      || (name == "risk" && p.risk == "") || (name == "rollbackReference" && p.rollbackReference == "")
  {
    var fields := RequiredFields(p);
    FilterElements(IsMissing, fields);
    MapMembers((field: Field) => Missing(field.name), Filter(IsMissing, fields), Missing(name));
    FieldsAre(p, name);
  }

  lemma FieldsAre(p: Proposal, name: string)
    ensures Field(name, "") in RequiredFields(p) <==>
      || (name == "id" && p.id == "") || (name == "source" && p.source == "")
      || (name == "toolKind" && p.toolKind == "") || (name == "actionType" && p.actionType == "")
      || (name == "authorityLevel" && p.authorityLevel == "") || (name == "expectedEffect" && p.expectedEffect == "")
      || (name == "risk" && p.risk == "") || (name == "rollbackReference" && p.rollbackReference == "")
  {
    var fields := RequiredFields(p);
    assert fields[0] == Field("id", p.id) && fields[1] == Field("source", p.source)
        && fields[2] == Field("toolKind", p.toolKind) && fields[3] == Field("actionType", p.actionType)
        && fields[4] == Field("authorityLevel", p.authorityLevel) && fields[5] == Field("expectedEffect", p.expectedEffect)
        && fields[6] == Field("risk", p.risk) && fields[7] == Field("rollbackReference", p.rollbackReference);
  }

  predicate Complete(p: Proposal)
  {
    && p.id != "" && p.source != "" && p.toolKind != "" && p.actionType != ""
    && p.authorityLevel != "" && p.expectedEffect != "" && p.risk != "" && p.rollbackReference != ""
  }

  /** A record is written exactly for a complete, confirmed proposal that needs no blocked authority. */
  lemma NoFindingsIff(p: Proposal, confirmationState: string)
    ensures Findings(p, confirmationState) == [] <==>
      && Complete(p)
      && confirmationState !in {"", "not_confirmed"}
      && p.authorityLevel !in BLOCKED_AUTHORITY
      && p.actionType !in BLOCKED_AUTHORITY
  {
    var fields := RequiredFields(p);
    var missing := Filter(IsMissing, fields);
    FilterElements(IsMissing, fields);
    if missing != [] {
      assert missing[0] in missing;
      assert missing[0] in fields;
    }
    if !Complete(p) {
      assert exists i :: 0 <= i < 8 && fields[i].value == "" by {
        assert fields[0].value == p.id && fields[1].value == p.source && fields[2].value == p.toolKind
            && fields[3].value == p.actionType && fields[4].value == p.authorityLevel && fields[5].value == p.expectedEffect
            && fields[6].value == p.risk && fields[7].value == p.rollbackReference;
      }
      var i :| 0 <= i < 8 && fields[i].value == "";
      assert fields[i] in missing;
    }
  }

  // ---------- record ids ----------

  predicate IsDigit(c: char)
  {
    '0' <= c <= '9'
  }

  predicate IsSafe(c: char)
  {
    IsDigit(c) || 'a' <= c <= 'z' || 'A' <= c <= 'Z' || c in {'.', '_', '-'}
  }

  function SafeChar(c: char): char
  {
    if IsSafe(c) then c else '_'
  }

  /** The first fourteen digits of a time stamp, or the clock when it has none. */
  function Stamp(now: string, clock: nat): string
  {
    var digits := SliceFirst(Filter(IsDigit, now), 14);
    if digits == "" then Numeral(clock, 10) else digits
  }

  function SafeProposal(proposalId: string): string
  {
    SliceFirst(Map(SafeChar, if proposalId == "" then "proposal" else proposalId), 72)
  }

  /** `buildRecordId` */
  function RecordId(prefix: string, proposalId: string, now: string, clock: nat): string
  {
    prefix + "." + Stamp(now, clock) + "." + SafeProposal(proposalId)
  }

  /** The parts of an id: at most fourteen digits unless the clock stood in, and at most 72 safe characters. */
  lemma RecordIdParts(proposalId: string, now: string, clock: nat)
    ensures var stamp, safe := Stamp(now, clock), SafeProposal(proposalId);
      && stamp != "" && safe != "" && |safe| <= 72
      && (forall c :: c in safe ==> IsSafe(c))
      && ((exists c :: c in now && IsDigit(c)) ==> |stamp| <= 14 && forall c :: c in stamp ==> IsDigit(c))
      && (proposalId != "" && |proposalId| <= 72 && (forall c :: c in proposalId ==> IsSafe(c)) ==> safe == proposalId)
      && (proposalId != "" ==>
            && |safe| == (if |proposalId| < 72 then |proposalId| else 72)
            && forall i :: 0 <= i < |safe| ==> safe[i] == if IsSafe(proposalId[i]) then proposalId[i] else '_')
  {
    var digits := Filter(IsDigit, now);
    FilterElements(IsDigit, now);
    assert forall c :: c in SliceFirst(digits, 14) ==> c in digits;
    if c :| c in now && IsDigit(c) {
      assert c in digits;
    }
    var name := if proposalId == "" then "proposal" else proposalId;
    var mapped := Map(SafeChar, name);
    forall c | c in SafeProposal(proposalId)
      ensures IsSafe(c)
    {
      var i :| 0 <= i < |mapped| && mapped[i] == c;
    }
    assert (forall c :: c in name ==> IsSafe(c)) ==> mapped == name;
  }

  /** The stamp is the first fourteen digits of the time, or all of them if there are fewer. */
  lemma StampIsPrefix(now: string, clock: nat, digits: string)
    requires Picked(digits, (c: char) => '0' <= c <= '9', now)
    ensures digits != "" ==> Stamp(now, clock) == digits[..if |digits| < 14 then |digits| else 14]
    ensures digits == "" ==> Stamp(now, clock) == Numeral(clock, 10)
  {
    PickedIsFilter(digits, (c: char) => '0' <= c <= '9', IsDigit, now);
  }

  lemma StampHasNoDot(now: string, clock: nat)
    ensures '.' !in Stamp(now, clock)
  {
    FilterElements(IsDigit, now);
    NumeralCharacters(clock, 10);
    var digits := Filter(IsDigit, now);
    assert forall c :: c in SliceFirst(digits, 14) ==> c in digits;
  }

  lemma DotSplits(a: string, b: string, restA: string, restB: string)
    requires '.' !in a && '.' !in b && a + "." + restA == b + "." + restB
    ensures a == b && restA == restB
  {
    var s := a + "." + restA;
    Text.IndexOfFirst(a, '.', restA);
    Text.IndexOfFirst(b, '.', restB);
    assert s[..|a|] == a && s[..|b|] == b && s[|a| + 1..] == restA && s[|b| + 1..] == restB;
  }

  lemma AfterPrefix(prefix: string, a: string, b: string)
    requires prefix + a == prefix + b
    ensures a == b
  {
    assert (prefix + a)[|prefix|..] == a && (prefix + b)[|prefix|..] == b;
  }

  /** Two records of one kind share an id exactly when their stamps and their safe proposal names agree. */
  lemma RecordIdEqual(prefix: string, p: string, q: string, nowP: string, nowQ: string, clockP: nat, clockQ: nat)
    ensures RecordId(prefix, p, nowP, clockP) == RecordId(prefix, q, nowQ, clockQ) <==>
      Stamp(nowP, clockP) == Stamp(nowQ, clockQ) && SafeProposal(p) == SafeProposal(q)
  {
    var a, b := Stamp(nowP, clockP), Stamp(nowQ, clockQ);
    var x, y := a + "." + SafeProposal(p), b + "." + SafeProposal(q);
    assert RecordId(prefix, p, nowP, clockP) == prefix + "." + x;
    assert RecordId(prefix, q, nowQ, clockQ) == prefix + "." + y;
    if prefix + "." + x == prefix + "." + y {
      AfterPrefix(prefix + ".", x, y);
      StampHasNoDot(nowP, clockP);
      StampHasNoDot(nowQ, clockQ);
      DotSplits(a, b, SafeProposal(p), SafeProposal(q));
    }
  }

  /** Full time stamps tell the records of a proposal apart exactly by their first fourteen digits: the seconds. */
  lemma RecordIdToTheSecond(prefix: string, p: string, now: string, later: string, digits: string, laterDigits: string,
    clock: nat, laterClock: nat)
    requires Picked(digits, (c: char) => '0' <= c <= '9', now) && |digits| >= 14
    requires Picked(laterDigits, (c: char) => '0' <= c <= '9', later) && |laterDigits| >= 14
    ensures RecordId(prefix, p, now, clock) == RecordId(prefix, p, later, laterClock) <==>
      digits[..14] == laterDigits[..14]
  {
    StampIsPrefix(now, clock, digits);
    StampIsPrefix(later, laterClock, laterDigits);
    RecordIdEqual(prefix, p, p, now, later, clock, laterClock);
  }

  // ---------- the two records of one write ----------

  /** What one call is given beside the proposal: confirmation, time stamp, clock, and the label of the authority. */
  datatype Occasion = Occasion(confirmationState: string, now: string, clock: nat, authorityLabel: string)

  /** `buildApprovalRecord` */
  function BuildApprovalRecord(p: Proposal, o: Occasion): ApprovalRecord
  {
    var id := RecordId("approval", p.id, o.now, o.clock);
    ApprovalRecord(id, o.now, "packet." + id, p.id, p.source, p.toolKind, p.actionType, p.authorityLevel,
      o.authorityLabel, o.confirmationState, p.expectedEffect, p.risk, p.rollbackReference,
      "audit.for." + id, "replay.for." + id)
  }

  /** `buildAuditRecord` */
  function BuildAuditRecord(p: Proposal, o: Occasion, approval: ApprovalRecord): AuditRecord
  {
    AuditRecord(RecordId("audit", p.id, o.now, o.clock), o.now, approval.id, p.id, p.source,
      p.toolKind + "." + p.actionType, p.authorityLevel, o.authorityLabel, p.expectedEffect, p.risk,
      p.rollbackReference, o.confirmationState, approval.replayReference)
  }

  /** The approval record tells all of the proposal and of the occasion, and refers to itself. */
  predicate Tells(a: ApprovalRecord, p: Proposal, o: Occasion)
  {
    && a.proposalId == p.id && a.source == p.source && a.toolKind == p.toolKind && a.actionType == p.actionType
    && a.authorityLevel == p.authorityLevel && a.expectedEffect == p.expectedEffect && a.risk == p.risk
    && a.rollbackReference == p.rollbackReference
    && a.createdAt == o.now && a.authorityLabel == o.authorityLabel && a.confirmationState == o.confirmationState
    && a.id == "approval." + Stamp(o.now, o.clock) + "." + SafeProposal(p.id)
    && a.packetId == "packet." + a.id && a.auditReference == "audit.for." + a.id
    && a.replayReference == "replay.for." + a.id
  }

  predicate AuditIdOf(b: AuditRecord, p: Proposal, o: Occasion)
  {
    b.id == "audit." + Stamp(o.now, o.clock) + "." + SafeProposal(p.id)
  }

  lemma BuiltTells(p: Proposal, o: Occasion)
    ensures var a := BuildApprovalRecord(p, o); Tells(a, p, o) && AuditIdOf(BuildAuditRecord(p, o, a), p, o)
  {
    assert "approval" + "." == "approval." && "audit" + "." == "audit.";
  }

  /** The audit record belongs to the approval record and tells the same story. */
  predicate Linked(a: ApprovalRecord, b: AuditRecord)
  {
    && b.approvalRecordId == a.id && b.proposalId == a.proposalId && b.createdAt == a.createdAt
    && b.rollbackReference == a.rollbackReference && b.replayReference == a.replayReference
    && b.source == a.source && b.authorityLevel == a.authorityLevel && b.authorityLabel == a.authorityLabel
    && b.expectedEffect == a.expectedEffect && b.risk == a.risk && b.userConfirmationState == a.confirmationState
    && b.requestedAction == a.toolKind + "." + a.actionType
    && a.id != "" && a.rollbackReference != ""
  }

  /** The logs agree line by line. */
  predicate Lockstep(approvals: seq<ApprovalRecord>, audits: seq<AuditRecord>)
  {
    |approvals| == |audits| && forall i :: 0 <= i < |approvals| ==> Linked(approvals[i], audits[i])
  }

  lemma BuiltLinked(p: Proposal, o: Occasion)
    requires Complete(p)
    ensures var a := BuildApprovalRecord(p, o); Linked(a, BuildAuditRecord(p, o, a))
  {
    assert RecordId("approval", p.id, o.now, o.clock)[0] == "approval"[0];
  }

  // ---------- replay ----------

  const REPLAY_LIMIT := 100

  datatype Replay = Replay(
    ready: bool, approval: Option<ApprovalRecord>, audit: Option<AuditRecord>, rollbackReference: Option<string>)

  /** A log, newest first, as far back as replay reads. */
  function Newest<R>(log: seq<R>): (r: seq<R>)
    ensures |r| == if |log| < 100 then |log| else 100
    ensures forall i :: 0 <= i < |r| ==> r[i] == log[|log| - 1 - i]
  {
    SliceFirst(Reverse(log), REPLAY_LIMIT)
  }

  predicate ById(recordId: Option<string>, a: ApprovalRecord)
  {
    recordId.Some? && recordId.value != "" ==> a.id == recordId.value
  }

  predicate Matches(a: ApprovalRecord, b: AuditRecord)
  {
    b.approvalRecordId == a.id || b.proposalId == a.proposalId
  }

  function ApprovalIndex(approvals: seq<ApprovalRecord>, recordId: Option<string>): nat
  {
    FindIndex((a: ApprovalRecord) => ById(recordId, a), Newest(approvals))
  }

  function AuditIndex(a: ApprovalRecord, audits: seq<AuditRecord>): nat
  {
    FindIndex((b: AuditRecord) => Matches(a, b), Newest(audits))
  }

  function Entry<R>(s: seq<R>, i: nat): Option<R>
  {
    if i < |s| then Some(s[i]) else None
  }

  /** The rollback reference shown: the approval's, or else the audit's. */
  function RollbackOf(approval: Option<ApprovalRecord>, audit: Option<AuditRecord>): Option<string>
  {
    if approval.Some? && approval.value.rollbackReference != "" then Some(approval.value.rollbackReference)
    else if audit.Some? && audit.value.rollbackReference != "" then Some(audit.value.rollbackReference)
    else None
  }

  /** What `buildApprovalAuditReplay` makes of the two logs. */
  function ReplayOf(approvals: seq<ApprovalRecord>, audits: seq<AuditRecord>, recordId: Option<string>): Replay
  {
    var approval := Entry(Newest(approvals), ApprovalIndex(approvals, recordId));
    var audit := Entry(Newest(audits), if approval.Some? then AuditIndex(approval.value, audits) else 0);
    Replay(approval.Some?, approval, audit, RollbackOf(approval, audit))
  }

  lemma NewestLinked(approvals: seq<ApprovalRecord>, audits: seq<AuditRecord>)
    requires Lockstep(approvals, audits)
    ensures |Newest(approvals)| == |Newest(audits)|
    ensures forall i :: 0 <= i < |Newest(approvals)| ==> Linked(Newest(approvals)[i], Newest(audits)[i])
  {
  }

  /** The audit found for a record is that of the newest approval for the same proposal. */
  lemma AuditOfProposal(approvals: seq<ApprovalRecord>, audits: seq<AuditRecord>, i: nat)
    requires Lockstep(approvals, audits) && i < |Newest(approvals)|
    requires forall k :: 0 <= k < i ==> Newest(approvals)[k].id != Newest(approvals)[i].id
    ensures var newest := Newest(approvals); var j := AuditIndex(newest[i], audits);
      && j <= i && newest[j].proposalId == newest[i].proposalId
      && (forall k :: 0 <= k < j ==> newest[k].proposalId != newest[i].proposalId)
  {
    var newest, newestAudits := Newest(approvals), Newest(audits);
    NewestLinked(approvals, audits);
    forall k | 0 <= k <= i
      ensures Matches(newest[i], newestAudits[k]) <==> newest[k].proposalId == newest[i].proposalId
    {
      assert Linked(newest[k], newestAudits[k]);
    }
    assert Matches(newest[i], newestAudits[i]);
  }

  /** The record asked for: any, when no id is given. */
  predicate Asked(recordId: Option<string>, a: ApprovalRecord)
  {
    recordId == None || recordId == Some("") || recordId == Some(a.id)
  }

  lemma FirstAsked(approvals: seq<ApprovalRecord>, recordId: Option<string>)
    ensures var newest, i := Newest(approvals), ApprovalIndex(approvals, recordId);
      && i <= |newest| && (i < |newest| ==> Asked(recordId, newest[i]))
      && (forall k :: 0 <= k < i ==> !Asked(recordId, newest[k]))
      && (i < |newest| ==> forall k :: 0 <= k < i ==> newest[k].id != newest[i].id)
  {
    assert forall a :: ById(recordId, a) <==> Asked(recordId, a);
  }

  /**
   Replay finds the newest record asked for exactly when there is one among the newest hundred. The audit
   it returns is that of the newest approval for the same proposal: never an older one, and the record's own
   exactly when no newer approval is for its proposal.
   */
  lemma ReplayLinks(approvals: seq<ApprovalRecord>, audits: seq<AuditRecord>, recordId: Option<string>)
    requires Lockstep(approvals, audits)
    ensures var replay, newest := ReplayOf(approvals, audits, recordId), Newest(approvals);
      && (replay.ready <==> exists i :: 0 <= i < |newest| && Asked(recordId, newest[i]))
      && (replay.ready ==>
            exists i, j ::
              && 0 <= j <= i < |newest| && Asked(recordId, newest[i])
              && (forall k :: 0 <= k < i ==> !Asked(recordId, newest[k]))
              && newest[j].proposalId == newest[i].proposalId
              && (forall k :: 0 <= k < j ==> newest[k].proposalId != newest[i].proposalId)
              && replay == Replay(true, Some(newest[i]), Some(Newest(audits)[j]), Some(newest[i].rollbackReference))
              && Linked(newest[j], Newest(audits)[j]))
  {
    var newest, i := Newest(approvals), ApprovalIndex(approvals, recordId);
    FirstAsked(approvals, recordId);
    NewestLinked(approvals, audits);
    if i < |newest| {
      AuditOfProposal(approvals, audits, i);
      var j := AuditIndex(newest[i], audits);
      assert Linked(newest[j], Newest(audits)[j]) && Linked(newest[i], Newest(audits)[i]);
    }
  }

  /** If replay finds no record, it still shows the newest audit and how to roll that back. */
  lemma ReplayOfNothing(approvals: seq<ApprovalRecord>, audits: seq<AuditRecord>, recordId: Option<string>)
    requires Lockstep(approvals, audits) && !ReplayOf(approvals, audits, recordId).ready
    ensures var replay, n := ReplayOf(approvals, audits, recordId), |audits|;
      && replay.approval == None
      && replay.audit == (if n == 0 then None else Some(audits[n - 1]))
      && replay.rollbackReference == (if n == 0 then None else Some(audits[n - 1].rollbackReference))
  {
    var n := |audits|;
    assert n > 0 ==> Linked(approvals[n - 1], audits[n - 1]);
  }

  /** Replaying right after a write returns exactly the two records just written. */
  lemma ReplayJustWritten(
    approvals: seq<ApprovalRecord>, audits: seq<AuditRecord>, a: ApprovalRecord, b: AuditRecord)
    requires Lockstep(approvals, audits) && Linked(a, b)
    ensures ReplayOf(approvals + [a], audits + [b], Some(a.id))
         == Replay(true, Some(a), Some(b), Some(a.rollbackReference))
  {
    NewestAfter(approvals, a);
    NewestAfter(audits, b);
  }

  lemma NewestAfter<R>(log: seq<R>, r: R)
    ensures Newest(log + [r]) != [] && Newest(log + [r])[0] == r
  {
  }

  /** A later write for the same proposal takes over the replay of an earlier one. */
  lemma ReplayTakenOver(first: Occasion, second: Occasion, p: Proposal)
    requires Complete(p)
    requires Stamp(first.now, first.clock) != Stamp(second.now, second.clock)
    ensures var a1, a2 := BuildApprovalRecord(p, first), BuildApprovalRecord(p, second);
      var b1, b2 := BuildAuditRecord(p, first, a1), BuildAuditRecord(p, second, a2);
      Lockstep([a1, a2], [b1, b2]) && a1.id != a2.id
      && ReplayOf([a1, a2], [b1, b2], Some(a1.id)).approval == Some(a1)
      && ReplayOf([a1, a2], [b1, b2], Some(a1.id)).audit == Some(b2)
  {
    var a1, a2 := BuildApprovalRecord(p, first), BuildApprovalRecord(p, second);
    var b1, b2 := BuildAuditRecord(p, first, a1), BuildAuditRecord(p, second, a2);
    BuiltLinked(p, first);
    BuiltLinked(p, second);
    RecordIdEqual("approval", p.id, p.id, first.now, second.now, first.clock, second.clock);
    NewestOfTwo(a1, a2);
    NewestOfTwo(b1, b2);
    var replay := ReplayOf([a1, a2], [b1, b2], Some(a1.id));
    assert !ById(Some(a1.id), a2) && ById(Some(a1.id), a1);
    assert ApprovalIndex([a1, a2], Some(a1.id)) == 1;
    assert Matches(a1, b2);
    assert AuditIndex(a1, [b1, b2]) == 0;
  }

  lemma NewestOfTwo<R>(x: R, y: R)
    ensures Newest([x, y]) == [y, x]
  {
    assert Reverse([x, y]) == [y, x];
  }

  // ---------- the store ----------

  datatype WriteResult =
    | WriteBlocked(findings: seq<Finding>)
    | Written(approval: ApprovalRecord, audit: AuditRecord, replay: Replay)

  /** The two log files under the runtime root. */
  class ApprovalAuditStore {
    const approvals: JsonlFile<ApprovalRecord>
    const audits: JsonlFile<AuditRecord>

    ghost predicate Valid()
      reads this, approvals, audits
    {
      approvals.Valid() && audits.Valid() && Lockstep(approvals.records, audits.records)
    }

    constructor (approvalCodec: Codec<ApprovalRecord>, auditCodec: Codec<AuditRecord>)
      requires Lawful(approvalCodec) && Lawful(auditCodec)
      ensures Valid() && approvals.records == [] && audits.records == []
      ensures fresh(approvals) && fresh(audits)
    {
      approvals := new JsonlFile<ApprovalRecord>(approvalCodec);
      audits := new JsonlFile<AuditRecord>(auditCodec);
    }

    /**
     `writeApprovalAuditLocalRecords`: both logs grow by one linked pair, or neither changes; and the
     replay handed back is of that very pair.
     */
    method WriteRecords(p: Proposal, o: Occasion) returns (r: WriteResult)
      requires Valid()
      modifies approvals, audits
      ensures Valid()
      ensures r.WriteBlocked? <==> Findings(p, o.confirmationState) != []
      ensures r.WriteBlocked? ==>
        && r.findings == Findings(p, o.confirmationState)
        && approvals.records == old(approvals.records) && audits.records == old(audits.records)
      ensures r.Written? ==>
        && r.approval == BuildApprovalRecord(p, o) && r.audit == BuildAuditRecord(p, o, r.approval)
        && Tells(r.approval, p, o) && AuditIdOf(r.audit, p, o) && Linked(r.approval, r.audit)
        && approvals.records == old(approvals.records) + [r.approval]
        && audits.records == old(audits.records) + [r.audit]
        && r.replay == Replay(true, Some(r.approval), Some(r.audit), Some(p.rollbackReference))
    {
      var findings := Findings(p, o.confirmationState);
      if findings != [] {
        return WriteBlocked(findings);
      }
      NoFindingsIff(p, o.confirmationState);
      BuiltLinked(p, o);
      BuiltTells(p, o);
      var approval := BuildApprovalRecord(p, o);
      var audit := BuildAuditRecord(p, o, approval);
      var replay := AppendPair(approval, audit);
      r := Written(approval, audit, replay);
    }

    /** The two appends of a write, and the replay of what they wrote. */
    method AppendPair(approval: ApprovalRecord, audit: AuditRecord) returns (replay: Replay)
      requires Valid() && Linked(approval, audit)
      modifies approvals, audits
      ensures Valid()
      ensures approvals.records == old(approvals.records) + [approval]
      ensures audits.records == old(audits.records) + [audit]
      ensures replay == Replay(true, Some(approval), Some(audit), Some(approval.rollbackReference))
    {
      approvals.Append(approval);
      audits.Append(audit);
      replay := BuildReplay(Some(approval.id));
      ReplayJustWritten(old(approvals.records), old(audits.records), approval, audit);
    }

    /** `buildApprovalAuditReplay` */
    method BuildReplay(recordId: Option<string>) returns (r: Replay)
      requires Valid()
      ensures r == ReplayOf(approvals.records, audits.records, recordId)
    {
      var approvalRecords := approvals.ReadNewest(REPLAY_LIMIT);
      var auditRecords := audits.ReadNewest(REPLAY_LIMIT);
      var i := FindIndex((a: ApprovalRecord) => ById(recordId, a), approvalRecords);
      var approval := Entry(approvalRecords, i);
      var audit := if approval.None? then Entry(auditRecords, 0)
                   else Entry(auditRecords, FindIndex((b: AuditRecord) => Matches(approval.value, b), auditRecords));
      r := Replay(approval.Some?, approval, audit, RollbackOf(approval, audit));
    }
  }
}
