/** The two writers of the progress log: live turns through the absorption bridge, and dry runs. */
module LiveRuntime {
  import opened Prelude
  import opened Jsonl
  import opened ProgressLog
  import opened RunStatuses
  import Text

  // ---------- live turns ----------

  const RUN_BLOCKED := "blocked"
  const RUN_WAITING := "preflight_ready_waiting_for_answer"
  const RUN_RECORDED := "post_answer_growth_recorded"

  datatype Run = Run(runId: string, sessionKey: string, status: string, progressEvents: seq<Event>)

  /** The bridge writes no run of any other status. */
  const RUN_STATUSES: seq<string> := [RUN_RECORDED, RUN_WAITING, RUN_BLOCKED]

  function StatusOf(run: Run): string
  {
    run.status
  }

  predicate KnownStatuses(runs: seq<Run>)
  {
    forall i :: 0 <= i < |runs| ==> runs[i].status in RUN_STATUSES
  }

  datatype Summary = Summary(
    review: bool, totalRuns: nat, postAnswerGrowthRecorded: nat, waitingForAnswer: nat, blockedRuns: nat)

  /** The three statuses account for every run. */
  lemma StatusesAddUp(statuses: seq<string>)
    requires forall i :: 0 <= i < |statuses| ==> statuses[i] in RUN_STATUSES
    ensures CountOf(RUN_RECORDED, statuses) + CountOf(RUN_WAITING, statuses) + CountOf(RUN_BLOCKED, statuses) == |statuses|
  {
    assert RUN_BLOCKED[0] == 'b' && RUN_WAITING[1] == 'r' && RUN_RECORDED[1] == 'o' && RUN_BLOCKED[1] == 'l';
    CountersAddUp(RUN_STATUSES, statuses);
    assert RUN_STATUSES[1..] == [RUN_WAITING, RUN_BLOCKED];
    assert RUN_STATUSES[1..][1..] == [RUN_BLOCKED];
    assert Total([RUN_BLOCKED], statuses) == CountOf(RUN_BLOCKED, statuses) + Total([], statuses);
  }

  /**
   The events of a turn: without a message it is blocked; otherwise it completes, after a draft, or after
   verification and a growth review when there is an answer.
   */
  function TurnEvents(text: string, answer: string, runId: string, sessionKey: string): seq<Event>
  {
    [Event(ContextRetrieval, runId, sessionKey, None)]
    + if text == "" then [Event(BlockedTurn, runId, sessionKey, None)] else AbsorbEvents(answer != "", runId, sessionKey)
  }

  function AbsorbEvents(answered: bool, runId: string, sessionKey: string): seq<Event>
  {
    WorkEvents(answered, runId, sessionKey) + [Event(Complete, runId, sessionKey, None)]
  }

  function WorkEvents(answered: bool, runId: string, sessionKey: string): seq<Event>
  {
    if answered then [Event(Verifying, runId, sessionKey, None), Event(SelfGrowthReview, runId, sessionKey, None)]
    else [Event(Drafting, runId, sessionKey, None)]
  }

  /** The phases of a turn, all of one run. */
  predicate TurnOf(events: seq<Event>, phases: seq<Phase>, runId: string, sessionKey: string)
  {
    |events| == |phases| && forall i :: 0 <= i < |events| ==> events[i] == Event(phases[i], runId, sessionKey, None)
  }

  /** What a turn reports: nothing but its start when it has no message, no review when it has no answer. */
  lemma TurnPhases(text: string, answer: string, runId: string, sessionKey: string)
    ensures TurnOf(TurnEvents(text, answer, runId, sessionKey),
      if text == "" then [ContextRetrieval, BlockedTurn]
      else if answer == "" then [ContextRetrieval, Drafting, Complete]
      else [ContextRetrieval, Verifying, SelfGrowthReview, Complete],
      runId, sessionKey)
  {
  }

  // ---------- dry runs ----------

  /** The names an object literal inherits: looking them up finds something that is no command. */
  const INHERITED_NAMES: set<string> := {
    "constructor", "toString", "toLocaleString", "valueOf", "hasOwnProperty", "isPrototypeOf",
    "propertyIsEnumerable", "__proto__", "__defineGetter__", "__defineSetter__", "__lookupGetter__",
    "__lookupSetter__"}

  datatype Command = Command(title: string, recursiveSurface: bool)

  const SAFE_DRY_RUN_COMMANDS: map<string, Command> := map[
    "model-invocation-check" := Command("Model invocation check", false),
    "work-surface-check" := Command("Work Surface check", true),
    "stage-4-production-hardening-check" := Command("Stage 4 production hardening check", false)]

  datatype CommandSpec = Listed(command: Command) | Inherited

  /** `SAFE_DRY_RUN_COMMANDS[commandId]` */
  function Lookup(commandId: string): Option<CommandSpec>
  {
    if commandId in SAFE_DRY_RUN_COMMANDS then Some(Listed(SAFE_DRY_RUN_COMMANDS[commandId]))
    else if commandId in INHERITED_NAMES then Some(Inherited)
    else None
  }

  /** The name the events of a command carry. */
  function ToolName(commandId: string): string
  {
    match Lookup(commandId)
    case Some(Listed(command)) => command.title
    case _ => commandId
  }

  /** The events of a command that starts: it runs, then completes or fails. */
  function ToolRun(commandId: string, runId: string, sessionKey: string, succeeds: bool): seq<Event>
  {
    [Event(ToolRunning, runId, sessionKey, Some(ToolName(commandId))),
     Event(if succeeds then ToolComplete else ToolError, runId, sessionKey, Some(ToolName(commandId)))]
  }

  datatype Approval = Approval(
    confirmed: Option<bool>, commandId: Option<string>, authorityTier: Option<string>,
    allowMutation: Option<bool>, allowRecursiveSurface: Option<bool>)

  datatype ApprovalFinding =
    | UnknownCommand | ConfirmationMissing | CommandScopeMismatch | AuthorityTierNotDryRun | MutationNotBlocked

  /** `verifyExecutionRuntimeApproval` */
  function ApprovalFindings(commandId: string, a: Approval): seq<ApprovalFinding>
  {
    (if Lookup(commandId).None? then [UnknownCommand] else [])
    + (if a.confirmed != Some(true) then [ConfirmationMissing] else [])
    + (if a.commandId != Some(commandId) then [CommandScopeMismatch] else [])
    + (if a.authorityTier != Some("dry_run") then [AuthorityTierNotDryRun] else [])
    + (if a.allowMutation != Some(false) then [MutationNotBlocked] else [])
  }

  /** A listed command, approved by name, for a dry run, without mutation, and for its surface if it recurses. */
  predicate Cleared(commandId: string, a: Approval)
  {
    && commandId in SAFE_DRY_RUN_COMMANDS
    && a.confirmed == Some(true) && a.commandId == Some(commandId)
    && a.authorityTier == Some("dry_run") && a.allowMutation == Some(false)
    && (SAFE_DRY_RUN_COMMANDS[commandId].recursiveSurface ==> a.allowRecursiveSurface == Some(true))
  }

  /** Which commands there are, and which of them needs its surface allowed. */
  lemma ClearedIff(commandId: string, a: Approval)
    ensures Cleared(commandId, a) <==>
      && commandId in {"model-invocation-check", "work-surface-check", "stage-4-production-hardening-check"}
      && a.confirmed == Some(true) && a.commandId == Some(commandId)
      && a.authorityTier == Some("dry_run") && a.allowMutation == Some(false)
      && (commandId == "work-surface-check" ==> a.allowRecursiveSurface == Some(true))
    ensures ToolName("model-invocation-check") == "Model invocation check"
    ensures ToolName("work-surface-check") == "Work Surface check"
    ensures ToolName("stage-4-production-hardening-check") == "Stage 4 production hardening check"
    ensures commandId !in {"model-invocation-check", "work-surface-check", "stage-4-production-hardening-check"} ==>
      ToolName(commandId) == commandId
  {
    assert "model-invocation-check"[0] == 'm' && "work-surface-check"[0] == 'w';
    assert "stage-4-production-hardening-check"[0] == 's';
  }

  /** The names that are no command and yet are found: those every object inherits. */
  lemma InheritedIff(commandId: string)
    ensures Lookup(commandId) == Some(Inherited) <==>
      commandId in {"constructor", "toString", "toLocaleString", "valueOf", "hasOwnProperty", "isPrototypeOf",
        "propertyIsEnumerable", "__proto__", "__defineGetter__", "__defineSetter__", "__lookupGetter__",
        "__lookupSetter__"}
  {
    if commandId in SAFE_DRY_RUN_COMMANDS {
      assert commandId[0] in {'m', 'w', 's'};
      assert forall name :: name in INHERITED_NAMES ==> name[0] !in {'m', 'w', 's'};
    }
  }

  /** Each finding of the approval check is reported exactly when its part of the approval is wrong. */
  lemma ApprovalFindingsIff(commandId: string, a: Approval)
    ensures var findings := ApprovalFindings(commandId, a);
      && (UnknownCommand in findings <==> Lookup(commandId) == None)
      && (ConfirmationMissing in findings <==> a.confirmed != Some(true))
      && (CommandScopeMismatch in findings <==> a.commandId != Some(commandId))
      && (AuthorityTierNotDryRun in findings <==> a.authorityTier != Some("dry_run"))
      && (MutationNotBlocked in findings <==> a.allowMutation != Some(false))
  {
  }

  lemma ApprovalReadyIff(commandId: string, a: Approval)
    ensures ApprovalFindings(commandId, a) == [] <==>
      && Lookup(commandId).Some?
      && a.confirmed == Some(true) && a.commandId == Some(commandId)
      && a.authorityTier == Some("dry_run") && a.allowMutation == Some(false)
  {
  }

  /** `Threw` is the error of rendering the command line of an inherited name. */
  datatype DryRunResult =
    | Threw
    | DryRunBlocked(findings: seq<ApprovalFinding>)
    | RecursionBlocked
    | CompletedDryRun
    | FailedDryRun

  function CountPhase(phase: Phase, log: seq<Event>): nat
  {
    if log == [] then 0
    else CountPhase(phase, log[..|log| - 1]) + if log[|log| - 1].phase == phase then 1 else 0
  }

  /** Every dry run that started has ended, one way or the other. */
  predicate Balanced(log: seq<Event>)
  {
    CountPhase(ToolRunning, log) == CountPhase(ToolComplete, log) + CountPhase(ToolError, log)
  }

  lemma CountNext(log: seq<Event>, e: Event)
    ensures forall phase :: CountPhase(phase, log + [e]) == CountPhase(phase, log) + if e.phase == phase then 1 else 0
  {
    assert (log + [e])[..|log|] == log;
  }

  lemma BalancedAppendQuiet(log: seq<Event>, e: Event)
    requires Balanced(log) && e.phase !in {ToolRunning, ToolComplete, ToolError}
    ensures Balanced(log + [e])
  {
    CountNext(log, e);
  }

  lemma BalancedAppendPair(log: seq<Event>, start: Event, end: Event)
    requires Balanced(log) && start.phase == ToolRunning && end.phase in {ToolComplete, ToolError}
    ensures Balanced(log + [start] + [end])
  {
    CountNext(log, start);
    CountNext(log + [start], end);
  }

  /** The approval on which a command started. */
  datatype Clearance = Clearance(commandId: string, approval: Approval) {

    /** It clears the command, and the event reports that command. */
    predicate Clears(e: Event)
    {
      Cleared(commandId, approval) && e.toolName == Some(ToolName(commandId))
    }
  }

  /** Each start in the log has its own clearance, in the same order. */
  predicate StartsCleared(log: seq<Event>, clearances: seq<Clearance>)
  {
    if log == [] then clearances == []
    else
      var n, c := |log| - 1, |clearances| - 1;
      if log[n].phase == ToolRunning then
        c >= 0 && clearances[c].Clears(log[n]) && StartsCleared(log[..n], clearances[..c])
      else StartsCleared(log[..n], clearances)
  }

  lemma StartsClearedNext(log: seq<Event>, clearances: seq<Clearance>, e: Event)
    requires StartsCleared(log, clearances) && e.phase != ToolRunning
    ensures StartsCleared(log + [e], clearances)
  {
    assert (log + [e])[..|log|] == log;
  }

  lemma StartsClearedStart(log: seq<Event>, clearances: seq<Clearance>, e: Event, clearance: Clearance)
    requires StartsCleared(log, clearances) && e.phase == ToolRunning && clearance.Clears(e)
    ensures StartsCleared(log + [e], clearances + [clearance])
  {
    assert (log + [e])[..|log|] == log && (clearances + [clearance])[..|clearances|] == clearances;
  }

  /** The k-th start of the log is that of a listed command, cleared by the k-th approval. */
  lemma {:induction false} StartHasClearance(log: seq<Event>, clearances: seq<Clearance>, i: nat)
    requires StartsCleared(log, clearances) && i < |log| && log[i].phase == ToolRunning
    ensures var k := CountPhase(ToolRunning, log[..i]); k < |clearances| && clearances[k].Clears(log[i])
    decreases |log|
  {
    var n := |log| - 1;
    if i < n {
      assert log[..n][..i] == log[..i];
      StartHasClearance(log[..n], if log[n].phase == ToolRunning then clearances[..|clearances| - 1] else clearances, i);
    } else {
      StartsCounted(log[..n], clearances[..|clearances| - 1]);
    }
  }

  lemma {:induction false} StartsCounted(log: seq<Event>, clearances: seq<Clearance>)
    requires StartsCleared(log, clearances)
    ensures CountPhase(ToolRunning, log) == |clearances|
    decreases |log|
  {
    if log != [] {
      var n := |log| - 1;
      StartsCounted(log[..n], if log[n].phase == ToolRunning then clearances[..|clearances| - 1] else clearances);
    }
  }

  /** A start with its clearance and its end keep what the runtime keeps of its log. */
  lemma ToolRunKeeps(log: seq<Event>, clearances: seq<Clearance>, start: Event, end: Event, clearance: Clearance)
    requires Paced(log) && Balanced(log) && StartsCleared(log, clearances)
    requires start.phase == ToolRunning && end.phase in {ToolComplete, ToolError} && start.runId == end.runId
    requires clearance.Clears(start)
    ensures var after := log + [start] + [end];
      Paced(after) && Balanced(after) && StartsCleared(after, clearances + [clearance])
  {
    PacedNext(log, start);
    PacedNext(log + [start], end);
    BalancedAppendPair(log, start, end);
    StartsClearedStart(log, clearances, start, clearance);
    StartsClearedNext(log + [start], clearances + [clearance], end);
  }

  // ---------- the runtime ----------

  class LiveRuntime {
    const progress: JsonlFile<Event>
    const runs: JsonlFile<Run>
    ghost var clearances: seq<Clearance>

    /** What every sequence of turns and dry runs keeps. */
    ghost predicate Valid()
      reads this, progress, runs
    {
      && progress.Valid() && runs.Valid()
      && Paced(progress.records) && Balanced(progress.records) && KnownStatuses(runs.records)
      && StartsCleared(progress.records, clearances)
    }

    constructor (progressCodec: Codec<Event>, runCodec: Codec<Run>)
      requires Lawful(progressCodec) && Lawful(runCodec)
      ensures Valid() && progress.records == [] && runs.records == [] && clearances == []
      ensures fresh(progress) && fresh(runs)
    {
      progress := new JsonlFile<Event>(progressCodec);
      runs := new JsonlFile<Run>(runCodec);
      clearances := [];
    }

    /**
     `runLiveTurnAbsorptionBridge`: the events of a turn, in order, and the run that lists them. A turn
     without a message is blocked; one without an answer waits for it.
     */
    method RunTurn(message: string, answerText: string, runId: string, sessionKey: string) returns (run: Run)
      requires Valid()
      modifies progress, runs
      ensures Valid()
      ensures run.runId == runId && run.sessionKey == sessionKey
      ensures runs.records == old(runs.records) + [run]
      ensures progress.records == old(progress.records) + run.progressEvents
      ensures run.progressEvents == TurnEvents(Text.Trim(message), Text.Trim(answerText), runId, sessionKey)
      ensures TurnOf(run.progressEvents,
        if Text.Trim(message) == "" then [ContextRetrieval, BlockedTurn]
        else if Text.Trim(answerText) == "" then [ContextRetrieval, Drafting, Complete]
        else [ContextRetrieval, Verifying, SelfGrowthReview, Complete],
        runId, sessionKey)
      ensures run.status ==
        if Text.Trim(message) == "" then RUN_BLOCKED
        else if Text.Trim(answerText) == "" then RUN_WAITING
        else RUN_RECORDED
    {
      var text, answer := Text.Trim(message), Text.Trim(answerText);
      TurnPhases(text, answer, runId, sessionKey);
      var progressEvents := AppendTurnEvents(text, answer, runId, sessionKey);
      run := AppendRun(Run(runId, sessionKey,
        if text == "" then RUN_BLOCKED else if answer != "" then RUN_RECORDED else RUN_WAITING, progressEvents));
    }

    /** The events of a turn, in the order they are appended. */
    method AppendTurnEvents(text: string, answer: string, runId: string, sessionKey: string)
      returns (events: seq<Event>)
      requires Valid()
      modifies progress
      ensures Valid()
      ensures events == TurnEvents(text, answer, runId, sessionKey)
      ensures progress.records == old(progress.records) + events
    {
      ghost var before := progress.records;
      var opening := AppendProgress(ContextRetrieval, runId, sessionKey);
      var rest: seq<Event>;
      if text == "" {
        var blocked := AppendProgress(BlockedTurn, runId, sessionKey);
        rest := [blocked];
      } else {
        rest := AbsorbMessage(answer != "", runId, sessionKey);
      }
      assert progress.records == before + [opening] + rest == before + ([opening] + rest);
      events := [opening] + rest;
    }

    /** `appendLiveTurnAbsorptionRun` */
    method AppendRun(record: Run) returns (run: Run)
      requires Valid() && record.status in RUN_STATUSES
      modifies runs
      ensures Valid()
      ensures run == record && runs.records == old(runs.records) + [run]
    {
      runs.Append(record);
      run := record;
    }

    /** The events of a turn that has a message, after its first. */
    method AbsorbMessage(answered: bool, runId: string, sessionKey: string) returns (events: seq<Event>)
      requires Valid()
      modifies progress
      ensures Valid()
      ensures events == AbsorbEvents(answered, runId, sessionKey)
      ensures progress.records == old(progress.records) + events
    {
      ghost var before := progress.records;
      var work := AppendWork(answered, runId, sessionKey);
      var last := AppendProgress(Complete, runId, sessionKey);
      assert before + work + [last] == before + (work + [last]);
      events := work + [last];
    }

    /** The signs of work of a turn that has a message. */
    method AppendWork(answered: bool, runId: string, sessionKey: string) returns (events: seq<Event>)
      requires Valid()
      modifies progress
      ensures Valid()
      ensures events == WorkEvents(answered, runId, sessionKey)
      ensures progress.records == old(progress.records) + events && EndsMid(progress.records, runId)
    {
      ghost var before := progress.records;
      var first := AppendProgress(if answered then Verifying else Drafting, runId, sessionKey);
      events := [first];
      if answered {
        var review := AppendProgress(SelfGrowthReview, runId, sessionKey);
        assert before + [first] + [review] == before + [first, review];
        events := [first, review];
      }
    }

    /** `appendConversationProgressEvent`; a completion must follow a sign of work of its own run. */
    method AppendProgress(phase: Phase, runId: string, sessionKey: string) returns (event: Event)
      requires Valid()
      requires phase in {ContextRetrieval, BlockedTurn, Drafting, Verifying, SelfGrowthReview, Complete}
      requires phase == Complete ==> EndsMid(progress.records, runId)
      modifies progress
      ensures Valid()
      ensures event == Event(phase, runId, sessionKey, None)
      ensures progress.records == old(progress.records) + [event]
      ensures phase != Complete && phase != ContextRetrieval ==> EndsMid(progress.records, runId)
    {
      event := Event(phase, runId, sessionKey, None);
      PacedNext(progress.records, event);
      BalancedAppendQuiet(progress.records, event);
      StartsClearedNext(progress.records, clearances, event);
      progress.Append(event);
    }

    /**
     `invokeExecutionRuntimeDryRun`, for a subprocess that succeeds or fails: only a cleared command
     ever starts, and what starts ends at once.
     */
    method InvokeDryRun(commandId: string, approval: Approval, runId: string, sessionKey: string, succeeds: bool)
      returns (r: DryRunResult, ghost events: seq<Event>)
      requires Valid()
      modifies progress, this`clearances
      ensures Valid()
      ensures progress.records == old(progress.records) + events
      ensures clearances == old(clearances) + if Cleared(commandId, approval) then [Clearance(commandId, approval)] else []
      ensures r.Threw? <==> Lookup(commandId) == Some(Inherited)
      ensures r.CompletedDryRun? || r.FailedDryRun? <==> Cleared(commandId, approval)
      ensures r.CompletedDryRun? <==> Cleared(commandId, approval) && succeeds
      ensures events == match r
        case Threw => []
        case DryRunBlocked(_) => [Event(ToolBlocked, runId, sessionKey, Some(ToolName(commandId)))]
        case RecursionBlocked => [Event(ToolBlocked, runId, sessionKey, Some(ToolName(commandId)))]
        case CompletedDryRun => ToolRun(commandId, runId, sessionKey, true)
        case FailedDryRun => ToolRun(commandId, runId, sessionKey, false)
      ensures r.DryRunBlocked? <==> !r.Threw? && ApprovalFindings(commandId, approval) != []
      ensures r.DryRunBlocked? ==> r.findings == ApprovalFindings(commandId, approval)
    {
      var commandSpec := Lookup(commandId);
      var findings := ApprovalFindings(commandId, approval);
      ApprovalReadyIff(commandId, approval);
      events := [];
      if commandSpec == None {
        events := AppendBlocked(ToolName(commandId), runId, sessionKey);
        return DryRunBlocked(findings), events;
      }
      if commandSpec.value == Inherited {
        return Threw, events;
      }
      if findings != [] {
        events := AppendBlocked(ToolName(commandId), runId, sessionKey);
        return DryRunBlocked(findings), events;
      }
      if commandSpec.value.command.recursiveSurface && approval.allowRecursiveSurface != Some(true) {
        events := AppendBlocked(ToolName(commandId), runId, sessionKey);
        return RecursionBlocked, events;
      }
      events := AppendToolRun(commandId, approval, runId, sessionKey, succeeds);
      r := if succeeds then CompletedDryRun else FailedDryRun;
    }

    /** The two events around the subprocess, whose outcome decides the second. */
    method AppendToolRun(
      commandId: string, ghost approval: Approval, runId: string, sessionKey: string, succeeds: bool)
      returns (ghost events: seq<Event>)
      requires Valid() && Cleared(commandId, approval)
      modifies progress, this`clearances
      ensures Valid()
      ensures clearances == old(clearances) + [Clearance(commandId, approval)]
      ensures events == ToolRun(commandId, runId, sessionKey, succeeds)
      ensures progress.records == old(progress.records) + events
    {
      var started := Event(ToolRunning, runId, sessionKey, Some(ToolName(commandId)));
      var ended := Event(if succeeds then ToolComplete else ToolError, runId, sessionKey, Some(ToolName(commandId)));
      ghost var clearance := Clearance(commandId, approval);
      ToolRunKeeps(progress.records, clearances, started, ended, clearance);
      progress.Append(started);
      progress.Append(ended);
      clearances := clearances + [clearance];
      events := [started, ended];
    }

    method AppendBlocked(toolName: string, runId: string, sessionKey: string) returns (ghost events: seq<Event>)
      requires Valid()
      modifies progress
      ensures Valid()
      ensures events == [Event(ToolBlocked, runId, sessionKey, Some(toolName))]
      ensures progress.records == old(progress.records) + events
    {
      var event := Event(ToolBlocked, runId, sessionKey, Some(toolName));
      PacedNext(progress.records, event);
      BalancedAppendQuiet(progress.records, event);
      StartsClearedNext(progress.records, clearances, event);
      progress.Append(event);
      events := [event];
    }

    /** `readConversationProgressEvents` */
    method ReadProgress(limit: int, q: Query) returns (events: seq<Event>)
      requires Valid()
      ensures events == ReadWindow(progress.records, limit, q)
    {
      var raw := progress.ReadLast(RawLimit(limit));
      events := SliceLast(Filter((e: Event) => ProgressLog.Matches(q, e), raw), limit);
    }

    /**
     `buildConversationProgressLane`, after any number of turns and dry runs: the lane asks for review
     exactly when the log ends with a blocked turn, and reports work before completion exactly when its
     window shows a completion and does not begin with one.
     */
    method BuildLane(limit: int) returns (events: seq<Event>, review: bool, hasMidProgress: bool)
      requires Valid() && limit > 0
      ensures |events| == if |progress.records| < limit then |progress.records| else limit
      ensures events == progress.records[|progress.records| - |events|..]
      ensures review <==> progress.records != [] && progress.records[|progress.records| - 1].phase == BlockedTurn
      ensures hasMidProgress <==> CompletesLater(events)
    {
      events := ReadProgress(limit, Query(None, None));
      UnfilteredWindow(progress.records, limit);
      SliceLastLaw(progress.records, limit);
      LaneMidProgress(progress.records, limit);
      review := events != [] && events[|events| - 1].phase == BlockedTurn;
      hasMidProgress := HasMidProgressBeforeComplete(events);
    }

    /** `buildLiveTurnAbsorptionSummary`: the three counters account for every run read. */
    method BuildSummary() returns (s: Summary)
      requires Valid()
      ensures var statuses := Map(StatusOf, SliceLast(runs.records, 500));
        && s == Summary(RUN_BLOCKED in statuses, |statuses|, CountOf(RUN_RECORDED, statuses),
                  CountOf(RUN_WAITING, statuses), CountOf(RUN_BLOCKED, statuses))
        && s.postAnswerGrowthRecorded + s.waitingForAnswer + s.blockedRuns == s.totalRuns
    {
      var read := runs.ReadLast(500);
      var statuses := Map(StatusOf, read);
      assert forall i :: 0 <= i < |read| ==> read[i] in runs.records;
      StatusesAddUp(statuses);
      CountPositive(RUN_BLOCKED, statuses);
      var blocked := CountOf(RUN_BLOCKED, statuses);
      s := Summary(blocked > 0, |read|, CountOf(RUN_RECORDED, statuses), CountOf(RUN_WAITING, statuses), blocked);
    }
  }
}
