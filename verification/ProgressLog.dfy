/**
 The progress events a conversation leaves behind, as the readers see them: windows and filters of one
 append-only log that live turns and dry runs share.
 */
module ProgressLog {
  import opened Prelude

  datatype Phase =
    | ContextRetrieval | Drafting | Verifying | SelfGrowthReview | Complete | BlockedTurn
    | ToolRunning | ToolComplete | ToolError | ToolBlocked

  datatype Event = Event(phase: Phase, runId: string, sessionKey: string, toolName: Option<string>)

  predicate IsCompletion(e: Event)
  {
    e.phase == Complete || e.phase == ToolComplete
  }

  /** A sign of work between the start and the end of a run. */
  predicate IsMid(e: Event)
  {
    e.phase != ContextRetrieval && !IsCompletion(e)
  }

  // ---------- the pace of a log ----------

  /** The last event is a sign of work of the run. */
  predicate EndsMid(log: seq<Event>, runId: string)
  {
    log != [] && IsMid(log[|log| - 1]) && log[|log| - 1].runId == runId
  }

  /** Every completion directly follows a sign of work of its own run. */
  predicate Paced(log: seq<Event>)
  {
    log == [] ||
    var n := |log| - 1;
    Paced(log[..n]) && (IsCompletion(log[n]) ==> EndsMid(log[..n], log[n].runId))
  }

  lemma {:induction false} PacedAt(log: seq<Event>, i: nat)
    requires Paced(log) && i < |log| && IsCompletion(log[i])
    ensures i > 0 && IsMid(log[i - 1]) && log[i - 1].runId == log[i].runId
    decreases |log|
  {
    if i < |log| - 1 {
      PacedAt(log[..|log| - 1], i);
    }
  }

  lemma PacedNext(log: seq<Event>, e: Event)
    requires Paced(log) && (IsCompletion(e) ==> EndsMid(log, e.runId))
    ensures Paced(log + [e])
  {
    assert (log + [e])[..|log|] == log;
  }

  /** `hasMidProgressBeforeComplete` */
  predicate HasMidProgressBeforeComplete(events: seq<Event>)
  {
    var completeIndex := FindIndex(IsCompletion, events);
    0 < completeIndex < |events| && FindIndex(IsMid, events[..completeIndex]) < completeIndex
  }

  /** What the flag says of any list of events: work before the first completion. */
  lemma MidProgressMeans(events: seq<Event>)
    ensures HasMidProgressBeforeComplete(events) <==>
      exists i, j ::
        && 0 <= i < j < |events| && events[j].phase in {Complete, ToolComplete}
        && events[i].phase !in {ContextRetrieval, Complete, ToolComplete}
        && (forall k :: 0 <= k < j ==> events[k].phase !in {Complete, ToolComplete})
  {
    var j := FindIndex(IsCompletion, events);
    if HasMidProgressBeforeComplete(events) {
      var i := FindIndex(IsMid, events[..j]);
      assert IsMid(events[..j][i]) && events[..j][i] == events[i];
    }
    if i, k :|
      && 0 <= i < k < |events| && events[k].phase in {Complete, ToolComplete}
      && events[i].phase !in {ContextRetrieval, Complete, ToolComplete}
      && (forall m :: 0 <= m < k ==> events[m].phase !in {Complete, ToolComplete})
    {
      assert IsCompletion(events[k]) && j == k;
      assert IsMid(events[..j][i]);
    }
  }

  /** Of a paced log, only a window cut directly in front of a completion can hide the work before it. */
  lemma MidProgressIff(log: seq<Event>, from: nat)
    requires Paced(log) && from <= |log|
    ensures var window := log[from..];
      HasMidProgressBeforeComplete(window) <==>
        (exists e :: e in window && IsCompletion(e)) && !IsCompletion(window[0])
  {
    var window := log[from..];
    var i := FindIndex(IsCompletion, window);
    if e :| e in window && IsCompletion(e) {
      var k :| 0 <= k < |window| && window[k] == e;
      assert i <= k;
      if i > 0 {
        PacedAt(log, from + i);
        assert window[i - 1] == log[from + i - 1];
        assert window[..i][i - 1] == window[i - 1];
      }
    }
  }

  // ---------- the windowed reader ----------

  /** The session and run a reader asks for; an absent or empty key asks for every one. */
  datatype Query = Query(sessionKey: Option<string>, runId: Option<string>)

  predicate Asked(key: Option<string>, value: string)
  {
    key.Some? && key.value != "" ==> value == key.value
  }

  predicate Matches(q: Query, e: Event)
  {
    Asked(q.sessionKey, e.sessionKey) && Asked(q.runId, e.runId)
  }

  function Matching(q: Query, log: seq<Event>): seq<Event>
  {
    Filter((e: Event) => Matches(q, e), log)
  }

  /** The filter picks the events of the session and the run asked for; an empty key asks for every one. */
  lemma MatchingPicks(q: Query, log: seq<Event>, keep: Event -> bool)
    requires forall e :: keep(e) <==>
      && (q.sessionKey in {None, Some("")} || q.sessionKey == Some(e.sessionKey))
      && (q.runId in {None, Some("")} || q.runId == Some(e.runId))
    ensures Picked(Matching(q, log), keep, log)
  {
    FilterPicks(keep, log);
    FilterAgrees(keep, (e: Event) => Matches(q, e), log);
  }

  /** `Math.max(limit * 4, limit)` */
  function RawLimit(limit: int): int
  {
    if limit * 4 > limit then limit * 4 else limit
  }

  /** What `readConversationProgressEvents` reads from a log. */
  function ReadWindow(log: seq<Event>, limit: int, q: Query): seq<Event>
  {
    SliceLast(Matching(q, SliceLast(log, RawLimit(limit))), limit)
  }

  lemma MatchingSuffix(q: Query, log: seq<Event>, from: nat)
    requires from <= |log|
    ensures var all, tail := Matching(q, log), Matching(q, log[from..]);
      |tail| <= |all| && tail == all[|all| - |tail|..]
  {
    assert log == log[..from] + log[from..];
    FilterAppend((e: Event) => Matches(q, e), log[..from], log[from..]);
  }

  /**
   The reader filters a window of the log. It always returns the end of the filtered log, and all of
   the last `limit` matches exactly when enough of them lie in the window it looked at.
   */
  lemma WindowRefinesFilter(log: seq<Event>, limit: nat, q: Query)
    requires limit > 0
    ensures var all, read := Matching(q, log), ReadWindow(log, limit, q);
      var inWindow := |Matching(q, SliceLast(log, 4 * limit))|;
      && |read| <= |all| && read == all[|all| - |read|..]
      && (read == SliceLast(all, limit) <==> inWindow >= if |all| < limit then |all| else limit)
  {
    var from := if |log| < 4 * limit then 0 else |log| - 4 * limit;
    assert SliceLast(log, 4 * limit) == log[from..];
    MatchingSuffix(q, log, from);
    SuffixOfSuffix(Matching(q, log), Matching(q, log[from..]), limit);
  }

  /** The last elements of a suffix are those of the whole exactly when the suffix has enough of them. */
  lemma SuffixOfSuffix<T>(all: seq<T>, tail: seq<T>, limit: nat)
    requires limit > 0 && |tail| <= |all| && tail == all[|all| - |tail|..]
    ensures var read := SliceLast(tail, limit);
      && |read| <= |all| && read == all[|all| - |read|..]
      && (read == SliceLast(all, limit) <==> |tail| >= if |all| < limit then |all| else limit)
  {
  }

  lemma MatchingAll(log: seq<Event>)
    ensures Matching(Query(None, None), log) == log
  {
    FilterAll((e: Event) => Matches(Query(None, None), e), log);
  }

  lemma SliceLastTwice<T>(s: seq<T>, wide: nat, narrow: nat)
    requires 0 < narrow <= wide
    ensures SliceLast(SliceLast(s, wide), narrow) == SliceLast(s, narrow)
  {
  }

  /** A reader that asks for every event never loses one to its window. */
  lemma UnfilteredWindow(log: seq<Event>, limit: nat)
    requires limit > 0
    ensures ReadWindow(log, limit, Query(None, None)) == SliceLast(log, limit)
  {
    MatchingAll(SliceLast(log, 4 * limit));
    SliceLastTwice(log, 4 * limit, limit);
  }

  // ---------- the progress lane ----------

  /** A completion is shown, and it is not what is shown first. */
  ghost predicate CompletesLater(events: seq<Event>)
  {
    (exists e :: e in events && e.phase in {Complete, ToolComplete}) && events[0].phase !in {Complete, ToolComplete}
  }

  /** `buildConversationProgressLane`: what the lane claims about the log it shows the end of. */
  lemma LaneMidProgress(log: seq<Event>, limit: nat)
    requires Paced(log) && limit > 0
    ensures var shown := ReadWindow(log, limit, Query(None, None));
      HasMidProgressBeforeComplete(shown) <==> CompletesLater(shown)
  {
    UnfilteredWindow(log, limit);
    MidProgressIff(log, if |log| < limit then 0 else |log| - limit);
    CompletionPhases(ReadWindow(log, limit, Query(None, None)));
  }

  lemma CompletionPhases(events: seq<Event>)
    ensures (exists e :: e in events && IsCompletion(e)) <==>
      (exists e :: e in events && e.phase in {Complete, ToolComplete})
    ensures forall e :: IsCompletion(e) <==> e.phase in {Complete, ToolComplete}
  {
    if e :| e in events && e.phase in {Complete, ToolComplete} {
      assert IsCompletion(e);
    }
  }
}
