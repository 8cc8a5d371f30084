/** Counting the runs of a log by status, as the summaries do. */
module RunStatuses {
  import opened Prelude

  /** `runs.filter((run) => run.status === status).length` */
  function CountOf(status: string, statuses: seq<string>): nat
  {
    |Filter((s: string) => s == status, statuses)|
  }

  /** The counters of a list of names, added up. */
  function Total(names: seq<string>, statuses: seq<string>): nat
  {
    if names == [] then 0 else CountOf(names[0], statuses) + Total(names[1..], statuses)
  }

  predicate Distinct(names: seq<string>)
  {
    forall i, j :: 0 <= i < j < |names| ==> names[i] != names[j]
  }

  lemma CountPositive(status: string, statuses: seq<string>)
    ensures CountOf(status, statuses) > 0 <==> status in statuses
  {
    var found := Filter((s: string) => s == status, statuses);
    FilterElements((s: string) => s == status, statuses);
    assert found != [] ==> found[0] in found;
  }

  lemma {:induction false} TotalCons(names: seq<string>, status: string, statuses: seq<string>)
    requires Distinct(names)
    ensures Total(names, [status] + statuses) == Total(names, statuses) + if status in names then 1 else 0
  {
    assert ([status] + statuses)[1..] == statuses;
    if names != [] {
      TotalCons(names[1..], status, statuses);
      assert names[0] !in names[1..];
      assert names == [names[0]] + names[1..];
    }
  }

  /** Counters with different names account for every run whose status is one of the names. */
  lemma {:induction false} CountersAddUp(names: seq<string>, statuses: seq<string>)
    requires Distinct(names) && forall i :: 0 <= i < |statuses| ==> statuses[i] in names
    ensures Total(names, statuses) == |statuses|
  {
    if statuses == [] {
      TotalOfNone(names);
    } else {
      CountersAddUp(names, statuses[1..]);
      TotalCons(names, statuses[0], statuses[1..]);
      assert statuses == [statuses[0]] + statuses[1..];
    }
  }

  lemma {:induction false} TotalOfNone(names: seq<string>)
    ensures Total(names, []) == 0
  {
    if names != [] {
      TotalOfNone(names[1..]);
    }
  }
}
