/** The optional values and the array operations the modules below share. */
module Prelude {

  datatype Option<+T> = None | Some(value: T)

  /** JavaScript's `Array.prototype.filter`. */
  function Filter<T>(keep: T -> bool, s: seq<T>): seq<T>
  {
    if s == [] then []
    else if keep(s[0]) then [s[0]] + Filter(keep, s[1..])
    else Filter(keep, s[1..])
  }

  /** JavaScript's `Array.prototype.map`. */
  function Map<A, B>(f: A -> B, s: seq<A>): (r: seq<B>)
    ensures |r| == |s|
    ensures forall i :: 0 <= i < |s| ==> r[i] == f(s[i])
  {
    if s == [] then [] else [f(s[0])] + Map(f, s[1..])
  }

  /** JavaScript's `Array.prototype.reverse`. */
  function Reverse<T>(s: seq<T>): (r: seq<T>)
    ensures |r| == |s|
    ensures forall i :: 0 <= i < |s| ==> r[i] == s[|s| - 1 - i]
  {
    if s == [] then [] else Reverse(s[1..]) + [s[0]]
  }

  /** `s.slice(-limit)`: a zero limit reads the whole array, a negative one drops a prefix. */
  function SliceLast<T>(s: seq<T>, limit: int): seq<T>
  {
    if limit > 0 then s[if |s| < limit then 0 else |s| - limit..]
    else s[if |s| < -limit then |s| else -limit..]
  }

  /** `s.slice(0, limit)`: a negative limit counts from the end. */
  function SliceFirst<T>(s: seq<T>, limit: int): (r: seq<T>)
    ensures |r| <= |s| && r == s[..|r|]
    ensures limit >= 0 ==> |r| == if |s| < limit then |s| else limit
    ensures limit < 0 ==> |r| == if |s| < -limit then 0 else |s| + limit
  {
    if limit >= 0 then s[..if |s| < limit then |s| else limit]
    else s[..if |s| < -limit then 0 else |s| + limit]
  }

  /** `s.find(keep)`, as the index of the element found; `|s|` when there is none. */
  function FindIndex<T>(keep: T -> bool, s: seq<T>): (i: nat)
    ensures i <= |s|
    ensures i < |s| ==> keep(s[i])
    ensures forall k :: 0 <= k < i ==> !keep(s[k])
  {
    if s == [] || keep(s[0]) then 0 else 1 + FindIndex(keep, s[1..])
  }

  lemma SliceLastLaw<T>(s: seq<T>, limit: nat)
    requires limit > 0
    ensures var r := SliceLast(s, limit); |r| == (if |s| < limit then |s| else limit) && r == s[|s| - |r|..]
  {
  }

  lemma {:induction false} FilterAppend<T>(keep: T -> bool, s: seq<T>, t: seq<T>)
    ensures Filter(keep, s + t) == Filter(keep, s) + Filter(keep, t)
  {
    if s == [] {
      assert s + t == t;
    } else {
      assert (s + t)[1..] == s[1..] + t;
      FilterAppend(keep, s[1..], t);
    }
  }

  lemma {:induction false} FilterElements<T>(keep: T -> bool, s: seq<T>)
    ensures forall x :: x in Filter(keep, s) <==> x in s && keep(x)
  {
    if s != [] {
      FilterElements(keep, s[1..]);
      assert s == [s[0]] + s[1..];
    }
  }

  /** `s` is `a` and `b` shuffled together, each in its own order. */
  predicate Interleaves<T(==)>(a: seq<T>, b: seq<T>, s: seq<T>)
  {
    if s == [] then a == [] && b == []
    else
      || (a != [] && a[0] == s[0] && Interleaves(a[1..], b, s[1..]))
      || (b != [] && b[0] == s[0] && Interleaves(a, b[1..], s[1..]))
  }

  lemma {:induction false} FilterSplits<T>(keep: T -> bool, drop: T -> bool, s: seq<T>)
    requires forall x :: x in s ==> drop(x) == !keep(x)
    ensures Interleaves(Filter(keep, s), Filter(drop, s), s)
  {
    if s != [] {
      FilterSplits(keep, drop, s[1..]);
    }
  }

  /** The elements of `s` that are kept, in their order and as often as they occur: what a filter is for. */
  ghost predicate Picked<T(!new)>(part: seq<T>, keep: T -> bool, s: seq<T>)
  {
    && (forall x :: x in part ==> keep(x))
    && (exists rest :: Interleaves(part, rest, s) && forall x :: x in rest ==> !keep(x))
  }

  lemma FilterPicks<T(!new)>(keep: T -> bool, s: seq<T>)
    ensures Picked(Filter(keep, s), keep, s)
  {
    var drop := (x: T) => !keep(x);
    FilterElements(keep, s);
    FilterElements(drop, s);
    FilterSplits(keep, drop, s);
  }

  lemma {:induction false} InterleavesFilter<T>(keep: T -> bool, a: seq<T>, b: seq<T>, s: seq<T>)
    requires Interleaves(a, b, s)
    requires (forall x :: x in a ==> keep(x)) && (forall x :: x in b ==> !keep(x))
    ensures a == Filter(keep, s)
  {
    if s != [] {
      if a != [] && a[0] == s[0] && Interleaves(a[1..], b, s[1..]) {
        InterleavesFilter(keep, a[1..], b, s[1..]);
      } else {
        InterleavesFilter(keep, a, b[1..], s[1..]);
        assert b[0] in b;
      }
    }
  }

  /** Nothing else is picked by a condition that agrees with the filter. */
  lemma PickedIsFilter<T(!new)>(part: seq<T>, keep: T -> bool, filter: T -> bool, s: seq<T>)
    requires Picked(part, keep, s) && forall x :: keep(x) == filter(x)
    ensures part == Filter(filter, s)
  {
    var rest :| Interleaves(part, rest, s) && forall x :: x in rest ==> !keep(x);
    InterleavesFilter(filter, part, rest, s);
  }

  /** Filtering twice keeps what the narrower condition keeps. */
  lemma {:induction false} FilterTwice<T>(wide: T -> bool, narrow: T -> bool, s: seq<T>)
    requires forall x :: x in s && narrow(x) ==> wide(x)
    ensures Filter(narrow, Filter(wide, s)) == Filter(narrow, s)
  {
    if s != [] {
      FilterTwice(wide, narrow, s[1..]);
    }
  }

  lemma {:induction false} FilterAgrees<T>(keep: T -> bool, kept: T -> bool, s: seq<T>)
    requires forall x :: x in s ==> keep(x) == kept(x)
    ensures Filter(keep, s) == Filter(kept, s)
  {
    if s != [] {
      FilterAgrees(keep, kept, s[1..]);
    }
  }

  /** Filtering before a map, or after a map that agrees with it on what is kept. */
  lemma {:induction false} MapFilter<A, B>(f: A -> B, keep: A -> bool, g: A -> B, kept: B -> bool, s: seq<A>)
    requires forall x :: x in s ==> keep(x) == kept(g(x)) && (keep(x) ==> f(x) == g(x))
    ensures Map(f, Filter(keep, s)) == Filter(kept, Map(g, s))
  {
    if s != [] {
      MapFilter(f, keep, g, kept, s[1..]);
    }
  }

  lemma {:induction false} FilterAll<T>(keep: T -> bool, s: seq<T>)
    requires forall x :: x in s ==> keep(x)
    ensures Filter(keep, s) == s
  {
    if s != [] {
      FilterAll(keep, s[1..]);
    }
  }

  lemma MapMembers<A, B>(f: A -> B, s: seq<A>, y: B)
    ensures y in Map(f, s) <==> exists x :: x in s && f(x) == y
  {
    var mapped := Map(f, s);
    if y in mapped {
      var i :| 0 <= i < |mapped| && mapped[i] == y;
      assert s[i] in s && f(s[i]) == y;
    }
    if x :| x in s && f(x) == y {
      var i :| 0 <= i < |s| && s[i] == x;
      assert mapped[i] == y;
    }
  }

  lemma MapSliceLast<A, B>(f: A -> B, s: seq<A>, limit: int)
    ensures Map(f, SliceLast(s, limit)) == SliceLast(Map(f, s), limit)
  {
    var from := if limit > 0 then (if |s| < limit then 0 else |s| - limit) else (if |s| < -limit then |s| else -limit);
    assert SliceLast(s, limit) == s[from..] && SliceLast(Map(f, s), limit) == Map(f, s)[from..];
  }
}
