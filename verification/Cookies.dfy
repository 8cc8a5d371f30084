/** The cookie parser of the local server, and the header a client prints. */
module Cookies {
  import opened Prelude
  import opened Text

  /** The key that reaches an object's prototype: assigning a string to it stores nothing. */
  const PROTOTYPE_KEY := "__proto__"

  /** `cookies[name] = value` on an object literal. */
  function Assign(cookies: map<string, string>, name: string, value: string): map<string, string>
  {
    if name == PROTOTYPE_KEY then cookies else cookies[name := value]
  }

  /** One step of the reduction: a part without a name in front of its first `=` is skipped. */
  function AddPart(cookies: map<string, string>, part: string): map<string, string>
  {
    var separator := IndexOf(part, '=');
    if 0 < separator < |part| then Assign(cookies, part[..separator], part[separator + 1..]) else cookies
  }

  function Collect(parts: seq<string>): map<string, string>
  {
    if parts == [] then map[] else AddPart(Collect(parts[..|parts| - 1]), parts[|parts| - 1])
  }

  function Parts(header: string): seq<string>
  {
    Filter(NonEmpty, Map(Trim, Split(header, ';')))
  }

  /** `parseCookies` */
  method ParseCookies(header: string) returns (cookies: map<string, string>)
    ensures cookies == Collect(Parts(header))
  {
    var parts := Parts(header);
    cookies := map[];
    for i := 0 to |parts|
      invariant cookies == Collect(parts[..i])
    {
      assert parts[..i + 1][..i] == parts[..i];
      var separator := IndexOf(parts[i], '=');
      if 0 < separator < |parts[i]| {
        cookies := Assign(cookies, parts[i][..separator], parts[i][separator + 1..]);
      }
    }
    assert parts[..|parts|] == parts;
  }

  // ---------- printing ----------

  datatype Pair = Pair(name: string, value: string) {

    /** What a client may put in a cookie header, section 4.2.1 of RFC 6265, and rather more. */
    predicate Printable()
    {
      && name != "" && ';' !in name && '=' !in name && !IsSpace(name[0])
      && ';' !in value && (value == "" || !IsSpace(value[|value| - 1]))
    }

    function Text(): string
    {
      name + "=" + value
    }
  }

  function PairText(p: Pair): string
  {
    p.Text()
  }

  function Print(pairs: seq<Pair>): string
  {
    Join(Map(PairText, pairs), "; ")
  }

  predicate AllPrintable(pairs: seq<Pair>)
  {
    forall p :: p in pairs ==> p.Printable()
  }

  lemma TrimLeavesPair(p: Pair)
    requires p.Printable()
    ensures Trim(p.Text()) == Trim(" " + p.Text()) == p.Text()
  {
    var t := p.Text();
    assert t[|t| - 1] == if p.value == "" then '=' else p.value[|p.value| - 1];
    assert (" " + t)[1..] == t;
    assert TrimStart(" " + t) == TrimStart(t) == t;
  }

  lemma SplitAfterSpace(s: string)
    ensures Split(" " + s, ';') == [" " + Split(s, ';')[0]] + Split(s, ';')[1..]
  {
    assert (" " + s)[1..] == s;
  }

  lemma SplitGlued(head: string, tail: string)
    requires Free(head, ';')
    ensures Split(head + "; " + tail, ';') == [head, " " + Split(tail, ';')[0]] + Split(tail, ';')[1..]
  {
    assert head + "; " + tail == head + [';'] + (" " + tail);
    SplitAtSeparator(head, " " + tail, ';');
    SplitAfterSpace(tail);
  }

  /** Cutting a printed header gives back the pairs, all but the first behind a space. */
  lemma {:induction false} SplitPrinted(texts: seq<string>)
    requires texts != [] && forall i :: 0 <= i < |texts| ==> Free(texts[i], ';')
    ensures var parts := Split(Join(texts, "; "), ';');
      |parts| == |texts| && parts[0] == texts[0] &&
      forall i :: 0 < i < |texts| ==> parts[i] == " " + texts[i]
  {
    if |texts| == 1 {
      SplitFree(texts[0], ';');
    } else {
      var rest := texts[1..];
      SplitGlued(texts[0], Join(rest, "; "));
      SplitPrinted(rest);
      var parts, tail := Split(Join(texts, "; "), ';'), Split(Join(rest, "; "), ';');
      assert parts == [texts[0], " " + tail[0]] + tail[1..];
      forall i | 0 < i < |texts|
        ensures parts[i] == " " + texts[i]
      {
        assert i > 1 ==> parts[i] == tail[i - 1];
        assert texts[i] == rest[i - 1];
      }
    }
  }

  lemma PartsOfPrinted(pairs: seq<Pair>)
    requires AllPrintable(pairs)
    ensures Parts(Print(pairs)) == Map(PairText, pairs)
  {
    var texts := Map(PairText, pairs);
    var pieces := Split(Print(pairs), ';');
    if pairs == [] {
      assert Map(Trim, pieces) == [""];
    } else {
      forall t | t in texts
        ensures Free(t, ';') && t != ""
      {
        var i :| 0 <= i < |texts| && texts[i] == t;
        assert pairs[i].Printable();
      }
      SplitPrinted(texts);
      forall i | 0 <= i < |texts|
        ensures Map(Trim, pieces)[i] == texts[i]
      {
        TrimLeavesPair(pairs[i]);
      }
      assert Map(Trim, pieces) == texts;
      FilterAll(NonEmpty, texts);
    }
  }

  ghost predicate Named(pairs: seq<Pair>, name: string)
  {
    exists i :: 0 <= i < |pairs| && pairs[i].name == name
  }

  /** The map a printed header stands for: the last pair of a name wins, and the prototype key is lost. */
  ghost predicate LastWins(cookies: map<string, string>, pairs: seq<Pair>)
  {
    && (forall n :: n in cookies <==> n != PROTOTYPE_KEY && Named(pairs, n))
    && (forall i :: 0 <= i < |pairs| && pairs[i].name in cookies
                    && (forall j :: i < j < |pairs| ==> pairs[j].name != pairs[i].name)
                    ==> cookies[pairs[i].name] == pairs[i].value)
  }

  lemma AddPairText(cookies: map<string, string>, p: Pair)
    requires p.Printable()
    ensures AddPart(cookies, p.Text()) == Assign(cookies, p.name, p.value)
  {
    var t := p.Text();
    assert t == p.name + ['='] + p.value;
    IndexOfFirst(p.name, '=', p.value);
    assert t[..|p.name|] == p.name && t[|p.name| + 1..] == p.value;
  }

  lemma LastWinsStep(cookies: map<string, string>, pairs: seq<Pair>, p: Pair)
    requires LastWins(cookies, pairs)
    ensures LastWins(Assign(cookies, p.name, p.value), pairs + [p])
  {
    var after, all := Assign(cookies, p.name, p.value), pairs + [p];
    forall name
      ensures name in after <==> name != PROTOTYPE_KEY && Named(all, name)
    {
      assert Named(all, name) <==> Named(pairs, name) || name == p.name by {
        if Named(pairs, name) {
          var i :| 0 <= i < |pairs| && pairs[i].name == name;
          assert all[i].name == name;
        }
        assert all[|pairs|] == p;
      }
      assert name in cookies <==> name != PROTOTYPE_KEY && Named(pairs, name);
    }
    forall i | 0 <= i < |all| && all[i].name in after
               && (forall j :: i < j < |all| ==> all[j].name != all[i].name)
      ensures after[all[i].name] == all[i].value
    {
      if i < |pairs| {
        assert all[|pairs|].name != all[i].name;
        assert forall j :: i < j < |pairs| ==> all[j] == pairs[j];
      }
    }
  }

  /** Assigning the pairs one after the other. */
  function AssignAll(pairs: seq<Pair>): map<string, string>
  {
    if pairs == [] then map[]
    else
      var n := |pairs| - 1;
      Assign(AssignAll(pairs[..n]), pairs[n].name, pairs[n].value)
  }

  lemma {:induction false} CollectPairs(pairs: seq<Pair>)
    requires AllPrintable(pairs)
    ensures Collect(Map(PairText, pairs)) == AssignAll(pairs)
  {
    if pairs != [] {
      var texts, n := Map(PairText, pairs), |pairs| - 1;
      assert texts[..n] == Map(PairText, pairs[..n]);
      CollectPairs(pairs[..n]);
      assert pairs[n].Printable() by { assert pairs[n] in pairs; }
      AddPairText(Collect(texts[..n]), pairs[n]);
    }
  }

  lemma {:induction false} AssignAllLastWins(pairs: seq<Pair>)
    ensures LastWins(AssignAll(pairs), pairs)
  {
    if pairs != [] {
      var n := |pairs| - 1;
      AssignAllLastWins(pairs[..n]);
      LastWinsStep(AssignAll(pairs[..n]), pairs[..n], pairs[n]);
      assert pairs[..n] + [pairs[n]] == pairs;
    }
  }

  /** Printing pairs and parsing the header is the last-wins map, whatever `=` the values contain. */
  lemma CookieRoundTrip(pairs: seq<Pair>)
    requires AllPrintable(pairs)
    ensures LastWins(Collect(Parts(Print(pairs))), pairs)
  {
    PartsOfPrinted(pairs);
    CollectPairs(pairs);
    AssignAllLastWins(pairs);
  }

  /** The only cookie of a printed header that is ever lost is one named like the prototype key. */
  lemma CookieLost(pairs: seq<Pair>, i: nat)
    requires AllPrintable(pairs) && i < |pairs|
    ensures pairs[i].name !in Collect(Parts(Print(pairs))) <==> pairs[i].name == PROTOTYPE_KEY
  {
    CookieRoundTrip(pairs);
  }

  /** A part without a name, or without a value to assign, changes nothing wherever it stands. */
  lemma {:induction false} NamelessPartIgnored(before: seq<string>, part: string, after: seq<string>)
    requires IndexOf(part, '=') == 0 || IndexOf(part, '=') == |part|
    ensures Collect(before + [part] + after) == Collect(before + after)
  {
    var all, kept := before + [part] + after, before + after;
    if after == [] {
      assert all[..|all| - 1] == before && kept == before;
    } else {
      var n := |after| - 1;
      NamelessPartIgnored(before, part, after[..n]);
      assert all[..|all| - 1] == before + [part] + after[..n];
      assert kept[..|kept| - 1] == before + after[..n];
    }
  }
}
