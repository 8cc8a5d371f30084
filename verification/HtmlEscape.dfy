/**
 The two HTML escapers, which differ only in how they spell the apostrophe, against a decoder of
 character references.
 */
module HtmlEscape {
  import opened Prelude
  import opened Numerals
  import Text

  /** `s.replaceAll(c, entity)` for a one-character pattern. */
  function ReplaceAll(s: string, c: char, entity: string): string
  {
    if s == "" then ""
    else (if s[0] == c then entity else [s[0]]) + ReplaceAll(s[1..], c, entity)
  }

  /** The spelling `escapeHtml` of the local server uses for an apostrophe. */
  const SERVER_QUOTE := "&#39;"

  /** The spelling `escapeHtml` of the work surface uses for it. */
  const SURFACE_QUOTE := "&#039;"

  /** The five successive passes both escapers run; `quote` is their spelling of the apostrophe. */
  function EscapeHtml(value: string, quote: string): string
  {
    var s1 := ReplaceAll(value, '&', "&amp;");
    var s2 := ReplaceAll(s1, '<', "&lt;");
    var s3 := ReplaceAll(s2, '>', "&gt;");
    var s4 := ReplaceAll(s3, '"', "&quot;");
    ReplaceAll(s4, '\'', quote)
  }

  // ---------- the passes are one substitution ----------

  /** Replaces every character of the table at once. */
  function Substitute(s: string, table: map<char, string>): string
  {
    if s == "" then ""
    else (if s[0] in table then table[s[0]] else [s[0]]) + Substitute(s[1..], table)
  }

  function Entities(quote: string): map<char, string>
  {
    map['&' := "&amp;", '<' := "&lt;", '>' := "&gt;", '"' := "&quot;", '\'' := quote]
  }

  lemma {:induction false} ReplaceAllAppend(s: string, t: string, c: char, entity: string)
    ensures ReplaceAll(s + t, c, entity) == ReplaceAll(s, c, entity) + ReplaceAll(t, c, entity)
  {
    if s == "" {
      assert s + t == t;
    } else {
      assert (s + t)[1..] == s[1..] + t;
      ReplaceAllAppend(s[1..], t, c, entity);
    }
  }

  lemma {:induction false} ReplaceAllAbsent(s: string, c: char, entity: string)
    requires c !in s
    ensures ReplaceAll(s, c, entity) == s
  {
    if s != "" {
      ReplaceAllAbsent(s[1..], c, entity);
    }
  }

  /** A further pass only adds a row to the table, as long as no earlier entity contains its pattern. */
  lemma {:induction false} PassFuses(s: string, table: map<char, string>, c: char, entity: string)
    requires c !in table
    requires forall k :: k in table ==> c !in table[k]
    ensures ReplaceAll(Substitute(s, table), c, entity) == Substitute(s, table[c := entity])
  {
    if s != "" {
      var head := if s[0] in table then table[s[0]] else [s[0]];
      ReplaceAllAppend(head, Substitute(s[1..], table), c, entity);
      PassFuses(s[1..], table, c, entity);
      if s[0] != c {
        ReplaceAllAbsent(head, c, entity);
      }
    }
  }

  lemma {:induction false} EmptyTable(s: string)
    ensures Substitute(s, map[]) == s
  {
    if s != "" {
      EmptyTable(s[1..]);
    }
  }

  /** The order of the passes does not show: together they replace each special character once. */
  lemma EscapeIsSubstitution(value: string, quote: string)
    ensures EscapeHtml(value, quote) == Substitute(value, Entities(quote))
  {
    var t0: map<char, string> := map[];
    var t1 := t0['&' := "&amp;"];
    var t2 := t1['<' := "&lt;"];
    var t3 := t2['>' := "&gt;"];
    var t4 := t3['"' := "&quot;"];
    EmptyTable(value);
    PassFuses(value, t0, '&', "&amp;");
    PassFuses(value, t1, '<', "&lt;");
    PassFuses(value, t2, '>', "&gt;");
    PassFuses(value, t3, '"', "&quot;");
    PassFuses(value, t4, '\'', quote);
    assert t4['\'' := quote] == Entities(quote);
  }

  // ---------- reading character references back ----------

  /** What a reference name stands for: four names, and `#` followed by decimal digits. */
  function Named(name: string): Option<char>
  {
    if name == "amp" then Some('&')
    else if name == "lt" then Some('<')
    else if name == "gt" then Some('>')
    else if name == "quot" then Some('"')
    else if |name| > 1 && name[0] == '#' && (forall i :: 1 <= i < |name| ==> '0' <= name[i] <= '9')
            && Value(name[1..], 10) < 0xD800
    then Some(Value(name[1..], 10) as char)
    else None
  }

  /** The reference at the front of `s`, up to its semicolon. */
  function Reference(s: string): Option<char>
  {
    var end := Text.IndexOf(s, ';');
    if s != "" && s[0] == '&' && 0 < end < |s| then Named(s[1..end]) else None
  }

  /** The text a browser shows for escaped text. */
  function Decode(s: string): string
    decreases |s|
  {
    if s == "" then ""
    else if Reference(s).Some? then [Reference(s).value] + Decode(s[Text.IndexOf(s, ';') + 1..])
    else [s[0]] + Decode(s[1..])
  }

  predicate Quote(quote: string)
  {
    quote == SERVER_QUOTE || quote == SURFACE_QUOTE
  }

  lemma NumericQuote(name: string)
    requires name == "#39" || name == "#039"
    ensures Named(name) == Some('\'')
  {
    var digits := name[1..];
    assert digits == "39" || digits == "039";
    assert Value("3", 10) == Value("", 10) * 10 + 3 by { assert "3"[..0] == ""; }
    assert Value("0", 10) == Value("", 10) * 10 + 0 by { assert "0"[..0] == ""; }
    assert Value("39", 10) == 39 by { assert "39"[..1] == "3"; }
    assert Value("03", 10) == 3 by { assert "03"[..1] == "0"; }
    assert Value("039", 10) == 39 by { assert "039"[..2] == "03"; }
  }

  lemma EntityShape(c: char, quote: string)
    requires Quote(quote)
    requires c in Entities(quote)
    ensures var entity := Entities(quote)[c];
      entity[0] == '&' && forall i :: 0 < i < |entity| ==> entity[i] !in MARKUP && entity[i] != '&'
  {
  }

  lemma ReferenceReads(name: string, rest: string)
    requires name != "" && ';' !in name
    ensures var s := "&" + name + ";" + rest;
      Reference(s) == Named(name) && Text.IndexOf(s, ';') == |name| + 1
  {
    var s := "&" + name + ";" + rest;
    assert s == ("&" + name) + [';'] + rest;
    Text.IndexOfFirst("&" + name, ';', rest);
    assert s[1..|name| + 1] == name;
  }

  function EntityName(c: char, quote: string): string
    requires Quote(quote) && c in Entities(quote)
  {
    match c
    case '&' => "amp"
    case '<' => "lt"
    case '>' => "gt"
    case '"' => "quot"
    case _ => if quote == SERVER_QUOTE then "#39" else "#039"
  }

  lemma EntityNamed(c: char, quote: string)
    requires Quote(quote) && c in Entities(quote)
    ensures Entities(quote)[c] == "&" + EntityName(c, quote) + ";"
    ensures ';' !in EntityName(c, quote) && Named(EntityName(c, quote)) == Some(c)
  {
    if c == '\'' {
      NumericQuote(EntityName(c, quote));
    }
  }

  lemma EntityReads(c: char, quote: string, rest: string)
    requires Quote(quote) && c in Entities(quote)
    ensures var entity := Entities(quote)[c];
      Reference(entity + rest) == Some(c) && Text.IndexOf(entity + rest, ';') == |entity| - 1
  {
    EntityNamed(c, quote);
    ReferenceReads(EntityName(c, quote), rest);
  }

  lemma {:induction false} SubstituteReadsBack(s: string, quote: string)
    requires Quote(quote)
    ensures Decode(Substitute(s, Entities(quote))) == s
  {
    if s != "" {
      var tail := Substitute(s[1..], Entities(quote));
      SubstituteReadsBack(s[1..], quote);
      if s[0] in Entities(quote) {
        var entity := Entities(quote)[s[0]];
        EntityReads(s[0], quote, tail);
        assert (entity + tail)[|entity|..] == tail;
      } else {
        assert ([s[0]] + tail)[1..] == tail;
      }
      assert s == [s[0]] + s[1..];
    }
  }

  /** Escaped text shows exactly the original, in either spelling. */
  lemma EscapeRoundTrip(value: string, quote: string)
    requires Quote(quote)
    ensures Decode(EscapeHtml(value, quote)) == value
  {
    EscapeIsSubstitution(value, quote);
    SubstituteReadsBack(value, quote);
  }

  /** Different texts never escape to the same text, not even across the two escapers. */
  lemma EscapeInjective(v: string, w: string, quoteV: string, quoteW: string)
    requires Quote(quoteV) && Quote(quoteW)
    requires EscapeHtml(v, quoteV) == EscapeHtml(w, quoteW)
    ensures v == w
  {
    EscapeRoundTrip(v, quoteV);
    EscapeRoundTrip(w, quoteW);
  }

  const MARKUP: set<char> := {'<', '>', '"', '\''}

  /** A position a browser reads as text: no markup, and an ampersand only in front of a reference. */
  predicate InertAt(out: string, i: nat)
    requires i < |out|
  {
    out[i] !in MARKUP && (out[i] == '&' ==> Reference(out[i..]).Some?)
  }

  predicate Inert(out: string)
  {
    forall i :: 0 <= i < |out| ==> InertAt(out, i)
  }

  lemma InertAppend(head: string, tail: string)
    requires head != "" && Inert(tail) && InertAt(head + tail, 0)
    requires forall i :: 0 < i < |head| ==> head[i] !in MARKUP && head[i] != '&'
    ensures Inert(head + tail)
  {
    var out := head + tail;
    forall i | 0 <= i < |out|
      ensures InertAt(out, i)
    {
      if 0 < i < |head| {
        assert out[i] == head[i];
      } else if i >= |head| {
        assert out[i..] == tail[i - |head|..];
        assert InertAt(tail, i - |head|);
      }
    }
  }

  lemma {:induction false} SubstituteIsInert(s: string, quote: string)
    requires Quote(quote)
    ensures Inert(Substitute(s, Entities(quote)))
  {
    if s != "" {
      var tail := Substitute(s[1..], Entities(quote));
      SubstituteIsInert(s[1..], quote);
      if s[0] in Entities(quote) {
        var entity := Entities(quote)[s[0]];
        EntityReads(s[0], quote, tail);
        EntityShape(s[0], quote);
        assert (entity + tail)[0..] == entity + tail;
        InertAppend(entity, tail);
      } else {
        InertAppend([s[0]], tail);
      }
    }
  }

  /** The output has no markup character, and each of its ampersands begins a character reference. */
  lemma EscapeIsInert(value: string, quote: string)
    requires Quote(quote)
    ensures Inert(EscapeHtml(value, quote))
  {
    EscapeIsSubstitution(value, quote);
    SubstituteIsInert(value, quote);
  }

  predicate NeedsEscape(s: string)
  {
    exists c :: c in s && (c == '&' || c in MARKUP)
  }

  lemma {:induction false} SubstituteGrows(s: string, quote: string)
    requires Quote(quote)
    ensures var out := Substitute(s, Entities(quote));
      if NeedsEscape(s) then |out| > |s| && '&' in out else out == s
  {
    if s != "" {
      SubstituteGrows(s[1..], quote);
      assert s == [s[0]] + s[1..];
      assert NeedsEscape(s) <==> s[0] in Entities(quote) || NeedsEscape(s[1..]) by {
        assert s[0] in s;
        assert forall c :: c in s <==> c == s[0] || c in s[1..];
      }
      if s[0] in Entities(quote) {
        assert Entities(quote)[s[0]][0] == '&';
        assert Substitute(s, Entities(quote))[0] == '&';
      }
    }
  }

  /** Escaping twice shows, exactly on the texts that needed escaping at all. */
  lemma EscapeTwice(value: string, quote: string)
    requires Quote(quote)
    ensures var once := EscapeHtml(value, quote);
      EscapeHtml(once, quote) == once <==> !NeedsEscape(value)
  {
    var once := EscapeHtml(value, quote);
    EscapeIsSubstitution(value, quote);
    EscapeIsSubstitution(once, quote);
    SubstituteGrows(value, quote);
    SubstituteGrows(once, quote);
  }
}
