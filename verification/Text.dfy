/** The JavaScript string methods the parsers and writers are built from. */
module Text {

  /** A token without the separator is a token `split` cannot cut. */
  predicate Free(s: string, sep: char)
  {
    sep !in s
  }

  /** `s.split(sep)` for a one-character separator. */
  function Split(s: string, sep: char): (parts: seq<string>)
    ensures |parts| > 0
    ensures forall i :: 0 <= i < |parts| ==> Free(parts[i], sep)
  {
    if s == "" then [""]
    else
      var rest := Split(s[1..], sep);
      if s[0] == sep then [""] + rest
      else [[s[0]] + rest[0]] + rest[1..]
  }

  /** `Boolean` of a text. */
  predicate NonEmpty(s: string)
  {
    s != ""
  }

  /** `parts.join(glue)`. */
  function Join(parts: seq<string>, glue: string): string
  {
    if parts == [] then ""
    else if |parts| == 1 then parts[0]
    else parts[0] + glue + Join(parts[1..], glue)
  }

  lemma {:induction false} SplitFree(s: string, sep: char)
    requires Free(s, sep)
    ensures Split(s, sep) == [s]
  {
    if s != "" {
      SplitFree(s[1..], sep);
      assert s == [s[0]] + s[1..];
    }
  }

  lemma {:induction false} SplitAtSeparator(head: string, tail: string, sep: char)
    requires Free(head, sep)
    ensures Split(head + [sep] + tail, sep) == [head] + Split(tail, sep)
  {
    var s := head + [sep] + tail;
    if head == "" {
      assert s[1..] == tail;
    } else {
      assert s[1..] == head[1..] + [sep] + tail;
      SplitAtSeparator(head[1..], tail, sep);
      assert head == [head[0]] + head[1..];
    }
  }

  /** White space in the sense of `String.prototype.trim`. */
  predicate IsSpace(c: char)
  {
    c in {'\t', '\n', '\U{0B}', '\U{0C}', '\r', ' ', '\U{A0}', '\U{1680}', '\U{2028}', '\U{2029}',
          '\U{202F}', '\U{205F}', '\U{3000}', '\U{FEFF}'}
    || '\U{2000}' <= c <= '\U{200A}'
  }

  function TrimStart(s: string): string
  {
    if s != "" && IsSpace(s[0]) then TrimStart(s[1..]) else s
  }

  function TrimEnd(s: string): string
  {
    if s != "" && IsSpace(s[|s| - 1]) then TrimEnd(s[..|s| - 1]) else s
  }

  function Trim(s: string): string
  {
    TrimEnd(TrimStart(s))
  }

  predicate Blank(s: string)
  {
    forall c :: c in s ==> IsSpace(c)
  }

  lemma {:induction false} TrimStartLaw(s: string)
    ensures var n := |s| - |TrimStart(s)|;
      0 <= n <= |s| && Blank(s[..n]) && TrimStart(s) == s[n..] && (n < |s| ==> !IsSpace(s[n]))
  {
    if s != "" && IsSpace(s[0]) {
      TrimStartLaw(s[1..]);
      var n := |s| - |TrimStart(s)|;
      assert s[..n] == [s[0]] + s[1..][..n - 1];
    }
  }

  lemma {:induction false} TrimEndLaw(s: string)
    ensures var n := |TrimEnd(s)|;
      n <= |s| && Blank(s[n..]) && TrimEnd(s) == s[..n] && (n > 0 ==> !IsSpace(s[n - 1]))
  {
    if s != "" && IsSpace(s[|s| - 1]) {
      TrimEndLaw(s[..|s| - 1]);
      var n := |TrimEnd(s)|;
      assert s[n..] == s[..|s| - 1][n..] + [s[|s| - 1]];
    }
  }

  /** Trimming takes blanks from both ends, all of them and nothing else. */
  lemma TrimLaw(s: string) returns (before: string, after: string)
    ensures s == before + Trim(s) + after && Blank(before) && Blank(after)
    ensures Trim(s) != "" ==> !IsSpace(Trim(s)[0]) && !IsSpace(Trim(s)[|Trim(s)| - 1])
  {
    TrimStartLaw(s);
    TrimEndLaw(TrimStart(s));
    before, after := s[..|s| - |TrimStart(s)|], TrimStart(s)[|Trim(s)|..];
  }

  lemma TrimTwice(s: string)
    ensures Trim(Trim(s)) == Trim(s)
  {
    var before, after := TrimLaw(s);
  }

  /** Trimming leaves a text alone that begins and ends with a letter. */
  lemma TrimWord(s: string)
    requires s != "" && 'a' <= s[0] <= 'z' && 'a' <= s[|s| - 1] <= 'z'
    ensures Trim(s) == s
  {
  }

  /** `s.indexOf(c)`, with `|s|` standing for -1. */
  function IndexOf(s: string, c: char): (i: nat)
    ensures i <= |s|
    ensures i < |s| ==> s[i] == c
    ensures c !in s[..i]
  {
    if s == "" || s[0] == c then 0
    else
      var i := 1 + IndexOf(s[1..], c);
      assert s[..i] == [s[0]] + s[1..][..i - 1];
      i
  }

  lemma {:induction false} IndexOfFirst(name: string, c: char, rest: string)
    requires c !in name
    ensures IndexOf(name + [c] + rest, c) == |name|
  {
    var s := name + [c] + rest;
    if name != "" {
      assert s[1..] == name[1..] + [c] + rest;
      IndexOfFirst(name[1..], c, rest);
    }
  }

  /** `s.startsWith(prefix)`. */
  predicate StartsWith(s: string, prefix: string)
  {
    |prefix| <= |s| && s[..|prefix|] == prefix
  }
}
