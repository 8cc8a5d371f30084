/** Append-only files of newline-framed records, and the two ways the runtime reads their ends. */
module Jsonl {
  import opened Prelude
  import Text

  /** `JSON.stringify` and `JSON.parse` for one type of record. */
  datatype Codec<!R> = Codec(encode: R -> string, decode: string -> R)

  /**
   What the framing needs of the encoding, and section 7 of RFC 8259 provides: an encoded record is
   not empty, holds no line feed, and decodes to the record.
   */
  ghost predicate Lawful<R(!new)>(codec: Codec<R>)
  {
    forall r: R :: codec.encode(r) != "" && Text.Free(codec.encode(r), '\n') && codec.decode(codec.encode(r)) == r
  }

  /** `text.split("\n").filter(Boolean)` */
  function Lines(text: string): seq<string>
  {
    Filter(Text.NonEmpty, Text.Split(text, '\n'))
  }

  /** The text that appending the records one after the other leaves. */
  function Framed<R>(codec: Codec<R>, records: seq<R>): string
  {
    if records == [] then "" else codec.encode(records[0]) + "\n" + Framed(codec, records[1..])
  }

  lemma {:induction false} FramedAppend<R>(codec: Codec<R>, records: seq<R>, r: R)
    ensures Framed(codec, records + [r]) == Framed(codec, records) + codec.encode(r) + "\n"
  {
    if records == [] {
      assert [r][1..] == [];
    } else {
      assert (records + [r])[1..] == records[1..] + [r];
      FramedAppend(codec, records[1..], r);
    }
  }

  /** Whatever was appended, the lines of the file are exactly the encoded records. */
  lemma {:induction false} FramedLines<R(!new)>(codec: Codec<R>, records: seq<R>)
    requires Lawful(codec)
    ensures Lines(Framed(codec, records)) == Map(codec.encode, records)
  {
    if records != [] {
      var line, rest := codec.encode(records[0]), Framed(codec, records[1..]);
      assert Framed(codec, records) == line + ['\n'] + rest;
      Text.SplitAtSeparator(line, rest, '\n');
      FramedLines(codec, records[1..]);
    }
  }

  /** Reading a framed file back gives exactly the records appended to it. */
  lemma FramingRoundTrip<R(!new)>(codec: Codec<R>, records: seq<R>)
    requires Lawful(codec)
    ensures Map(codec.decode, Lines(Framed(codec, records))) == records
  {
    FramedLines(codec, records);
  }

  /** The reader that reverses and takes is the reversal of the reader that slices, except at limit zero. */
  lemma NewestIsReversedLast<T>(s: seq<T>, limit: nat)
    ensures SliceFirst(Reverse(s), limit) == Reverse(SliceLast(s, limit)) <==> limit > 0 || s == []
  {
    if limit > 0 || s == [] {
      assert SliceFirst(Reverse(s), limit) == Reverse(SliceLast(s, limit));
    }
  }

  /** One log file; `text` is absent until the first record is written. */
  class JsonlFile<R(!new)> {
    const codec: Codec<R>
    var text: Option<string>
    ghost var records: seq<R>

    ghost predicate Valid()
      reads this
    {
      && Lawful(codec)
      && (text == None ==> records == [])
      && (text.Some? ==> text.value == Framed(codec, records))
    }

    constructor (codec: Codec<R>)
      requires Lawful(codec)
      ensures Valid() && records == []
    {
      this.codec := codec;
      text := None;
      records := [];
    }

    /** `writeFileSync(file, JSON.stringify(record) + "\n", { flag: "a" })` */
    method Append(r: R)
      requires Valid()
      modifies this
      ensures Valid() && records == old(records) + [r]
    {
      FramedAppend(codec, records, r);
      var before := if text.Some? then text.value else "";
      text := Some(before + codec.encode(r) + "\n");
      records := records + [r];
    }

    /** The reader that ends in `slice(-limit).map(JSON.parse)`. */
    method ReadLast(limit: int) returns (r: seq<R>)
      requires Valid()
      ensures r == SliceLast(records, limit)
    {
      if text == None {
        return [];
      }
      FramingRoundTrip(codec, records);
      MapSliceLast(codec.decode, Lines(text.value), limit);
      r := Map(codec.decode, SliceLast(Lines(text.value), limit));
    }

    /** The reader that ends in `map(JSON.parse).reverse().slice(0, limit)`. */
    method ReadNewest(limit: int) returns (r: seq<R>)
      requires Valid()
      ensures r == SliceFirst(Reverse(records), limit)
    {
      if text == None {
        return [];
      }
      FramingRoundTrip(codec, records);
      r := SliceFirst(Reverse(Map(codec.decode, Lines(text.value))), limit);
    }
  }
}
