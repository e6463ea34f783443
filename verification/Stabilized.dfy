/** Stabilised writers: a document is rewritten only when something other than its time stamp
    changed. One writer for JSON documents, one for Markdown. */
module Stabilized {
  import opened Contract
  import opened Text

  type Bytes = string

  /** A JSON value below the top level; its inside does not matter here. */
  datatype Value = Scalar(text: string) | List(items: seq<Value>) | Nested(fields: map<string, Value>)

  type Payload = map<string, Value>

  /** `json.loads`: what a file parses to. */
  datatype Parsed = Malformed | NotDict | Dict(fields: Payload)

  /** The JSON library: `render` is `json.dumps(payload, indent=2, sort_keys=True) + "\n"`, `parse`
      is `json.loads`, `same` is Python's `==` on what it returns. */
  datatype Codec = Codec(render: Payload -> Bytes, parse: Bytes -> Parsed, same: (Payload, Payload) -> bool)

  /** Parsing undoes rendering, and a value equals itself (so no NaN). */
  ghost predicate Lawful(c: Codec) {
    forall p :: c.parse(c.render(p)) == Dict(p) && c.same(p, p)
  }

  const STAMP := "generated_utc"

  function WithoutStamp(p: Payload): Payload {
    p - {STAMP}
  }

  // ---- lines ----

  /** The characters `str.splitlines()` ends a line at; "\r\n" ends one line, not two. */
  predicate IsBreak(c: char) {
    var n := c as int;
    0x0A <= n <= 0x0D || 0x1C <= n <= 0x1E || n == 0x85 || n == 0x2028 || n == 0x2029
  }

  /** `text.splitlines()`, with the current line gathered in front. */
  function Lines(current: string, text: string): seq<string>
    decreases |text|
  {
    if text == "" then (if current == "" then [] else [current])
    else if IsBreak(text[0]) then
      [current] + Lines("", if "\r\n" <= text then text[2..] else text[1..])
    else Lines(current + [text[0]], text[1..])
  }

  function SplitLines(text: string): seq<string> {
    Lines("", text)
  }

  /** `[l for l in lines if not l.startswith(prefix)]` */
  function DropStamped(lines: seq<string>, prefix: string): seq<string> {
    if lines == [] then []
    else (if StartsWith(lines[0], prefix) then [] else [lines[0]]) + DropStamped(lines[1..], prefix)
  }

  // ---- the two writers ----

  datatype Format = JsonFormat | TextFormat(prefix: string)

  /** Whether a writer keeps the existing file rather than write the candidate. */
  predicate Kept(c: Codec, format: Format, existing: Bytes, candidate: Bytes) {
    match format
    case JsonFormat =>
      var e, d := c.parse(existing), c.parse(candidate);
      e.Dict? && d.Dict? && c.same(WithoutStamp(e.fields), WithoutStamp(d.fields))
    case TextFormat(prefix) =>
      DropStamped(SplitLines(existing), prefix) == DropStamped(SplitLines(candidate), prefix)
  }

  /** The content after a stabilised write. */
  function Written(c: Codec, format: Format, existing: Option<Bytes>, candidate: Bytes): Bytes {
    if existing.Some? && Kept(c, format, existing.value, candidate) then existing.value else candidate
  }

  class Tree {
    var files: map<string, Bytes>

    constructor (files: map<string, Bytes>)
      ensures this.files == files
    {
      this.files := files;
    }

    /** `_write_stabilized` */
    method WriteStabilized(c: Codec, path: string, payload: Payload) returns (wrote: bool)
      requires c.parse(c.render(payload)) == Dict(payload)
      modifies this
      ensures files == old(files)[path := Written(c, JsonFormat, Lookup(old(files), path), c.render(payload))]
      ensures wrote <==> !(path in old(files) && c.parse(old(files)[path]).Dict?
                           && c.same(WithoutStamp(c.parse(old(files)[path]).fields), WithoutStamp(payload)))
    {
      var text := c.render(payload);
      if path in files {
        var existing, candidate := c.parse(files[path]), c.parse(text);
        if existing.Dict? && candidate.Dict? && c.same(WithoutStamp(existing.fields), WithoutStamp(candidate.fields)) {
          assert files == files[path := files[path]];
          return false;
        }
      }
      files := files[path := text];
      wrote := true;
    }

    /** `_write_stabilized_text` */
    method WriteStabilizedText(c: Codec, path: string, text: string, prefix: string) returns (wrote: bool)
      modifies this
      ensures files == old(files)[path := Written(c, TextFormat(prefix), Lookup(old(files), path), text)]
    {
      if path in files {
        var existing, candidate := SplitLines(files[path]), SplitLines(text);
        if DropStamped(existing, prefix) == DropStamped(candidate, prefix) {
          assert files == files[path := files[path]];
          return false;
        }
      }
      files := files[path := text];
      wrote := true;
    }
  }

  function Lookup(files: map<string, Bytes>, path: string): Option<Bytes> {
    if path in files then Some(files[path]) else None
  }

  // ---- a candidate's standing does not depend on its stamp ----

  /** A document whose stamp sits on a line of its own. */
  function Stamped(before: string, prefix: string, stamp: string, after: string): string {
    before + (prefix + (stamp + ("\n" + after)))
  }

  predicate OneLine(s: string) {
    forall i | 0 <= i < |s| :: !IsBreak(s[i])
  }

  /** Text that ends in a newline, or is empty. */
  predicate WholeLines(s: string) {
    s == "" || s[|s| - 1] == '\n'
  }

  lemma {:induction false} LinesGather(current: string, line: string, rest: string)
    requires OneLine(line)
    ensures Lines(current, line + rest) == Lines(current + line, rest)
    decreases line
  {
    if line == "" {
      assert line + rest == rest && current + line == current;
    } else {
      assert (line + rest)[1..] == line[1..] + rest;
      assert !IsBreak((line + rest)[0]);
      LinesGather(current + [line[0]], line[1..], rest);
      assert current + [line[0]] + line[1..] == current + line;
    }
  }

  lemma {:induction false} LinesAppend(current: string, a: string, b: string)
    requires a != "" && a[|a| - 1] == '\n'
    ensures Lines(current, a + b) == Lines(current, a) + Lines("", b)
    decreases |a|
  {
    var t := a + b;
    if IsBreak(a[0]) {
      var k := if "\r\n" <= a then 2 else 1;
      assert t[0] == a[0] && "\r\n"[0] == '\r' && (|a| == 1 ==> a[0] == '\n');
      assert "\r\n" <= t <==> "\r\n" <= a;
      assert t[k..] == a[k..] + b;
      if a[k..] == "" {
        assert a[k..] + b == b;
        assert Lines(current, a) == [current] + [];
      } else {
        assert a[k..][|a[k..]| - 1] == '\n';
        LinesAppend("", a[k..], b);
        assert [current] + (Lines("", a[k..]) + Lines("", b)) == ([current] + Lines("", a[k..])) + Lines("", b);
      }
    } else {
      assert t[1..] == a[1..] + b;
      assert |a| > 1;
      LinesAppend(current + [a[0]], a[1..], b);
    }
  }

  lemma {:induction false} DropAppend(a: seq<string>, b: seq<string>, prefix: string)
    ensures DropStamped(a + b, prefix) == DropStamped(a, prefix) + DropStamped(b, prefix)
  {
    if a == [] {
      assert a + b == b;
    } else {
      assert (a + b)[1..] == a[1..] + b;
      DropAppend(a[1..], b, prefix);
    }
  }

  /** The lines of a stamped document outside its stamp line are those of its two parts. */
  lemma StampedLines(before: string, prefix: string, stamp: string, after: string)
    requires WholeLines(before) && OneLine(prefix) && OneLine(stamp)
    ensures DropStamped(SplitLines(Stamped(before, prefix, stamp, after)), prefix)
            == DropStamped(SplitLines(before), prefix) + DropStamped(SplitLines(after), prefix)
  {
    var line := prefix + stamp;
    var rest := line + ("\n" + after);
    assert prefix + (stamp + ("\n" + after)) == rest;
    LinesGather("", line, "\n" + after);
    assert "" + line == line;
    assert ("\n" + after)[1..] == after && !("\r\n" <= "\n" + after);
    assert SplitLines(rest) == [line] + SplitLines(after);
    assert StartsWith(line, prefix);
    assert ([line] + SplitLines(after))[1..] == SplitLines(after);
    assert DropStamped(SplitLines(rest), prefix) == DropStamped(SplitLines(after), prefix);
    if before == "" {
      assert before + rest == rest;
    } else {
      LinesAppend("", before, rest);
      DropAppend(SplitLines(before), SplitLines(rest), prefix);
    }
  }

  // ---- what a builder hands to a writer ----

  /** A document without its stamp: a record, or text around one stamp line. */
  datatype Draft = JsonDraft(body: Payload) | TextDraft(before: string, prefix: string, after: string)

  predicate WellFormed(d: Draft) {
    d.TextDraft? ==> WholeLines(d.before) && OneLine(d.prefix)
  }

  function FormatOf(d: Draft): Format {
    if d.JsonDraft? then JsonFormat else TextFormat(d.prefix)
  }

  function Render(c: Codec, d: Draft, stamp: string): Bytes {
    match d
    case JsonDraft(body) => c.render(body[STAMP := Scalar(stamp)])
    case TextDraft(before, prefix, after) => Stamped(before, prefix, stamp, after)
  }

  /** Whether an existing file survives is the same for every stamp the candidate may carry. */
  lemma StampBlind(c: Codec, d: Draft, existing: Bytes, s: string, t: string)
    requires Lawful(c) && WellFormed(d) && OneLine(s) && OneLine(t)
    ensures Kept(c, FormatOf(d), existing, Render(c, d, s)) == Kept(c, FormatOf(d), existing, Render(c, d, t))
  {
    match d
    case JsonDraft(body) =>
      assert WithoutStamp(body[STAMP := Scalar(s)]) == WithoutStamp(body);
      assert WithoutStamp(body[STAMP := Scalar(t)]) == WithoutStamp(body);
    case TextDraft(before, prefix, after) =>
      StampedLines(before, prefix, s, after);
      StampedLines(before, prefix, t, after);
  }

  /** Whatever was there before, the next candidate with the same body leaves alone what this
      write leaves behind. */
  lemma WrittenIsKept(c: Codec, d: Draft, existing: Option<Bytes>, s: string, t: string)
    requires Lawful(c) && WellFormed(d) && OneLine(s) && OneLine(t)
    ensures Kept(c, FormatOf(d), Written(c, FormatOf(d), existing, Render(c, d, s)), Render(c, d, t))
  {
    if existing.Some? {
      StampBlind(c, d, existing.value, s, t);
    }
    StampBlind(c, d, Render(c, d, s), s, t);
  }
}
