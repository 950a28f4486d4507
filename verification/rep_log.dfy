/** `get_rep_count` of front/src-tauri/src/lib.rs: the aggregation of the
    reps log, one JSON object per line. Reading the file is a parameter (its
    text, or `None` when it is missing or unreadable) and so is JSON parsing:
    `parse` is any partial function from a line to its decoded entry. */
module RepLog {
  import opened Wrappers

  /** `RepLogEntry`: both fields optional; the summary is an opaque JSON value. */
  datatype RepLogEntry<J> = RepLogEntry(timestampMs: Option<nat>, summary: Option<J>)

  /** `RepCountResult`. */
  datatype RepCount<J> = RepCount(count: nat, lastSummary: Option<J>, repTimestamps: seq<nat>)

  const U32Modulus: nat := 0x1_0000_0000

  /** The index of the first `'\n'`, or `|s|` when there is none. */
  function LineEnd(s: string): (k: nat)
    ensures k <= |s|
    ensures forall i :: 0 <= i < k ==> s[i] != '\n'
    ensures k < |s| ==> s[k] == '\n'
  {
    if s == [] || s[0] == '\n' then 0
    else 1 + LineEnd(s[1..])
  }

  /** A line that ended with `'\n'` also loses one trailing `'\r'`. */
  function StripCr(line: string): string
  {
    if line != [] && line[|line| - 1] == '\r' then line[..|line| - 1] else line
  }

  /** `str::lines`: split at each `'\n'` (dropping a `'\r'` just before it);
      a final line without `'\n'` is kept as it is, and a trailing `'\n'`
      does not start an empty last line. */
  function Lines(s: string): (r: seq<string>)
    ensures |r| <= |s|
    decreases |s|
  {
    if s == [] then []
    else
      var k := LineEnd(s);
      if k == |s| then [s]
      else [StripCr(s[..k])] + Lines(s[k + 1..])
  }

  predicate NoBreak(line: string)
  {
    forall j :: 0 <= j < |line| ==> line[j] != '\n'
  }

  /** No line holds a line break. */
  lemma {:induction false} LinesHaveNoBreaks(s: string)
    ensures forall i :: 0 <= i < |Lines(s)| ==> NoBreak(Lines(s)[i])
    decreases |s|
  {
    if s != [] {
      var k := LineEnd(s);
      if k < |s| {
        LinesHaveNoBreaks(s[k + 1..]);
        FirstLineNoBreak(s, k);
      }
    }
  }

  lemma FirstLineNoBreak(s: string, k: nat)
    requires k == LineEnd(s) < |s|
    ensures NoBreak(StripCr(s[..k]))
  {
    var line := StripCr(s[..k]);
    assert forall j :: 0 <= j < |line| ==> line[j] == s[j];
  }

  /** One line: with `"\n"` it loses a trailing `'\r'`, with `"\r\n"` it is
      kept as it is, and without a terminator it is kept when non-empty. */
  lemma OneLine(line: string)
    requires NoBreak(line)
    ensures Lines(line + "\n") == [StripCr(line)]
    ensures Lines(line + "\r\n") == [line]
    ensures line != [] ==> Lines(line) == [line]
  {
    var lf := line + "\n";
    LineEndAt(lf, |line|);
    assert lf[..|line|] == line && lf[|line| + 1..] == [];
    var crlf := line + "\r\n";
    LineEndAt(crlf, |line| + 1);
    assert crlf[..|line| + 1] == line + "\r" && crlf[|line| + 2..] == [];
    assert StripCr(line + "\r") == line;
    if line != [] {
      LineEndNone(line);
    }
  }

  lemma {:induction false} LineEndNone(s: string)
    requires NoBreak(s)
    ensures LineEnd(s) == |s|
    decreases |s|
  {
    if s != [] {
      LineEndNone(s[1..]);
    }
  }

  /** Text that ends at a line break (or is empty) splits independently of
      what is appended after it. */
  lemma {:induction false} LinesAppend(a: string, b: string)
    requires a == [] || Last(a) == '\n'
    ensures Lines(a + b) == Lines(a) + Lines(b)
    decreases |a|
  {
    if a == [] {
      assert a + b == b;
    } else {
      var k := LineEnd(a);
      LineEndPrefix(a, b);
      SplitAfterBreak(a, b, k);
      LinesAppend(a[k + 1..], b);
    }
  }

  /** The pieces of `a + b` around the first line break of `a`. */
  lemma SplitAfterBreak(a: string, b: string, k: nat)
    requires k < |a| && Last(a) == '\n'
    ensures (a + b)[..k] == a[..k]
    ensures (a + b)[k + 1..] == a[k + 1..] + b
    ensures a[k + 1..] == [] || Last(a[k + 1..]) == '\n'
  {
  }

  lemma {:induction false} LineEndPrefix(a: string, b: string)
    requires LineEnd(a) < |a|
    ensures LineEnd(a + b) == LineEnd(a)
    decreases |a|
  {
    if a[0] != '\n' {
      assert (a + b)[1..] == a[1..] + b;
      LineEndPrefix(a[1..], b);
    }
  }

  /** The first `'\n'` is the one after a newline-free prefix. */
  lemma {:induction false} LineEndAt(s: string, k: nat)
    requires k < |s| && s[k] == '\n'
    requires forall i :: 0 <= i < k ==> s[i] != '\n'
    ensures LineEnd(s) == k
    decreases k
  {
    if k > 0 {
      LineEndAt(s[1..], k - 1);
    }
  }

  /** The lines that `filter(|s| !s.is_empty())` keeps. */
  function NonEmpty(lines: seq<string>): (r: seq<string>)
    ensures |r| <= |lines|
    ensures forall i :: 0 <= i < |r| ==> r[i] != [] && r[i] in lines
    ensures forall x :: x in lines && x != [] ==> x in r
  {
    if lines == [] then []
    else if lines[0] == [] then NonEmpty(lines[1..])
    else [lines[0]] + NonEmpty(lines[1..])
  }

  lemma {:induction false} NonEmptyAppend(a: seq<string>, b: seq<string>)
    ensures NonEmpty(a + b) == NonEmpty(a) + NonEmpty(b)
    decreases |a|
  {
    if a == [] {
      assert a + b == b;
    } else {
      assert (a + b)[1..] == a[1..] + b;
      NonEmptyAppend(a[1..], b);
    }
  }

  /** The timestamp a line contributes: present when it parses and has one. */
  function TimestampOf<J>(line: string, parse: string -> Option<RepLogEntry<J>>): (r: seq<nat>)
    ensures |r| <= 1
    ensures r != [] <==> parse(line).Some? && parse(line).value.timestampMs.Some?
    ensures r != [] ==> r[0] == parse(line).value.timestampMs.value
  {
    match parse(line)
    case Some(RepLogEntry(Some(ts), _)) => [ts]
    case _ => []
  }

  /** The `rep_timestamps` loop over the given lines, in order. */
  function Timestamps<J>(lines: seq<string>, parse: string -> Option<RepLogEntry<J>>): (r: seq<nat>)
    ensures |r| <= |lines|
    ensures (forall i :: 0 <= i < |lines| ==> parse(lines[i]).None?) ==> r == []
    ensures forall i :: 0 <= i < |lines| && TimestampOf(lines[i], parse) != [] ==>
      TimestampOf(lines[i], parse)[0] in r
  {
    if lines == [] then [] else TimestampOf(lines[0], parse) + Timestamps(lines[1..], parse)
  }

  lemma {:induction false} TimestampsAppend<J>(a: seq<string>, b: seq<string>, parse: string -> Option<RepLogEntry<J>>)
    ensures Timestamps(a + b, parse) == Timestamps(a, parse) + Timestamps(b, parse)
    decreases |a|
  {
    if a == [] {
      assert a + b == b;
    } else {
      assert (a + b)[1..] == a[1..] + b;
      TimestampsAppend(a[1..], b, parse);
    }
  }

  /** The `summary` of a line: present when it parses and has one. */
  function SummaryOf<J>(line: string, parse: string -> Option<RepLogEntry<J>>): (r: Option<J>)
    ensures r.Some? <==> parse(line).Some? && parse(line).value.summary.Some?
    ensures r.Some? ==> r == parse(line).value.summary
  {
    match parse(line)
    case Some(entry) => entry.summary
    case None => None
  }

  /** The aggregation over the non-empty lines: the count cast to `u32`, the
      timestamps of the lines that parse and carry one, and the summary of
      the last line only. */
  function Aggregate<J>(lines: seq<string>, parse: string -> Option<RepLogEntry<J>>): (r: RepCount<J>)
    ensures r.count < U32Modulus
    ensures r.count == |lines| % U32Modulus
    ensures |r.repTimestamps| <= |lines|
    ensures r.lastSummary.Some? ==> lines != []
    ensures lines != [] ==> r.lastSummary == SummaryOf(Last(lines), parse)
    ensures r.repTimestamps == Timestamps(lines, parse)
  {
    var last := if lines == [] then None else SummaryOf(Last(lines), parse);
    RepCount(|lines| % U32Modulus, last, Timestamps(lines, parse))
  }

  /** One more line adds one to the count (wrapping at 2^32), appends that
      line's timestamp if it has one, and replaces the last summary by its own. */
  lemma AggregateAppend<J>(lines: seq<string>, line: string, parse: string -> Option<RepLogEntry<J>>)
    ensures var before := Aggregate(lines, parse);
      var after := Aggregate(lines + [line], parse);
      && after.count == (if before.count + 1 == U32Modulus then 0 else before.count + 1)
      && after.repTimestamps == before.repTimestamps + TimestampOf(line, parse)
      && after.lastSummary == SummaryOf(line, parse)
  {
    TimestampsAppend(lines, [line], parse);
    assert Timestamps([line], parse) == TimestampOf(line, parse) + [];
    assert Last(lines + [line]) == line;
    U32Succ(|lines|);
  }

  /** `get_rep_count()` given the log's text: nothing when the log cannot be
      read, else the aggregation over its non-empty lines (unparseable ones
      included). */
  function GetRepCount<J>(content: Option<string>, parse: string -> Option<RepLogEntry<J>>): (r: RepCount<J>)
    ensures content.None? ==> r == RepCount(0, None, [])
    ensures content.Some? ==> r.count == |NonEmpty(Lines(content.value))| % U32Modulus
    ensures r.count < U32Modulus
    ensures content.Some? ==> |r.repTimestamps| <= |NonEmpty(Lines(content.value))|
    ensures r.lastSummary.Some? ==> content.Some? && NonEmpty(Lines(content.value)) != []
    ensures content.Some? && NonEmpty(Lines(content.value)) != [] ==>
      r.lastSummary == SummaryOf(Last(NonEmpty(Lines(content.value))), parse)
    ensures content.Some? ==> r.repTimestamps == Timestamps(NonEmpty(Lines(content.value)), parse)
  {
    match content
    case None => RepCount(0, None, [])
    case Some(text) => Aggregate(NonEmpty(Lines(text)), parse)
  }

  /** Appending one complete non-empty line to the log increments the count
      (wrapping at 2^32), appends that line's timestamp if it has one, and
      makes that line's summary the last summary; the earlier lines matter
      only through the count and the timestamps. */
  lemma AppendLine<J>(text: string, line: string, parse: string -> Option<RepLogEntry<J>>)
    requires text == [] || Last(text) == '\n'
    requires line != [] && Last(line) != '\r'
    requires forall i :: 0 <= i < |line| ==> line[i] != '\n'
    ensures var before := GetRepCount(Some(text), parse);
      var after := GetRepCount(Some(text + line + "\n"), parse);
      && after.count == (if before.count + 1 == U32Modulus then 0 else before.count + 1)
      && after.repTimestamps == before.repTimestamps + TimestampOf(line, parse)
      && after.lastSummary == SummaryOf(line, parse)
  {
    NonEmptyLinesOfAppend(text, line);
    AggregateAppend(NonEmpty(Lines(text)), line, parse);
  }

  /** Adding one commutes with the `as u32` truncation. */
  lemma U32Succ(n: nat)
    ensures (n + 1) % U32Modulus == (if n % U32Modulus + 1 == U32Modulus then 0 else n % U32Modulus + 1)
  {
  }

  /** The non-empty lines after appending one complete line. */
  lemma NonEmptyLinesOfAppend(text: string, line: string)
    requires text == [] || Last(text) == '\n'
    requires line != [] && Last(line) != '\r'
    requires forall i :: 0 <= i < |line| ==> line[i] != '\n'
    ensures NonEmpty(Lines(text + line + "\n")) == NonEmpty(Lines(text)) + [line]
  {
    var appended := line + "\n";
    assert text + line + "\n" == text + appended;
    LinesAppend(text, appended);
    LineEndAt(appended, |line|);
    assert appended[..|line|] == line;
    assert appended[|line| + 1..] == [];
    assert Lines(appended) == [line];
    NonEmptyAppend(Lines(text), [line]);
    assert NonEmpty([line]) == [line] + NonEmpty([]);
  }

  /** A blank line, `"\n"` or `"\r\n"`, appended to the log changes nothing:
      it is neither counted nor parsed. */
  lemma BlankLineSkipped<J>(text: string, blank: string, parse: string -> Option<RepLogEntry<J>>)
    requires text == [] || Last(text) == '\n'
    requires blank == "\n" || blank == "\r\n"
    ensures GetRepCount(Some(text + blank), parse) == GetRepCount(Some(text), parse)
  {
    LinesAppend(text, blank);
    OneLine([]);
    assert [] + "\n" == "\n" && [] + "\r\n" == "\r\n";
    assert Lines(blank) == [[]];
    NonEmptyAppend(Lines(text), [[]]);
    assert NonEmpty([[]]) == [];
    assert NonEmpty(Lines(text)) + [] == NonEmpty(Lines(text));
  }
}
