/** The MJPEG framing of cv/cv_stream_server.py: the bytes written for one
    poll of the latest JPEG, and a reader that recovers the payloads from the
    written stream. */
module MjpegPart {
  import opened Wrappers
  import opened Decimal

  /** `MJPEG_BOUNDARY`. */
  const Boundary: string := "frame"

  /** The `Content-Type` of the `/cv-stream` response. */
  const StreamContentType: string := "multipart/x-mixed-replace; boundary=" + Boundary

  const Crlf: seq<byte> := [13, 10]

  /** The delimiter line that opens every part: `--` and the boundary. */
  const DelimiterLine: seq<byte> := Ascii("--" + Boundary + "\r\n")

  /** Everything of a part before the decimal length: the delimiter line and
      the part's headers up to `Content-Length: `. */
  function PartHead(): seq<byte>
  {
    DelimiterLine + Ascii("Content-Type: image/jpeg\r\nContent-Length: ")
  }

  /** The four writes of one poll with a non-empty payload: the delimiter
      line, the two part headers and a blank line, the payload, and a
      closing `\r\n`. */
  function Part(jpeg: seq<byte>): (r: seq<byte>)
    ensures |r| >= |DelimiterLine| + |jpeg| + 2
    ensures r[..|DelimiterLine|] == DelimiterLine
    ensures r[|r| - 2..] == Crlf
    ensures r[|r| - 2 - |jpeg|..|r| - 2] == jpeg
  {
    PartHead() + Digits(|jpeg|) + Crlf + Crlf + jpeg + Crlf
  }

  /** What one poll writes: nothing when the slot holds `None` or an empty
      payload (both are falsy in `if jpeg:`), else one part. */
  function PollWrite(latest: Option<seq<byte>>): (r: seq<byte>)
    ensures r == [] <==> latest.None? || latest.value == []
    ensures r != [] ==> r == Part(latest.value)
  {
    match latest
    case Some(jpeg) => if jpeg == [] then [] else Part(jpeg)
    case None => []
  }

  /** Reads one part off the front of `bs`: the payload and what follows it,
      or `None` when `bs` does not start with a well-formed part. */
  function ParsePart(bs: seq<byte>): (r: Option<(seq<byte>, seq<byte>)>)
    ensures r.Some? ==> |r.value.1| < |bs|
  {
    var head := PartHead();
    if |bs| < |head| || bs[..|head|] != head then None
    else
      var rest := bs[|head|..];
      var k := DigitRun(rest);
      if k == 0 then None
      else
        var n := ValueOf(rest[..k]);
        var body := rest[k..];
        if |body| < n + 6 || body[..4] != Crlf + Crlf || body[n + 4..n + 6] != Crlf then None
        else Some((body[4..n + 4], body[n + 6..]))
  }

  /** A part is read back as its payload, leaving what follows untouched. */
  lemma PartRoundTrip(jpeg: seq<byte>, tail: seq<byte>)
    ensures ParsePart(Part(jpeg) + tail) == Some((jpeg, tail))
  {
    var head := PartHead();
    var ds := Digits(|jpeg|);
    var body := Crlf + Crlf + jpeg + Crlf + tail;
    PartLayout(jpeg, tail);
    SplitAt(head, ds + body);
    SplitAt(ds, body);
    DigitRunStops(ds, body);
    DigitsRoundTrip(|jpeg|);
    BodyLayout(jpeg, tail);
  }

  /** A part followed by anything, cut where the reader cuts it. */
  lemma PartLayout(jpeg: seq<byte>, tail: seq<byte>)
    ensures Part(jpeg) + tail == PartHead() + (Digits(|jpeg|) + (Crlf + Crlf + jpeg + Crlf + tail))
  {
    ConcatRegroup(PartHead(), Digits(|jpeg|), Crlf, jpeg, tail);
  }

  lemma ConcatRegroup<T>(head: seq<T>, ds: seq<T>, crlf: seq<T>, jpeg: seq<T>, tail: seq<T>)
    ensures head + ds + crlf + crlf + jpeg + crlf + tail == head + (ds + (crlf + crlf + jpeg + crlf + tail))
  {
  }

  /** What follows the length: the blank line, the payload, CRLF, the rest. */
  lemma BodyLayout(jpeg: seq<byte>, tail: seq<byte>)
    ensures var body := Crlf + Crlf + jpeg + Crlf + tail;
      && |body| >= |jpeg| + 6
      && body[..4] == Crlf + Crlf
      && body[|jpeg| + 4..|jpeg| + 6] == Crlf
      && body[4..|jpeg| + 4] == jpeg
      && body[|jpeg| + 6..] == tail
  {
  }

  lemma SplitAt<T>(a: seq<T>, b: seq<T>)
    ensures (a + b)[..|a|] == a && (a + b)[|a|..] == b
  {
  }

  /** Everything written to one client over a sequence of polls. */
  function StreamBody(polls: seq<Option<seq<byte>>>): (r: seq<byte>)
    ensures r == [] <==> forall i :: 0 <= i < |polls| ==> polls[i].None? || polls[i].value == []
  {
    if polls == [] then [] else PollWrite(polls[0]) + StreamBody(polls[1..])
  }

  /** The payloads a sequence of polls actually sends, in order. */
  function Delivered(polls: seq<Option<seq<byte>>>): seq<seq<byte>>
  {
    if polls == [] then []
    else if PollWrite(polls[0]) == [] then Delivered(polls[1..])
    else [polls[0].value] + Delivered(polls[1..])
  }

  /** Reads a whole stream as a sequence of parts. */
  function ParseStream(bs: seq<byte>): Option<seq<seq<byte>>>
    decreases |bs|
  {
    if bs == [] then Some([])
    else
      match ParsePart(bs)
      case None => None
      case Some((jpeg, rest)) =>
        match ParseStream(rest)
        case None => None
        case Some(more) => Some([jpeg] + more)
  }

  /** A client reading the stream recovers every non-empty payload the
      handler saw, in the order it saw them, and nothing else. */
  lemma {:induction false} StreamRoundTrip(polls: seq<Option<seq<byte>>>)
    ensures ParseStream(StreamBody(polls)) == Some(Delivered(polls))
    decreases |polls|
  {
    if polls != [] {
      StreamRoundTrip(polls[1..]);
      var w := PollWrite(polls[0]);
      if w != [] {
        PartRoundTrip(polls[0].value, StreamBody(polls[1..]));
      } else {
        assert StreamBody(polls) == StreamBody(polls[1..]);
      }
    }
  }
}
