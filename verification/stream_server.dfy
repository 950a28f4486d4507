/** The request handling, the latest-frame slot and the capture loop of
    cv/cv_stream_server.py, with threads, the lock, sockets and sleeps taken
    away: each handler call, slot access and loop step is one sequential
    step. */
module StreamServer {
  import opened Wrappers
  import opened Decimal
  import opened MjpegPart

  /** A verb the handler defines no `do_` method for. */
  type OtherVerb = v: string | v != "GET" && v != "OPTIONS" witness "POST"

  /** The request verb, as far as the handler distinguishes it. */
  datatype Method = Get | Options | OtherMethod(name: OtherVerb)

  type Header = (string, string)

  /** What the handler sends before any body: the status, the headers it
      sets itself, and whether the part stream follows. */
  datatype Response = Response(status: nat, headers: seq<Header>, streams: bool)

  const StreamPath: string := "/cv-stream"

  /** `do_GET` (up to the polling loop), `do_OPTIONS`, and the base class's
      501 for any verb without a `do_` handler. `send_error` adds its own
      error-page headers, which are not part of this model. */
  function Handle(verb: Method, path: string): (r: Response)
    ensures r.streams <==> verb == Get && path == StreamPath
    ensures r.status == 404 <==> verb == Get && path != StreamPath
    ensures r.streams ==>
      && r.status == 200
      && ("Content-Type", StreamContentType) in r.headers
      && ("Access-Control-Allow-Origin", "*") in r.headers
    ensures verb == Options ==>
      && r.status == 204
      && ("Access-Control-Allow-Origin", "*") in r.headers
      && ("Access-Control-Allow-Methods", "GET, OPTIONS") in r.headers
    ensures verb.OtherMethod? ==> r.status == 501 && !r.streams
  {
    match verb
    case Get =>
      if path != StreamPath then Response(404, [], false)
      else Response(200, [
        ("Content-Type", StreamContentType),
        ("Cache-Control", "no-store"),
        ("Access-Control-Allow-Origin", "*")], true)
    case Options =>
      Response(204, [
        ("Access-Control-Allow-Origin", "*"),
        ("Access-Control-Allow-Methods", "GET, OPTIONS")], false)
    case OtherMethod(_) => Response(501, [], false)
  }

  /** `CVStreamServer._latest_jpeg`: a single slot, `None` until the first write. */
  datatype FrameSlot = FrameSlot(latest: Option<seq<byte>>)

  const EmptySlot: FrameSlot := FrameSlot(None)

  /** `set_latest_jpeg`: overwrite whatever the slot held. */
  function SetLatest(slot: FrameSlot, data: seq<byte>): (r: FrameSlot)
    ensures GetLatest(r) == Some(data)
  {
    FrameSlot(Some(data))
  }

  /** `get_latest_jpeg`: read without consuming; there is nothing to read
      only while no frame was ever stored. */
  function GetLatest(slot: FrameSlot): (r: Option<seq<byte>>)
    ensures r.None? <==> slot == EmptySlot
  {
    slot.latest
  }

  /** A sequence of writes, in order. */
  function SetAll(slot: FrameSlot, writes: seq<seq<byte>>): FrameSlot
    decreases |writes|
  {
    if writes == [] then slot else SetAll(SetLatest(slot, writes[0]), writes[1..])
  }

  /** Last write wins: after any writes a read returns the most recent one,
      and earlier unread values are gone; with no writes the slot is unchanged. */
  lemma {:induction false} LastWriteWins(slot: FrameSlot, writes: seq<seq<byte>>)
    ensures GetLatest(SetAll(slot, writes)) == if writes == [] then GetLatest(slot) else Some(Last(writes))
    decreases |writes|
  {
    if |writes| > 1 {
      LastWriteWins(SetLatest(slot, writes[0]), writes[1..]);
      assert Last(writes[1..]) == Last(writes);
    }
  }

  /** One call of `produce_combined_frame` followed by the encoding: either a
      frame, already encoded (an empty payload when encoding failed), with the
      `cont` flag, or an exception. */
  datatype CameraStep = Frame(jpeg: seq<byte>, cont: bool) | Raised

  /** How `run_cv_loop` ended, if it did. */
  datatype LoopEnd =
    | InitFailed    // `create_view_core` raised RuntimeError: return before the loop
    | Stopped       // a step reported `cont == False`
    | Crashed       // a step raised; `finally` still closes
    | StillRunning  // every step seen so far continued

  datatype LoopResult = LoopResult(slot: FrameSlot, published: seq<seq<byte>>, closes: nat, end: LoopEnd)

  /** The payloads published before the first step that does not continue. */
  function Pump(steps: seq<CameraStep>): (r: (seq<seq<byte>>, LoopEnd))
    ensures r.1 != InitFailed
    ensures |r.0| <= |steps|
    ensures r.1 == StillRunning ==> |r.0| == |steps|
    ensures forall i :: 0 <= i < |r.0| ==> steps[i] == Frame(r.0[i], true)
    ensures |r.0| < |steps| ==>
      && (steps[|r.0|] == Raised <==> r.1 == Crashed)
      && (steps[|r.0|] != Raised ==> !steps[|r.0|].cont && r.1 == Stopped)
    decreases |steps|
  {
    if steps == [] then ([], StillRunning)
    else match steps[0]
      case Raised => ([], Crashed)
      case Frame(jpeg, cont) =>
        if !cont then ([], Stopped)
        else
          var rest := Pump(steps[1..]);
          ([jpeg] + rest.0, rest.1)
  }

  /** `run_cv_loop(server, camera_id)` over the steps the camera produces:
      every successful step publishes its frame; the loop stops at the first
      step with `cont == False` (that frame is not published) or the first
      step that raises; the core is closed once on every exit after a
      successful init and never when init failed. */
  function RunCvLoop(slot: FrameSlot, initOk: bool, steps: seq<CameraStep>): (r: LoopResult)
    ensures !initOk ==> r == LoopResult(slot, [], 0, InitFailed)
    ensures initOk ==> r.end != InitFailed
    // the published frames are exactly the leading run of continuing steps
    ensures initOk ==> |r.published| <= |steps|
    ensures initOk ==> forall i :: 0 <= i < |r.published| ==> steps[i] == Frame(r.published[i], true)
    ensures initOk && |r.published| < |steps| ==>
      && (steps[|r.published|].Raised? || !steps[|r.published|].cont)
      && (r.end == Crashed <==> steps[|r.published|] == Raised)
    ensures initOk && r.end == StillRunning ==> |r.published| == |steps|
    ensures r.closes == 1 <==> initOk && r.end != StillRunning
    ensures r.closes <= 1
    ensures r.slot == SetAll(slot, r.published)
  {
    if !initOk then LoopResult(slot, [], 0, InitFailed)
    else
      var (published, end) := Pump(steps);
      LoopResult(SetAll(slot, published), published, if end == StillRunning then 0 else 1, end)
  }

  /** After the loop, a reader sees the last published frame, or what the slot
      held before if nothing was published. */
  lemma LoopLeavesLastFrame(slot: FrameSlot, initOk: bool, steps: seq<CameraStep>)
    ensures var r := RunCvLoop(slot, initOk, steps);
      GetLatest(r.slot) == if r.published == [] then GetLatest(slot) else Some(Last(r.published))
  {
    LastWriteWins(slot, RunCvLoop(slot, initOk, steps).published);
  }
}
