/** The rep bookkeeping of cv/datahandler.py: the workout table, `rep_summary`,
    and `run_workout`, which feeds the detector and summarises each rep it
    returns. */
module RepSummary {
  import opened Wrappers
  import opened RepDetector

  /** The dictionary `rep_summary` returns. */
  datatype Summary = Summary(
    minAngle: real,
    maxAngle: real,
    duration: real,
    rangeOfMotion: real,
    numFrames: nat)

  /** `min(angles)`: the smallest angle of a non-empty rep. */
  function MinAngle(rep: Rep): (m: real)
    requires |rep| > 0
    ensures forall i :: 0 <= i < |rep| ==> m <= rep[i].angle
    ensures exists i :: 0 <= i < |rep| && m == rep[i].angle
  {
    if |rep| == 1 then rep[0].angle
    else
      var rest := MinAngle(rep[1..]);
      assert forall i :: 1 <= i < |rep| ==> rep[i] == rep[1..][i - 1];
      if rep[0].angle <= rest then rep[0].angle else rest
  }

  /** `max(angles)`: the largest angle of a non-empty rep. */
  function MaxAngle(rep: Rep): (m: real)
    requires |rep| > 0
    ensures forall i :: 0 <= i < |rep| ==> rep[i].angle <= m
    ensures exists i :: 0 <= i < |rep| && m == rep[i].angle
  {
    if |rep| == 1 then rep[0].angle
    else
      var rest := MaxAngle(rep[1..]);
      assert forall i :: 1 <= i < |rep| ==> rep[i] == rep[1..][i - 1];
      if rep[0].angle >= rest then rep[0].angle else rest
  }

  /** `rep_summary(rep)`. The source calls `min`/`max` on the angles, which
      fail on an empty list, so the rep must be non-empty. */
  function Summarize(rep: Rep): (r: Summary)
    requires |rep| > 0
    ensures r.numFrames == |rep|
    ensures forall i :: 0 <= i < |rep| ==> r.minAngle <= rep[i].angle <= r.maxAngle
    ensures (exists i :: 0 <= i < |rep| && rep[i].angle == r.minAngle)
         && (exists j :: 0 <= j < |rep| && rep[j].angle == r.maxAngle)
    ensures r.minAngle <= r.maxAngle
    ensures r.rangeOfMotion == r.maxAngle - r.minAngle >= 0.0
    ensures r.duration * 1000.0 == Last(rep).timestamp - rep[0].timestamp
    ensures |rep| == 1 ==> r.duration == 0.0 && r.rangeOfMotion == 0.0
  {
    var lo := MinAngle(rep);
    var hi := MaxAngle(rep);
    Summary(lo, hi, (Last(rep).timestamp - rep[0].timestamp) / 1000.0, hi - lo, |rep|)
  }

  /** The summary of any rep the detector returns: its bottom is at or below
      the bottom threshold, its top at or above the top threshold, so its range
      of motion covers the whole hysteresis band. */
  lemma SummaryOfEmittedRep(config: Config, rep: Rep)
    requires SpansBand(config, rep)
    ensures |rep| > 0
    ensures var r := Summarize(rep);
      && r.minAngle <= config.minThreshold
      && r.maxAngle >= config.maxThreshold
      && r.rangeOfMotion >= config.maxThreshold - config.minThreshold
  {
    var i :| 0 <= i < |rep| && rep[i].angle <= config.minThreshold;
    var r := Summarize(rep);
    assert r.minAngle <= rep[i].angle;
    assert r.maxAngle >= rep[|rep| - 1].angle;
  }

  /** The pushup entry of `WORKOUT_TO_PARAMETERS`. */
  const Pushups: Config := Config(120.0, 145.0, ("left_elbow", "right_elbow"))

  /** `WORKOUT_TO_PARAMETERS[workout_type]`; `None` where the source raises `KeyError`. */
  function WorkoutParameters(workoutId: string): (r: Option<Config>)
    ensures r.Some? <==> workoutId == "pushups"
    ensures r.Some? ==>
      && r.value.minThreshold == 120.0 && r.value.maxThreshold == 145.0
      && r.value.joints == ("left_elbow", "right_elbow")
  {
    if workoutId == "pushups" then Some(Pushups) else None
  }

  /** The workout's module-level state: the lazily created `detector` and
      the list `reps` of every rep returned so far. */
  datatype Workout = Workout(detector: Option<Detector>, reps: seq<Rep>)

  /** The state before the first `run_workout` call. */
  const Fresh: Workout := Workout(None, [])

  ghost predicate WorkoutValid(w: Workout)
  {
    && (w.detector.Some? ==> Valid(w.detector.value))
    && (forall i :: 0 <= i < |w.reps| ==> |w.reps[i]| > 0)
  }

  datatype WorkoutStep = WorkoutStep(next: Workout, summary: Option<Summary>)

  /** The body of `run_workout` once the detector exists: feed it, and when it
      returns a rep, append the rep to `reps` and return its summary. The
      summary step cannot fail: every returned rep is non-empty. */
  function RecordTick(d: Detector, reps: seq<Rep>, angles: JointAngles, timestamp: real): (r: WorkoutStep)
    ensures r.next.detector == Some(Feed(d, angles, timestamp).next)
    ensures r.summary.Some? <==> Feed(d, angles, timestamp).rep.Some?
    ensures r.summary.Some? ==>
      var rep := Feed(d, angles, timestamp).rep.value;
      |rep| > 0 && r.next.reps == reps + [rep] && r.summary == Some(Summarize(rep))
    ensures r.summary.None? ==> r.next.reps == reps
  {
    var s := Feed(d, angles, timestamp);
    match s.rep
    case None => WorkoutStep(Workout(Some(s.next), reps), None)
    case Some(rep) =>
      WorkoutStep(Workout(Some(s.next), reps + [rep]), Some(Summarize(rep)))
  }

  /** `run_workout(joint_angles, timestamp)`. On the first call the detector is
      created from the stored workout id (`"pushups"` when the id is missing);
      an unknown id is the source's `KeyError`. */
  function RunWorkout(w: Workout, storedId: Option<string>, angles: JointAngles, timestamp: real)
    : (r: Result<WorkoutStep, string>)
    ensures r.Err? <==> w.detector.None? && WorkoutParameters(storedId.UnwrapOr("pushups")).None?
    ensures r.Ok? ==> r.value.next.detector.Some?
    ensures r.Ok? && WorkoutValid(w) ==> WorkoutValid(r.value.next)
    ensures r.Ok? && w.detector.Some? ==>
      r.value == RecordTick(w.detector.value, w.reps, angles, timestamp)
    ensures r.Ok? && w.detector.None? ==>
      r.value == RecordTick(Init(WorkoutParameters(storedId.UnwrapOr("pushups")).value), w.reps, angles, timestamp)
  {
    var maybeDetector :=
      if w.detector.Some? then w.detector
      else match WorkoutParameters(storedId.UnwrapOr("pushups"))
        case Some(config) => Some(Init(config))
        case None => None;
    match maybeDetector
    case None => Err(storedId.UnwrapOr("pushups"))
    case Some(d) =>
      FeedKeepsValid(d, angles, timestamp);
      Ok(RecordTick(d, w.reps, angles, timestamp))
  }

  /** The outcome of a sequence of `run_workout` calls. */
  datatype WorkoutTrace = WorkoutTrace(final: Workout, summaries: seq<Summary>)

  /** Calls `run_workout` once per tick on a detector that already exists,
      keeping the non-`None` results. */
  function RunWorkoutTrace(d: Detector, reps: seq<Rep>, ticks: seq<Tick>): (r: WorkoutTrace)
    ensures r.final.detector.Some?
    ensures |r.summaries| <= |ticks|
    decreases |ticks|
  {
    if ticks == [] then WorkoutTrace(Workout(Some(d), reps), [])
    else
      var step := RecordTick(d, reps, ticks[0].angles, ticks[0].timestamp);
      var rest := RunWorkoutTrace(step.next.detector.value, step.next.reps, ticks[1..]);
      WorkoutTrace(rest.final, (if step.summary.Some? then [step.summary.value] else []) + rest.summaries)
  }

  /** The summary of every rep, in order (the list `store_reps` writes out). */
  function SummarizeAll(reps: seq<Rep>): (r: seq<Summary>)
    requires forall i :: 0 <= i < |reps| ==> |reps[i]| > 0
    ensures |r| == |reps|
    ensures forall i :: 0 <= i < |reps| ==> r[i].numFrames == |reps[i]|
  {
    if reps == [] then []
    else [Summarize(reps[0])] + SummarizeAll(reps[1..])
  }

  /** Over a sequence of ticks, `reps` grows by exactly the reps the detector
      returns, in order, so `len(reps)` counts the non-`None` results. */
  lemma {:induction false} TraceRecordsDetectorReps(d: Detector, reps: seq<Rep>, ticks: seq<Tick>)
    ensures RunWorkoutTrace(d, reps, ticks).final == Workout(Some(Run(d, ticks).final), reps + Run(d, ticks).reps)
    decreases |ticks|
  {
    if ticks != [] {
      var s := Feed(d, ticks[0].angles, ticks[0].timestamp);
      var emitted := if s.rep.Some? then [s.rep.value] else [];
      TraceUnfold(d, reps, ticks);
      TraceRecordsDetectorReps(s.next, reps + emitted, ticks[1..]);
      var restRun := Run(s.next, ticks[1..]);
      assert reps + emitted + restRun.reps == reps + (emitted + restRun.reps);
    }
  }

  /** One step of a trace: the first tick's rep, if any, is recorded, and the
      rest of the trace continues from the fed detector. */
  lemma TraceUnfold(d: Detector, reps: seq<Rep>, ticks: seq<Tick>)
    requires ticks != []
    ensures var s := Feed(d, ticks[0].angles, ticks[0].timestamp);
      var emitted := if s.rep.Some? then [s.rep.value] else [];
      && RunWorkoutTrace(d, reps, ticks).final == RunWorkoutTrace(s.next, reps + emitted, ticks[1..]).final
      && Run(d, ticks) == Outcome(Run(s.next, ticks[1..]).final, emitted + Run(s.next, ticks[1..]).reps)
  {
    var s := Feed(d, ticks[0].angles, ticks[0].timestamp);
    var step := RecordTick(d, reps, ticks[0].angles, ticks[0].timestamp);
    assert step.next == Workout(Some(s.next), reps + (if s.rep.Some? then [s.rep.value] else []));
  }

  /** The results `run_workout` returns over a sequence of ticks are exactly
      the summaries of the reps the detector returns, in order. */
  lemma {:induction false} TraceReturnsSummaries(d: Detector, reps: seq<Rep>, ticks: seq<Tick>)
    ensures RunWorkoutTrace(d, reps, ticks).summaries == SummarizeAll(Run(d, ticks).reps)
    decreases |ticks|
  {
    if ticks != [] {
      var step := RecordTick(d, reps, ticks[0].angles, ticks[0].timestamp);
      var s := Feed(d, ticks[0].angles, ticks[0].timestamp);
      TraceReturnsSummaries(s.next, step.next.reps, ticks[1..]);
      var restRun := Run(s.next, ticks[1..]);
      var restTrace := RunWorkoutTrace(s.next, step.next.reps, ticks[1..]);
      if s.rep.Some? {
        assert Run(d, ticks).reps == [s.rep.value] + restRun.reps;
        assert ([s.rep.value] + restRun.reps)[1..] == restRun.reps;
        assert RunWorkoutTrace(d, reps, ticks).summaries == [Summarize(s.rep.value)] + restTrace.summaries;
      } else {
        assert Run(d, ticks).reps == restRun.reps;
        assert RunWorkoutTrace(d, reps, ticks).summaries == restTrace.summaries;
      }
    }
  }

  /** Joint angles with both elbows at `a` degrees. */
  function Elbows(a: real): JointAngles
  {
    map["left_elbow" := Some(a), "right_elbow" := Some(a)]
  }

  /** The pushup worked example: elbows at 110, 125, 145, 130, 115, 120, 140,
      150 degrees at 0, 100, ..., 700 ms. */
  const ScenarioTicks: seq<Tick> := [
    Tick(Elbows(110.0), 0.0), Tick(Elbows(125.0), 100.0), Tick(Elbows(145.0), 200.0),
    Tick(Elbows(130.0), 300.0), Tick(Elbows(115.0), 400.0), Tick(Elbows(120.0), 500.0),
    Tick(Elbows(140.0), 600.0), Tick(Elbows(150.0), 700.0)]

  /** The rep the worked example returns. */
  const ScenarioRep: Rep := [
    Sample(145.0, 200.0), Sample(130.0, 300.0), Sample(115.0, 400.0),
    Sample(120.0, 500.0), Sample(140.0, 600.0), Sample(150.0, 700.0)]

  /** The detector after the first `i` ticks of the worked example. */
  function ScenarioState(i: nat): Detector
    requires i <= 8
  {
    if i == 0 then Init(Pushups)
    else if i <= 2 then Detector(Pushups, WaitingTop, Some(if i == 1 then 110.0 else 125.0), [])
    else if i == 8 then Detector(Pushups, Descending, Some(150.0), [])
    else
      var phase := if i <= 4 then Descending else if i == 5 then BottomReached else Ascending;
      Detector(Pushups, phase, Some(ScenarioRep[i - 3].angle), ScenarioRep[..i - 2])
  }

  lemma ScenarioStep(i: nat)
    requires i < 8
    ensures Feed(ScenarioState(i), ScenarioTicks[i].angles, ScenarioTicks[i].timestamp)
      == Step(ScenarioState(i + 1), if i == 7 then Some(ScenarioRep) else None)
  {
    var d := ScenarioState(i);
    var t := ScenarioTicks[i];
    assert TrackedAngle(Pushups, t.angles) == Some(if i == 7 then 150.0 else if i == 0 then 110.0 else if i == 1 then 125.0 else ScenarioRep[i - 2].angle);
    if 3 <= i < 7 {
      assert ScenarioRep[..i - 2] + [ScenarioRep[i - 2]] == ScenarioRep[..i - 1];
    } else if i == 7 {
      assert ScenarioRep[..5] + [ScenarioRep[5]] == ScenarioRep;
    }
  }

  /** Feeding the worked example from its `i`-th tick on returns the rep only
      when the last tick is still ahead. */
  lemma {:induction false} ScenarioSuffix(i: nat, n: nat)
    requires i <= n && (n == 7 || n == 8)
    ensures Run(ScenarioState(i), ScenarioTicks[i..n]).reps == (if n == 8 && i < 8 then [ScenarioRep] else [])
    decreases n - i
  {
    if i < n {
      var ticks := ScenarioTicks[i..n];
      ScenarioStep(i);
      ScenarioSuffix(i + 1, n);
      assert ticks[0] == ScenarioTicks[i];
      assert ticks[1..] == ScenarioTicks[i + 1..n];
      var s := Feed(ScenarioState(i), ticks[0].angles, ticks[0].timestamp);
      var rest := Run(s.next, ticks[1..]);
      assert Run(ScenarioState(i), ticks).reps == (if s.rep.Some? then [s.rep.value] else []) + rest.reps;
      if i == 7 {
        assert rest.reps == [];
      }
    }
  }

  /** The summary of the worked example's rep. */
  lemma ScenarioSummary()
    ensures Summarize(ScenarioRep) == Summary(115.0, 150.0, 0.5, 35.0, 6)
  {
    var r := ScenarioRep;
    assert MinAngle(r[5..]) == 150.0 && MaxAngle(r[5..]) == 150.0;
    assert r[4..][1..] == r[5..];
    assert MinAngle(r[4..]) == 140.0 && MaxAngle(r[4..]) == 150.0;
    assert r[3..][1..] == r[4..];
    assert MinAngle(r[3..]) == 120.0 && MaxAngle(r[3..]) == 150.0;
    assert r[2..][1..] == r[3..];
    assert MinAngle(r[2..]) == 115.0 && MaxAngle(r[2..]) == 150.0;
    assert r[1..][1..] == r[2..];
    assert MinAngle(r[1..]) == 115.0 && MaxAngle(r[1..]) == 150.0;
    assert MinAngle(r) == 115.0 && MaxAngle(r) == 150.0;
  }

  /** The worked example returns exactly one rep, on the last (t = 700) tick:
      the six samples from the first top crossing at t = 200 on, with minimum
      115, maximum 150, range of motion 35 and a duration of half a second. */
  lemma PushupScenario()
    ensures |Run(Init(Pushups), ScenarioTicks[..7]).reps| == 0
    ensures Run(Init(Pushups), ScenarioTicks).reps == [ScenarioRep]
    ensures Summarize(Run(Init(Pushups), ScenarioTicks).reps[0]) == Summary(115.0, 150.0, 0.5, 35.0, 6)
  {
    ScenarioSuffix(0, 7);
    ScenarioSuffix(0, 8);
    assert ScenarioTicks[0..8] == ScenarioTicks;
    assert ScenarioTicks[0..7] == ScenarioTicks[..7];
    ScenarioSummary();
  }
}
