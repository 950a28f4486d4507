/** The hysteresis repetition detector `SimpleRepDetector`
    (quantprocess/RepTracker.py, duplicated verbatim in cv/datahandler.py).

    The detector tracks the mean of two joint angles and walks a four-phase
    machine: wait for the top, descend to the bottom threshold, wait for the
    angle to rise, and close the rep when the top threshold is reached again.
    Each valid tick after the first top crossing is recorded as a sample of
    the rep in progress. */
module RepDetector {
  import opened Wrappers

  /** The four phases (the class constants 0..3). */
  datatype Phase = WaitingTop | Descending | BottomReached | Ascending

  /** One `{"angle": ..., "timestamp": ...}` entry of a rep. */
  datatype Sample = Sample(angle: real, timestamp: real)

  type Rep = seq<Sample>

  /** Joint name to angle in degrees. A missing key and a key mapped to
      `None` are both "absent", as `dict.get` returning `None` is. */
  type JointAngles = map<string, Option<real>>

  /** Constructor arguments: the hysteresis band and the two tracked joints. */
  datatype Config = Config(minThreshold: real, maxThreshold: real, joints: (string, string))

  /** The detector's fields: `state`, `prev_angle`, `current_rep`. */
  datatype Detector = Detector(config: Config, phase: Phase, prevAngle: Option<real>, currentRep: Rep)

  /** What one call of `feed` leaves behind and returns. */
  datatype Step = Step(next: Detector, rep: Option<Rep>)

  /** One call of `feed`: its joint angles and timestamp. */
  datatype Tick = Tick(angles: JointAngles, timestamp: real)

  function Lookup(angles: JointAngles, joint: string): Option<real>
  {
    if joint in angles then angles[joint] else None
  }

  /** `_get_angle`: the mean of the two tracked joints, absent if either is. */
  function TrackedAngle(config: Config, angles: JointAngles): (r: Option<real>)
    ensures r.Some? <==> Lookup(angles, config.joints.0).Some? && Lookup(angles, config.joints.1).Some?
    ensures r.Some? ==>
      var a, b := Lookup(angles, config.joints.0).value, Lookup(angles, config.joints.1).value;
      r.value - a == b - r.value && (a <= r.value <= b || b <= r.value <= a)
  {
    match (Lookup(angles, config.joints.0), Lookup(angles, config.joints.1))
    case (Some(a), Some(b)) => Some((a + b) / 2.0)
    case _ => None
  }

  /** True when some sample of the rep is at or below the bottom threshold. */
  ghost predicate ReachedBottom(config: Config, rep: Rep)
  {
    exists i :: 0 <= i < |rep| && rep[i].angle <= config.minThreshold
  }

  /** A rep that spans the hysteresis band: non-empty, closed by a sample at or
      above the top threshold, and containing a sample at or below the bottom
      threshold. */
  ghost predicate SpansBand(config: Config, rep: Rep)
  {
    && |rep| > 0
    && Last(rep).angle >= config.maxThreshold
    && ReachedBottom(config, rep)
  }

  /** Appending a sample keeps a bottom witness, and a sample at or below the
      bottom threshold is one. */
  lemma ReachedBottomAppend(config: Config, rep: Rep, s: Sample)
    ensures ReachedBottom(config, rep) || s.angle <= config.minThreshold ==>
      ReachedBottom(config, rep + [s])
  {
    if s.angle <= config.minThreshold {
      assert (rep + [s])[|rep|] == s;
    } else if ReachedBottom(config, rep) {
      var i :| 0 <= i < |rep| && rep[i].angle <= config.minThreshold;
      assert (rep + [s])[i] == rep[i];
    }
  }

  /** The invariant every reachable detector state satisfies. */
  ghost predicate Valid(d: Detector)
  {
    // nothing is accumulated before the first top crossing
    && (d.phase == WaitingTop ==> d.currentRep == [])
    // leaving WaitingTop needs a previous angle, which is never cleared
    && (d.phase != WaitingTop ==> d.prevAngle.Some?)
    // the previous angle is the angle of the last accumulated sample
    && (d.currentRep != [] ==> d.prevAngle == Some(Last(d.currentRep).angle))
    // from the bottom on, the rep in progress has touched the bottom threshold
    && (d.phase == BottomReached || d.phase == Ascending ==> ReachedBottom(d.config, d.currentRep))
  }

  /** `__init__`: a fresh detector. */
  function Init(config: Config): (d: Detector)
    ensures Valid(d) && d.config == config
    ensures d.phase == WaitingTop && d.prevAngle.None? && d.currentRep == []
  {
    Detector(config, WaitingTop, None, [])
  }

  /** `feed` once the tracked angle is known (`None` when a joint is absent). */
  function FeedAngle(d: Detector, angle: Option<real>, timestamp: real): (r: Step)
    ensures r.next.config == d.config
    // an absent angle changes nothing and returns nothing
    ensures angle.None? ==> r == Step(d, None)
    // the first valid angle only seeds the previous angle
    ensures angle.Some? && d.prevAngle.None? ==>
      r == Step(d.(prevAngle := angle), None)
    // after any valid tick the previous angle is that tick's angle
    ensures angle.Some? ==> r.next.prevAngle == angle
    // WaitingTop is left exactly at the top threshold, with that tick as the first sample
    ensures angle.Some? && d.prevAngle.Some? && d.phase == WaitingTop ==>
      && r.rep.None?
      && (r.next.phase == Descending <==> angle.value >= d.config.maxThreshold)
      && (r.next.phase == Descending ==> r.next.currentRep == [Sample(angle.value, timestamp)])
      && (r.next.phase != Descending ==> r.next == d.(prevAngle := angle))
    // past WaitingTop every valid tick records exactly one sample, in order
    ensures angle.Some? && d.prevAngle.Some? && d.phase != WaitingTop ==>
      d.currentRep + [Sample(angle.value, timestamp)] ==
        (if r.rep.Some? then r.rep.value + r.next.currentRep else r.next.currentRep)
    ensures angle.Some? && d.prevAngle.Some? && d.phase == Descending ==>
      r.rep.None? && (r.next.phase == BottomReached <==> angle.value <= d.config.minThreshold)
      && (r.next.phase == Descending || r.next.phase == BottomReached)
    ensures angle.Some? && d.prevAngle.Some? && d.phase == BottomReached ==>
      r.rep.None? && (r.next.phase == Ascending <==> angle.value > d.prevAngle.value)
      && (r.next.phase == BottomReached || r.next.phase == Ascending)
    // a rep is returned only from Ascending at the top, and the detector re-arms to Descending
    ensures r.rep.Some? <==>
      angle.Some? && d.prevAngle.Some? && d.phase == Ascending && angle.value >= d.config.maxThreshold
    ensures r.rep.Some? ==> r.next.phase == Descending && r.next.currentRep == []
    ensures angle.Some? && d.prevAngle.Some? && d.phase == Ascending && r.rep.None? ==>
      r.next.phase == Ascending
    ensures r.rep.Some? ==> r.rep.value == d.currentRep + [Sample(angle.value, timestamp)]
    // WaitingTop is never re-entered
    ensures r.next.phase == WaitingTop ==> d.phase == WaitingTop
  {
    match angle
    case None => Step(d, None)
    case Some(a) =>
      if d.prevAngle.None? then
        Step(d.(prevAngle := angle), None)
      else
        var s := Sample(a, timestamp);
        match d.phase
        case WaitingTop =>
          if a >= d.config.maxThreshold then
            Step(d.(phase := Descending, currentRep := [s], prevAngle := angle), None)
          else
            Step(d.(prevAngle := angle), None)
        case Descending =>
          var phase := if a <= d.config.minThreshold then BottomReached else Descending;
          Step(d.(phase := phase, currentRep := d.currentRep + [s], prevAngle := angle), None)
        case BottomReached =>
          var phase := if a > d.prevAngle.value then Ascending else BottomReached;
          Step(d.(phase := phase, currentRep := d.currentRep + [s], prevAngle := angle), None)
        case Ascending =>
          if a >= d.config.maxThreshold then
            Step(d.(phase := Descending, currentRep := [], prevAngle := angle), Some(d.currentRep + [s]))
          else
            Step(d.(currentRep := d.currentRep + [s], prevAngle := angle), None)
  }

  /** `feed` keeps the invariant, and every rep it returns spans the
      hysteresis band. */
  lemma FeedAngleKeepsValid(d: Detector, angle: Option<real>, timestamp: real)
    ensures var r := FeedAngle(d, angle, timestamp);
      && (Valid(d) ==> Valid(r.next))
      && (Valid(d) && r.rep.Some? ==> SpansBand(d.config, r.rep.value))
  {
    if angle.Some? {
      ReachedBottomAppend(d.config, d.currentRep, Sample(angle.value, timestamp));
    }
  }

  /** `feed(joint_angles, timestamp)`. */
  function Feed(d: Detector, angles: JointAngles, timestamp: real): (r: Step)
    ensures TrackedAngle(d.config, angles).None? ==> r == Step(d, None)
    ensures r.rep.Some? ==> |r.rep.value| > 0
  {
    FeedAngle(d, TrackedAngle(d.config, angles), timestamp)
  }

  lemma FeedKeepsValid(d: Detector, angles: JointAngles, timestamp: real)
    ensures var r := Feed(d, angles, timestamp);
      && (Valid(d) ==> Valid(r.next))
      && (Valid(d) && r.rep.Some? ==> SpansBand(d.config, r.rep.value))
  {
    FeedAngleKeepsValid(d, TrackedAngle(d.config, angles), timestamp);
  }

  /** The outcome of feeding a whole sequence of ticks. */
  datatype Outcome = Outcome(final: Detector, reps: seq<Rep>)

  /** Feeds the ticks in order, collecting every returned rep. */
  function Run(d: Detector, ticks: seq<Tick>): (r: Outcome)
    ensures r.final.config == d.config
    ensures |r.reps| <= |ticks|
    ensures forall i :: 0 <= i < |r.reps| ==> |r.reps[i]| > 0
    decreases |ticks|
  {
    if ticks == [] then Outcome(d, [])
    else
      var s := Feed(d, ticks[0].angles, ticks[0].timestamp);
      var rest := Run(s.next, ticks[1..]);
      Outcome(rest.final, (if s.rep.Some? then [s.rep.value] else []) + rest.reps)
  }

  /** Over any sequence of ticks the invariant is kept, and every returned
      rep spans the hysteresis band. */
  lemma {:induction false} RunKeepsValid(d: Detector, ticks: seq<Tick>)
    requires Valid(d)
    ensures Valid(Run(d, ticks).final)
    ensures forall i :: 0 <= i < |Run(d, ticks).reps| ==> SpansBand(d.config, Run(d, ticks).reps[i])
    decreases |ticks|
  {
    if ticks != [] {
      var s := Feed(d, ticks[0].angles, ticks[0].timestamp);
      FeedKeepsValid(d, ticks[0].angles, ticks[0].timestamp);
      RunKeepsValid(s.next, ticks[1..]);
    }
  }

  /** The samples of the ticks whose tracked angle is present, in feed order. */
  function ValidSamples(config: Config, ticks: seq<Tick>): seq<Sample>
    decreases |ticks|
  {
    if ticks == [] then []
    else
      var rest := ValidSamples(config, ticks[1..]);
      match TrackedAngle(config, ticks[0].angles)
      case Some(a) => [Sample(a, ticks[0].timestamp)] + rest
      case None => rest
  }

  /** Once past WaitingTop, no sample is lost, duplicated or reordered: the
      returned reps followed by the rep still in progress are exactly the
      samples already accumulated followed by one sample per valid tick. */
  lemma {:induction false} RunConservesSamples(d: Detector, ticks: seq<Tick>)
    requires d.phase != WaitingTop && d.prevAngle.Some?
    ensures var r := Run(d, ticks);
      Flatten(r.reps) + r.final.currentRep == d.currentRep + ValidSamples(d.config, ticks)
    decreases |ticks|
  {
    if ticks != [] {
      var t := ticks[0].timestamp;
      var angle := TrackedAngle(d.config, ticks[0].angles);
      var s := FeedAngle(d, angle, t);
      RunConservesSamples(s.next, ticks[1..]);
      var rest := Run(s.next, ticks[1..]);
      var later := ValidSamples(d.config, ticks[1..]);
      var emitted := if s.rep.Some? then [s.rep.value] else [];
      assert Run(d, ticks) == Outcome(rest.final, emitted + rest.reps);
      FlattenPrefix(emitted, rest.reps);
      match angle
      case None =>
        assert ValidSamples(d.config, ticks) == later;
      case Some(a) =>
        assert ValidSamples(d.config, ticks) == [Sample(a, t)] + later;
        var e := if s.rep.Some? then s.rep.value else [];
        assert d.currentRep + [Sample(a, t)] == e + s.next.currentRep;
        Regroup(d.currentRep, Sample(a, t), e, s.next.currentRep, Flatten(rest.reps), rest.final.currentRep, later);
    }
  }

  lemma Regroup<T>(cur: seq<T>, x: T, e: seq<T>, next: seq<T>, flat: seq<T>, final: seq<T>, later: seq<T>)
    requires cur + [x] == e + next
    requires flat + final == next + later
    ensures (e + flat) + final == cur + ([x] + later)
  {
    calc {
      (e + flat) + final;
      e + (next + later);
      (cur + [x]) + later;
    }
  }

  lemma FlattenPrefix<T>(xs: seq<seq<T>>, ys: seq<seq<T>>)
    requires |xs| <= 1
    ensures Flatten(xs + ys) == (if xs == [] then [] else xs[0]) + Flatten(ys)
  {
    if xs != [] {
      assert (xs + ys)[1..] == ys;
    } else {
      assert xs + ys == ys;
    }
  }

  /** A detector that has not reached the bottom threshold since its last top
      crossing never returns a rep while every valid angle stays above the
      bottom threshold. */
  lemma {:induction false} NoRepWithoutBottom(d: Detector, ticks: seq<Tick>)
    requires d.phase == WaitingTop || d.phase == Descending
    requires forall i :: 0 <= i < |ticks| ==>
      TrackedAngle(d.config, ticks[i].angles).None? ||
      TrackedAngle(d.config, ticks[i].angles).value > d.config.minThreshold
    ensures Run(d, ticks).reps == []
    ensures Run(d, ticks).final.phase == WaitingTop || Run(d, ticks).final.phase == Descending
    decreases |ticks|
  {
    if ticks != [] {
      var s := Feed(d, ticks[0].angles, ticks[0].timestamp);
      assert s.rep.None?;
      assert forall i :: 0 <= i < |ticks[1..]| ==> ticks[1..][i] == ticks[i + 1];
      NoRepWithoutBottom(s.next, ticks[1..]);
    }
  }

  /** One full cycle from Descending (bottom, a rise, top) returns exactly one
      rep, holding the accumulated samples and the cycle's three samples, and
      leaves the detector re-armed in Descending with nothing accumulated. */
  lemma CycleReturnsOneRep(d: Detector, bottom: real, rise: real, top: real, t1: real, t2: real, t3: real)
    requires Valid(d) && d.phase == Descending
    requires bottom <= d.config.minThreshold && rise > bottom && top >= d.config.maxThreshold
    ensures
      var s1 := FeedAngle(d, Some(bottom), t1);
      var s2 := FeedAngle(s1.next, Some(rise), t2);
      var s3 := FeedAngle(s2.next, Some(top), t3);
      && s1.rep.None? && s2.rep.None?
      && s3.rep == Some(d.currentRep + [Sample(bottom, t1), Sample(rise, t2), Sample(top, t3)])
      && s3.next.phase == Descending && s3.next.currentRep == [] && Valid(s3.next)
  {
    var s1 := FeedAngle(d, Some(bottom), t1);
    assert s1.next.phase == BottomReached && s1.next.prevAngle == Some(bottom);
    var s2 := FeedAngle(s1.next, Some(rise), t2);
    assert s2.next.phase == Ascending;
    assert s2.next.currentRep == d.currentRep + [Sample(bottom, t1)] + [Sample(rise, t2)];
    assert d.currentRep + [Sample(bottom, t1)] + [Sample(rise, t2)] + [Sample(top, t3)]
      == d.currentRep + [Sample(bottom, t1), Sample(rise, t2), Sample(top, t3)];
  }

  /** Back-to-back counting: two consecutive cycles return two reps without
      any return to WaitingTop in between. */
  lemma BackToBackCycles(d: Detector, bottom: real, rise: real, top: real, ts: seq<real>)
    requires Valid(d) && d.phase == Descending && d.currentRep == []
    requires bottom <= d.config.minThreshold && rise > bottom && top >= d.config.maxThreshold
    requires |ts| == 6
    ensures
      var c1 := FeedAngle(FeedAngle(FeedAngle(d, Some(bottom), ts[0]).next, Some(rise), ts[1]).next, Some(top), ts[2]);
      var c2 := FeedAngle(FeedAngle(FeedAngle(c1.next, Some(bottom), ts[3]).next, Some(rise), ts[4]).next, Some(top), ts[5]);
      && c1.rep == Some([Sample(bottom, ts[0]), Sample(rise, ts[1]), Sample(top, ts[2])])
      && c2.rep == Some([Sample(bottom, ts[3]), Sample(rise, ts[4]), Sample(top, ts[5])])
      && c2.next.phase == Descending
  {
    var first := [Sample(bottom, ts[0]), Sample(rise, ts[1]), Sample(top, ts[2])];
    var second := [Sample(bottom, ts[3]), Sample(rise, ts[4]), Sample(top, ts[5])];
    CycleReturnsOneRep(d, bottom, rise, top, ts[0], ts[1], ts[2]);
    var c1 := FeedAngle(FeedAngle(FeedAngle(d, Some(bottom), ts[0]).next, Some(rise), ts[1]).next, Some(top), ts[2]);
    assert [] + first == first;
    CycleReturnsOneRep(c1.next, bottom, rise, top, ts[3], ts[4], ts[5]);
    assert [] + second == second;
  }

}
