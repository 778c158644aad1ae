/**
 * The library's RLCameraTrackSolver: the position is integrated from the
 * linear accelerometer, the rotation is read from the rotation vector sensor.
 * Each linear accelerometer event stores a solver frame at its time relative
 * to the first sensor event; rotation vector events only update the rotation
 * later frames will take.
 */
module RlSolvers {
  import opened Wrappers
  import opened Numeric
  import opened Errors
  import opened SensorEvents
  import opened SolverFrames
  import opened ChanFrames
  import opened TrackFileParsers
  import opened TrackSolvers

  /** The scale applied to positions when none is given. */
  const DEFAULT_POSITION_SCALE: real := 100.0

  /**
   * Euler angles of the rotation vector (x, y, z) in degrees, from its
   * quaternion: alpha and gamma from arc tangents, beta from an arc sine,
   * None standing for the NaN the arc sine gives outside [-1, 1]. Square
   * roots and trigonometry are not modelled.
   */
  type Orientation = Vec3 -> (real, Option<real>, real)

  /** The fields of the solver that its event handlers change. */
  datatype RlState = RlState(
    lastLinAccelTimestamp: U64,
    lastPosition: Vec3,
    lastRotation: Vec3,
    solverData: Timeline)

  const Initial: RlState := RlState(0, [0.0, 0.0, 0.0], [0.0, 0.0, 0.0], EmptyTimeline)

  /**
   * The position scale as stored by the PositionScaleFactor setter: half the
   * factor, in units of 1e-18 so that it turns squared nanoseconds into
   * squared seconds.
   */
  function AccumulatedFactor(scale: real): real {
    0.5 * SQ_NS2S * scale
  }

  /**
   * PushSolverFrame: at a time already on the timeline, a linear
   * accelerometer event replaces the position and keeps the stored rotation, a
   * rotation vector event keeps the stored position and replaces the rotation,
   * and any other event replaces both; at a new time the frame takes the
   * current position and rotation. Both arrays always exist, so nothing raises.
   */
  function Push(st: RlState, ev: SensorEvent, first: U64): (r: RlState)
    requires st.solverData.Valid()
    ensures r.solverData.Valid()
  {
    var key := SubU64(ev.timestamp, first);
    var frame :=
      if key in st.solverData.frames then
        var existing := st.solverData.frames[key];
        if ev.kind == LIN_ACCEL then SolverFrame(key, st.lastPosition, existing.rotation)
        else if ev.kind == ROT_VEC then SolverFrame(key, existing.position, st.lastRotation)
        else SolverFrame(key, st.lastPosition, st.lastRotation)
      else SolverFrame(key, st.lastPosition, st.lastRotation);
    st.(solverData := Put(st.solverData, frame))
  }

  /**
   * A push changes the timeline and nothing else, at the event's relative
   * time only: a new time is enumerated last, a known one keeps its place.
   */
  lemma PushFacts(st: RlState, ev: SensorEvent, first: U64)
    requires st.solverData.Valid()
    ensures var key := SubU64(ev.timestamp, first);
      var r := Push(st, ev, first);
      && r.(solverData := st.solverData) == st
      && r.solverData.frames.Keys == st.solverData.frames.Keys + {key}
      && (forall k | k in st.solverData.frames && k != key :: r.solverData.frames[k] == st.solverData.frames[k])
      && (key !in st.solverData.frames ==>
            r.solverData.frames[key] == SolverFrame(key, st.lastPosition, st.lastRotation)
            && r.solverData.order == st.solverData.order + [key])
      && (key in st.solverData.frames ==> r.solverData.order == st.solverData.order)
      && (key in st.solverData.frames && ev.kind == LIN_ACCEL ==>
            r.solverData.frames[key] == SolverFrame(key, st.lastPosition, st.solverData.frames[key].rotation))
  {
  }

  /**
   * An event's vector along the camera's axes, (-y, z, -x): the linear
   * acceleration moves the position along it and the rotation vector is read
   * through it.
   */
  function CameraAxes(ev: SensorEvent): (r: Vec3)
    ensures r[0] == -ev.Y() && r[1] == ev.Z() && r[2] == -ev.X()
  {
    [-ev.Y(), ev.Z(), -ev.X()]
  }

  /**
   * The squared time since the last linear accelerometer event times the
   * accumulated factor. The square is taken on `ulong`: it is exact for a gap
   * below 2^32 ns (about 4.3 s), wraps to 0 at exactly 2^32 ns and falls short
   * of the true square for every longer gap.
   */
  function SquaredDelta(timestamp: U64, last: U64, accumulated: real): (r: real)
    ensures last <= timestamp && timestamp - last < 0x1_0000_0000 ==>
      r == ((timestamp - last) * (timestamp - last)) as real * accumulated
    ensures last <= timestamp && timestamp - last == 0x1_0000_0000 ==> r == 0.0
    ensures last <= timestamp && timestamp - last >= 0x1_0000_0000 ==>
      r == MulU64(timestamp - last, timestamp - last) as real * accumulated
      && MulU64(timestamp - last, timestamp - last) < (timestamp - last) * (timestamp - last)
  {
    var nsDeltaT := SubU64(timestamp, last);
    SquareU64(nsDeltaT);
    MulU64(nsDeltaT, nsDeltaT) as real * accumulated
  }

  /**
   * HandleLinAccelEvent: the first linear accelerometer event (or one after
   * an event at timestamp 0) only records its timestamp; each later one moves
   * the position by the acceleration times the squared elapsed time and
   * pushes a frame.
   */
  function LinAccel(st: RlState, ev: SensorEvent, first: U64, accumulated: real): (r: RlState)
    requires st.solverData.Valid()
    ensures r.solverData.Valid()
  {
    if st.lastLinAccelTimestamp == 0 then st.(lastLinAccelTimestamp := ev.timestamp)
    else
      var position := Advance(st.lastPosition, CameraAxes(ev), SquaredDelta(ev.timestamp, st.lastLinAccelTimestamp, accumulated));
      Push(st.(lastPosition := position, lastLinAccelTimestamp := ev.timestamp), ev, first)
  }

  /**
   * A linear accelerometer event after the first moves the position by the
   * axes times the squared gap, keeps the rotation and records its timestamp.
   */
  lemma LinAccelMoves(st: RlState, ev: SensorEvent, first: U64, accumulated: real)
    requires st.solverData.Valid() && st.lastLinAccelTimestamp != 0
    ensures var r := LinAccel(st, ev, first, accumulated);
      && r.lastLinAccelTimestamp == ev.timestamp
      && r.lastRotation == st.lastRotation
      && r.lastPosition == Advance(st.lastPosition, CameraAxes(ev), SquaredDelta(ev.timestamp, st.lastLinAccelTimestamp, accumulated))
  {
    var position := Advance(st.lastPosition, CameraAxes(ev), SquaredDelta(ev.timestamp, st.lastLinAccelTimestamp, accumulated));
    var moved := st.(lastPosition := position, lastLinAccelTimestamp := ev.timestamp);
    assert LinAccel(st, ev, first, accumulated) == Push(moved, ev, first);
  }

  /**
   * Two linear accelerometer events exactly 2^32 ns apart leave the position
   * where it was, whatever the acceleration.
   */
  lemma GapOf2To32KeepsPosition(st: RlState, ev: SensorEvent, first: U64, accumulated: real)
    requires st.solverData.Valid() && st.lastLinAccelTimestamp != 0
    requires st.lastLinAccelTimestamp <= ev.timestamp && ev.timestamp - st.lastLinAccelTimestamp == 0x1_0000_0000
    ensures LinAccel(st, ev, first, accumulated).lastPosition == st.lastPosition
  {
    LinAccelMoves(st, ev, first, accumulated);
    AdvanceZero(st.lastPosition, CameraAxes(ev), SquaredDelta(ev.timestamp, st.lastLinAccelTimestamp, accumulated));
  }

  /**
   * The angles stored by a rotation vector event, in the order gamma, beta,
   * alpha: alpha is turned by 270 degrees and reduced with `% 360`, and a NaN
   * beta becomes 90.
   */
  function StoredAngles(angles: (real, Option<real>, real)): (r: Vec3) {
    var (alpha, beta, gamma) := angles;
    [gamma, if beta.Some? then beta.value else 90.0, FMod(alpha + 270.0, 360.0)]
  }

  /**
   * For an alpha from an arc tangent in degrees, within [-180, 180], the
   * stored alpha lies in [0, 360): alpha + 270 below 360, alpha - 90 from
   * there on. Gamma is kept as it is and a missing beta reads 90.
   */
  lemma StoredAnglesFacts(alpha: real, beta: Option<real>, gamma: real)
    ensures var r := StoredAngles((alpha, beta, gamma));
      && r[0] == gamma
      && r[1] == (if beta.Some? then beta.value else 90.0)
      && (-180.0 <= alpha <= 180.0 ==> 0.0 <= r[2] < 360.0)
      && (-270.0 <= alpha < 90.0 ==> r[2] == alpha + 270.0)
      && (90.0 <= alpha < 450.0 ==> r[2] == alpha - 90.0)
  {
    var x := alpha + 270.0;
    if 90.0 <= alpha < 450.0 {
      var q := Truncate(x / 360.0);
      assert x / 360.0 * 360.0 == x;
      assert 1.0 <= x / 360.0 < 2.0;
      assert q == 1;
    }
  }

  /**
   * HandleRotVecEvent: the rotation becomes the event's angles; no frame is
   * pushed.
   */
  function RotVec(st: RlState, ev: SensorEvent, orientation: Orientation): (r: RlState)
    ensures r == st.(lastRotation := r.lastRotation)
  {
    st.(lastRotation := StoredAngles(orientation(CameraAxes(ev))))
  }

  /** HandleSensorEvent: dispatch on the type code; other types are ignored. */
  function Handle(st: RlState, ev: SensorEvent, first: U64, accumulated: real, orientation: Orientation): (r: RlState)
    requires st.solverData.Valid()
    ensures r.solverData.Valid()
  {
    if ev.kind == LIN_ACCEL then LinAccel(st, ev, first, accumulated)
    else if ev.kind == ROT_VEC then RotVec(st, ev, orientation)
    else st
  }

  /** ConsumeSensorData: the events in timestamp order through the handler. */
  function Consume(st: RlState, events: seq<SensorEvent>, first: U64, accumulated: real, orientation: Orientation): (r: RlState)
    requires st.solverData.Valid()
    ensures r.solverData.Valid()
    decreases |events|
  {
    if events == [] then st
    else Handle(Consume(st, events[..|events| - 1], first, accumulated, orientation), events[|events| - 1], first, accumulated, orientation)
  }

  lemma ConsumeTake(st: RlState, events: seq<SensorEvent>, i: nat, first: U64, accumulated: real, orientation: Orientation)
    requires st.solverData.Valid() && i < |events|
    ensures Consume(st, events[..i + 1], first, accumulated, orientation) ==
      Handle(Consume(st, events[..i], first, accumulated, orientation), events[i], first, accumulated, orientation)
  {
    assert events[..i + 1][..i] == events[..i];
  }

  /**
   * What one event does to the timeline: nothing, or a push at its relative
   * time, which appends that time to the enumeration order only when it is
   * new.
   */
  lemma HandleTimeline(st: RlState, ev: SensorEvent, first: U64, accumulated: real, orientation: Orientation)
    requires st.solverData.Valid()
    ensures var key := SubU64(ev.timestamp, first);
      var r := Handle(st, ev, first, accumulated, orientation).solverData;
      && r.frames.Keys <= st.solverData.frames.Keys + {key}
      && (r.order == st.solverData.order || (key !in st.solverData.frames && r.order == st.solverData.order + [key]))
      && (ev.kind != LIN_ACCEL ==> r == st.solverData)
  {
    if ev.kind == LIN_ACCEL && st.lastLinAccelTimestamp != 0 {
      var position := Advance(st.lastPosition, CameraAxes(ev), SquaredDelta(ev.timestamp, st.lastLinAccelTimestamp, accumulated));
      PushFacts(st.(lastPosition := position, lastLinAccelTimestamp := ev.timestamp), ev, first);
    }
  }

  /** The event times relative to the first event. */
  function RelativeTimes(events: seq<SensorEvent>, first: U64): set<U64> {
    set i | 0 <= i < |events| :: SubU64(events[i].timestamp, first)
  }

  /** Every time on the timeline was there before or is the relative time of an event. */
  lemma {:induction false} ConsumeKeys(st: RlState, events: seq<SensorEvent>, first: U64, accumulated: real, orientation: Orientation)
    requires st.solverData.Valid()
    ensures Consume(st, events, first, accumulated, orientation).solverData.frames.Keys <= st.solverData.frames.Keys + RelativeTimes(events, first)
    decreases |events|
  {
    if events != [] {
      var front := events[..|events| - 1];
      var last := events[|events| - 1];
      ConsumeKeys(st, front, first, accumulated, orientation);
      HandleTimeline(Consume(st, front, first, accumulated, orientation), last, first, accumulated, orientation);
      assert RelativeTimes(front, first) + {SubU64(last.timestamp, first)} <= RelativeTimes(events, first) by {
        forall i | 0 <= i < |front|
          ensures SubU64(front[i].timestamp, first) in RelativeTimes(events, first)
        {
          assert front[i] == events[i];
        }
      }
    }
  }

  /** Appending a time later than every listed one keeps the order increasing. */
  lemma AppendLater(order: seq<U64>, key: U64)
    requires Increasing(order)
    requires forall i | 0 <= i < |order| :: order[i] < key
    ensures Increasing(order + [key])
  {
  }

  /**
   * The timeline a prefix of sorted events leaves holds no time later than
   * the relative time of any later event.
   */
  lemma KeysBeforeLater(st: RlState, events: seq<SensorEvent>, n: nat, first: U64, accumulated: real, orientation: Orientation)
    requires st.solverData.Valid() && Sorted(events) && n < |events|
    requires forall i | 0 <= i < |events| :: first <= events[i].timestamp
    requires forall k, i | k in st.solverData.frames && 0 <= i < |events| :: k <= events[i].timestamp - first
    ensures forall k | k in Consume(st, events[..n], first, accumulated, orientation).solverData.frames :: k <= events[n].timestamp - first
  {
    ConsumeKeys(st, events[..n], first, accumulated, orientation);
    forall k | k in Consume(st, events[..n], first, accumulated, orientation).solverData.frames
      ensures k <= events[n].timestamp - first
    {
      if k !in st.solverData.frames {
        var i :| 0 <= i < n && k == SubU64(events[..n][i].timestamp, first);
        assert events[..n][i] == events[i];
      }
    }
  }

  /**
   * With the events in timestamp order, none before the first, and the
   * timeline's times no later than any event's, the timeline is enumerated in
   * increasing time order, so Last() is the latest frame.
   */
  lemma {:induction false} ConsumeInOrder(st: RlState, events: seq<SensorEvent>, first: U64, accumulated: real, orientation: Orientation)
    requires st.solverData.Valid() && Increasing(st.solverData.order)
    requires Sorted(events)
    requires forall i | 0 <= i < |events| :: first <= events[i].timestamp
    requires forall k, i | k in st.solverData.frames && 0 <= i < |events| :: k <= events[i].timestamp - first
    ensures Increasing(Consume(st, events, first, accumulated, orientation).solverData.order)
    decreases |events|
  {
    if events != [] {
      var n := |events| - 1;
      var front := events[..n];
      ConsumeInOrder(st, front, first, accumulated, orientation);
      var acc := Consume(st, front, first, accumulated, orientation).solverData;
      HandleTimeline(Consume(st, front, first, accumulated, orientation), events[n], first, accumulated, orientation);
      var key := SubU64(events[n].timestamp, first);
      if key !in acc.frames {
        KeysBeforeLater(st, events, n, first, accumulated, orientation);
        forall i | 0 <= i < |acc.order|
          ensures acc.order[i] < key
        {
          assert acc.order[i] in acc.frames;
        }
        AppendLater(acc.order, key);
      }
    }
  }

  /** With the enumeration order increasing, Last() holds the largest time. */
  lemma LastIsLatest(tl: Timeline)
    requires tl.Valid() && Increasing(tl.order) && tl.order != []
    ensures forall k | k in tl.frames :: k <= tl.LastTimestamp()
  {
    forall k | k in tl.frames
      ensures k <= tl.LastTimestamp()
    {
      var i :| 0 <= i < |tl.order| && tl.order[i] == k;
      if i < |tl.order| - 1 {
        assert tl.order[i] < tl.order[|tl.order| - 1];
      }
    }
  }

  /** The resampler's grid can run over the timeline the events leave. */
  predicate SolveFits(st: RlState, events: seq<SensorEvent>, first: U64, accumulated: real, orientation: Orientation, fps: real)
    requires st.solverData.Valid()
  {
    GridFits(Consume(st, events, first, accumulated, orientation).solverData, fps)
  }

  /**
   * The grid fits whenever every relative event time, and every time already
   * on the timeline, stays a step below 2^64.
   */
  lemma SolveFitsWhenTimesFit(st: RlState, events: seq<SensorEvent>, first: U64, accumulated: real, orientation: Orientation, fps: real)
    requires st.solverData.Valid()
    requires FrameGrid(fps).Success? ==> 0 < FrameGrid(fps).value.1
    requires FrameGrid(fps).Success? ==>
      (forall k | k in st.solverData.frames :: k + FrameGrid(fps).value.1 <= TWO_64) &&
      (forall i | 0 <= i < |events| :: SubU64(events[i].timestamp, first) + FrameGrid(fps).value.1 <= TWO_64)
    ensures SolveFits(st, events, first, accumulated, orientation, fps)
  {
    ConsumeKeys(st, events, first, accumulated, orientation);
  }

  /**
   * AbstractTrackSolver.Solve on the handlers' state: the new state, the chan
   * frames added and the exception raised, if any.
   */
  function SolveSpec(st: RlState, events: seq<SensorEvent>, first: U64, accumulated: real, orientation: Orientation, fps: real): (r: (RlState, seq<ChanFrame>, Option<Error>))
    requires st.solverData.Valid() && SolveFits(st, events, first, accumulated, orientation, fps)
    ensures r.0 == Consume(st, events, first, accumulated, orientation)
  {
    var st' := Consume(st, events, first, accumulated, orientation);
    var (chan, err) := SolveFrames(st'.solverData, fps);
    (st', chan, err)
  }

  /**
   * What Solve produces: the frames are numbered by the `uint` counter plus
   * one (1, 2, ... until it wraps) and each shows a frame of the timeline the
   * events left; the exception is a grid overflow, an empty timeline, or the
   * first grid time with no frame in its window.
   */
  lemma SolveFrameNumbers(st: RlState, events: seq<SensorEvent>, first: U64, accumulated: real, orientation: Orientation, fps: real)
    requires st.solverData.Valid() && SolveFits(st, events, first, accumulated, orientation, fps)
    ensures var (st', chan, err) := SolveSpec(st, events, first, accumulated, orientation, fps);
      && (forall j | 0 <= j < |chan| ::
            chan[j].frame == CounterSucc(j) && exists k | k in st'.solverData.frames :: chan[j] == FromSolverFrame(CounterSucc(j), st'.solverData.frames[k]))
      && (err.Some? ==> err.value == Overflow || err.value == EmptyCollection || err.value == UnresolvedFrame(CounterSucc(|chan|)))
  {
    SolveFramesFacts(Consume(st, events, first, accumulated, orientation).solverData, fps);
  }

  class RlSolver {
    /** The parser's events, in timestamp order. */
    const sensorData: seq<SensorEvent>
    const fps: real
    const firstTimestamp: U64
    const orientation: Orientation
    var solverData: Timeline
    /** The HashSet<ChanFrame>: frames compare by reference, so every Add adds. */
    var chanFrames: seq<ChanFrame>
    var solved: bool

    var lastLinAccelTimestamp: U64
    const lastPosition: array<real>
    const lastRotation: array<real>
    var positionScaleFactor: real
    var accumulatedPositionFactor: real

    ghost predicate Valid()
      reads this
    {
      && lastPosition.Length == 3 && lastRotation.Length == 3 && lastPosition != lastRotation
      && accumulatedPositionFactor == AccumulatedFactor(positionScaleFactor)
      && solverData.Valid()
    }

    /** The handlers' fields as a value. */
    function State(): RlState
      requires Valid()
      reads this, lastPosition, lastRotation
    {
      RlState(lastLinAccelTimestamp, lastPosition[..], lastRotation[..], solverData)
    }

    /** The solver over a parser's checked events, with the given position scale. */
    constructor(sensorData: seq<SensorEvent>, firstTimestamp: U64, fps: real, psFactor: real, orientation: Orientation)
      ensures Valid() && fresh(lastPosition) && fresh(lastRotation)
      ensures this.sensorData == sensorData && this.firstTimestamp == firstTimestamp
      ensures this.fps == fps && this.orientation == orientation
      ensures positionScaleFactor == psFactor
      ensures State() == Initial && chanFrames == [] && !solved
    {
      this.sensorData := sensorData;
      this.firstTimestamp := firstTimestamp;
      this.fps := fps;
      this.orientation := orientation;
      solverData := EmptyTimeline;
      chanFrames := [];
      solved := false;
      lastLinAccelTimestamp := 0;
      lastPosition := new real[3](_ => 0.0);
      lastRotation := new real[3](_ => 0.0);
      positionScaleFactor := psFactor;
      accumulatedPositionFactor := AccumulatedFactor(psFactor);
      new;
      assert lastPosition[..] == [0.0, 0.0, 0.0];
      assert lastRotation[..] == [0.0, 0.0, 0.0];
    }

    /**
     * The RLCameraTrackSolver constructors: the track must be an RL track
     * with at least one event; the position scale defaults to 100.
     */
    static method Create(parser: TrackFileParser, fps: real, psFactor: real, orientation: Orientation) returns (r: Result<RlSolver, Error>)
      requires parser.Valid()
      modifies parser
      ensures parser.Valid()
      ensures r.Success? ==> fresh(r.value) && r.value.Valid() && r.value.State() == Initial
      ensures r.Success? ==> parser.trackFileType == RL_DEFAULT && parser.sensorData != []
      ensures r.Success? ==> r.value.sensorData == parser.sensorData && r.value.firstTimestamp == parser.sensorData[0].timestamp
      ensures r.Success? ==> r.value.chanFrames == [] && !r.value.solved && r.value.fps == fps && r.value.positionScaleFactor == psFactor
    {
      var track :- OpenTrack(parser, {RL_DEFAULT});
      var solver := new RlSolver(track.0, track.1, fps, psFactor, orientation);
      return Success(solver);
    }

    /** The two-argument constructor: the position scale defaults to 100. */
    static method CreateDefault(parser: TrackFileParser, fps: real, orientation: Orientation) returns (r: Result<RlSolver, Error>)
      requires parser.Valid()
      modifies parser
      ensures parser.Valid()
      ensures r.Success? ==> fresh(r.value) && r.value.Valid() && r.value.State() == Initial
      ensures r.Success? ==> parser.trackFileType == RL_DEFAULT && parser.sensorData != []
      ensures r.Success? ==> r.value.sensorData == parser.sensorData && r.value.firstTimestamp == parser.sensorData[0].timestamp
      ensures r.Success? ==> r.value.chanFrames == [] && !r.value.solved && r.value.fps == fps
      ensures r.Success? ==> r.value.positionScaleFactor == DEFAULT_POSITION_SCALE
      ensures r.Success? ==> r.value.accumulatedPositionFactor == AccumulatedFactor(DEFAULT_POSITION_SCALE)
    {
      r := Create(parser, fps, DEFAULT_POSITION_SCALE, orientation);
    }

    /** The PositionScaleFactor setter: the stored factor follows the scale. */
    method SetPositionScaleFactor(value: real)
      requires Valid()
      modifies this`positionScaleFactor, this`accumulatedPositionFactor
      ensures Valid() && State() == old(State())
      ensures positionScaleFactor == value && accumulatedPositionFactor == 0.5 * SQ_NS2S * value
    {
      positionScaleFactor := value;
      accumulatedPositionFactor := 0.5 * SQ_NS2S * value;
    }

    /** PushSolverFrame on the solver's fields. */
    method PushSolverFrame(ev: SensorEvent)
      requires Valid()
      modifies this`solverData
      ensures Valid()
      ensures State() == Push(old(State()), ev, firstTimestamp)
    {
      var timestamp := SubU64(ev.timestamp, firstTimestamp);
      var frame: SolverFrame;
      if timestamp in solverData.frames {
        var existing := solverData.frames[timestamp];
        if ev.kind == LIN_ACCEL {
          frame := SolverFrame(timestamp, lastPosition[..], existing.rotation);
        } else if ev.kind == ROT_VEC {
          frame := SolverFrame(timestamp, existing.position, lastRotation[..]);
        } else {
          frame := SolverFrame(timestamp, lastPosition[..], lastRotation[..]);
        }
      } else {
        frame := SolverFrame(timestamp, lastPosition[..], lastRotation[..]);
      }
      solverData := Put(solverData, frame);
    }

    /** The position moved by `axes · sq`, in place. */
    method AdvancePosition(axes: Vec3, sq: real)
      requires lastPosition.Length == 3
      modifies lastPosition
      ensures lastPosition[..] == Advance(old(lastPosition[..]), axes, sq)
    {
      ghost var start: Vec3 := lastPosition[..];
      lastPosition[0] := lastPosition[0] + axes[0] * sq;
      lastPosition[1] := lastPosition[1] + axes[1] * sq;
      lastPosition[2] := lastPosition[2] + axes[2] * sq;
      ghost var advanced := Advance(start, axes, sq);
      assert lastPosition[0] == advanced[0] && lastPosition[1] == advanced[1] && lastPosition[2] == advanced[2];
    }

    /** HandleLinAccelEvent on the solver's fields. */
    method HandleLinAccelEvent(ev: SensorEvent)
      requires Valid()
      modifies this`lastLinAccelTimestamp, this`solverData, lastPosition
      ensures Valid()
      ensures State() == LinAccel(old(State()), ev, firstTimestamp, accumulatedPositionFactor)
    {
      ghost var st0 := State();
      if lastLinAccelTimestamp == 0 {
        lastLinAccelTimestamp := ev.timestamp;
        return;
      }
      ghost var start: Vec3 := lastPosition[..];
      var sqDeltaT := SquaredDelta(ev.timestamp, lastLinAccelTimestamp, accumulatedPositionFactor);
      AdvancePosition(CameraAxes(ev), sqDeltaT);
      ghost var advanced := Advance(start, CameraAxes(ev), sqDeltaT);
      lastLinAccelTimestamp := ev.timestamp;
      ghost var st1 := st0.(lastPosition := advanced, lastLinAccelTimestamp := ev.timestamp);
      assert State() == st1;
      assert LinAccel(st0, ev, firstTimestamp, accumulatedPositionFactor) == Push(st1, ev, firstTimestamp);
      PushSolverFrame(ev);
    }

    /** HandleRotVecEvent on the solver's fields. */
    method HandleRotVecEvent(ev: SensorEvent)
      requires Valid()
      modifies lastRotation
      ensures Valid()
      ensures State() == RotVec(old(State()), ev, orientation)
    {
      var (alpha, beta, gamma) := orientation(CameraAxes(ev));
      alpha := FMod(alpha + 270.0, 360.0);
      if beta.None? {
        beta := Some(90.0);
      }
      lastRotation[0] := gamma;
      lastRotation[1] := beta.value;
      lastRotation[2] := alpha;
      assert lastRotation[..] == StoredAngles(orientation(CameraAxes(ev)));
    }

    /** HandleSensorEvent on the solver's fields. */
    method HandleSensorEvent(ev: SensorEvent)
      requires Valid()
      modifies this`lastLinAccelTimestamp, this`solverData, lastPosition, lastRotation
      ensures Valid()
      ensures State() == Handle(old(State()), ev, firstTimestamp, accumulatedPositionFactor, orientation)
    {
      if ev.kind == LIN_ACCEL {
        HandleLinAccelEvent(ev);
      } else if ev.kind == ROT_VEC {
        HandleRotVecEvent(ev);
      }
    }

    /** ConsumeSensorData: every event through the handler, in timestamp order. */
    method ConsumeSensorData()
      requires Valid()
      modifies this`lastLinAccelTimestamp, this`solverData, lastPosition, lastRotation
      ensures Valid()
      ensures State() == Consume(old(State()), sensorData, firstTimestamp, accumulatedPositionFactor, orientation)
    {
      ghost var st0 := State();
      var i := 0;
      while i < |sensorData|
        invariant 0 <= i <= |sensorData| && Valid()
        invariant Consume(st0, sensorData[..i], firstTimestamp, accumulatedPositionFactor, orientation) == State()
      {
        ConsumeTake(st0, sensorData, i, firstTimestamp, accumulatedPositionFactor, orientation);
        HandleSensorEvent(sensorData[i]);
        i := i + 1;
      }
      assert sensorData[..|sensorData|] == sensorData;
    }

    /**
     * Solve: consume the events, then resample the timeline; `solved` is set
     * only when both finish. The chan frames produced before an exception in
     * the resampler stay in the set.
     */
    method Solve() returns (err: Option<Error>)
      requires Valid() && SolveFits(State(), sensorData, firstTimestamp, accumulatedPositionFactor, orientation, fps)
      modifies this, lastPosition, lastRotation
      ensures Valid() && positionScaleFactor == old(positionScaleFactor)
      ensures var (st, chan, e) := SolveSpec(old(State()), sensorData, firstTimestamp, old(accumulatedPositionFactor), orientation, fps);
        State() == st && chanFrames == old(chanFrames) + chan && err == e
      ensures solved == (old(solved) || err.None?)
    {
      ConsumeSensorData();
      var chan;
      chan, err := SolveFromSolverData();
      if err.None? {
        solved := true;
      }
    }

    /** SolveFromSolverData on the solver's timeline; the frames found are added to the set. */
    method SolveFromSolverData() returns (chan: seq<ChanFrame>, err: Option<Error>)
      requires Valid() && GridFits(solverData, fps)
      modifies this`chanFrames
      ensures Valid()
      ensures (chan, err) == SolveFrames(solverData, fps)
      ensures chanFrames == old(chanFrames) + chan
    {
      var grid := FrameGrid(fps);
      if grid.Failure? {
        return [], Some(grid.error);
      }
      var (range, step) := grid.value;
      chan, err := TrackSolvers.SolveFromSolverData(solverData, step, range);
      chanFrames := chanFrames + chan;
    }
  }
}
