/**
 * The library's GAMCameraTrackSolver: the rotation comes from the
 * accelerometer and the last magnetometer reading, and is then carried
 * forward by integrating the gyroscope. Each handled event stores a solver
 * frame at its time relative to the first sensor event.
 *
 * The position array `accelMagnetPosition` is never assigned, and the
 * SolverFrame constructor reads the length of the arrays it is given, so every
 * frame built from it raises a NullReferenceException; see
 * `NoFrameEverStored` and `SolveAlwaysFails`.
 */
module GamSolvers {
  import opened Wrappers
  import opened Numeric
  import opened Errors
  import opened SensorEvents
  import opened SolverFrames
  import opened ChanFrames
  import opened TrackFileParsers
  import opened TrackSolvers

  /**
   * The attitude computed from the remapped accelerometer and magnetometer
   * vectors (the quaternion of the rotation matrix, turned into Euler angles
   * in degrees). Square roots and arc tangents are not modelled.
   */
  type Attitude = (Vec3, Vec3) -> Vec3

  /** The fields of the solver that its event handlers change. */
  datatype GamState = GamState(
    gyroInitialized: bool,
    lastGyroTimestamp: U64,
    gyroRotation: Vec3,
    accelMagnetRotation: Option<Vec3>,
    accelMagnetPosition: Option<Vec3>,
    lastMagnetEvent: Option<SensorEvent>,
    solverData: Timeline)

  /** The handlers' state after an event, with the exception that stopped them, if any. */
  type Step = (GamState, Option<Error>)

  /** The fields as the constructor leaves them. */
  const Initial: GamState :=
    GamState(false, 0, [0.0, 0.0, 0.0], None, None, None, EmptyTimeline)

  /** The device axes turned into the camera's: (-y, x, -z). */
  function Remap(v: Vec3): (r: Vec3)
    ensures r[0] == -v[1] && r[1] == v[0] && r[2] == -v[2]
  {
    [-v[1], v[0], -v[2]]
  }

  /** The cross product a × b. */
  function Cross(a: Vec3, b: Vec3): Vec3 {
    [a[1] * b[2] - a[2] * b[1], a[2] * b[0] - a[0] * b[2], a[0] * b[1] - a[1] * b[0]]
  }

  function NormSquared(v: Vec3): real {
    v[0] * v[0] + v[1] * v[1] + v[2] * v[2]
  }

  /**
   * The field is too weak to give a heading when |accel × magnet| < 0.1,
   * which for a square root is |accel × magnet|² < 0.01.
   */
  predicate WeakField(accel: Vec3, magnet: Vec3) {
    NormSquared(Cross(accel, magnet)) < 0.01
  }

  /** An accelerometer reading parallel to the magnetic field never gives a heading. */
  lemma ParallelFieldIsWeak(magnet: Vec3, c: real)
    ensures WeakField([c * magnet[0], c * magnet[1], c * magnet[2]], magnet)
  {
    var a: Vec3 := [c * magnet[0], c * magnet[1], c * magnet[2]];
    var h := Cross(a, magnet);
    assert h[0] == c * (magnet[1] * magnet[2] - magnet[2] * magnet[1]);
    assert h[1] == c * (magnet[2] * magnet[0] - magnet[0] * magnet[2]);
    assert h[2] == c * (magnet[0] * magnet[1] - magnet[1] * magnet[0]);
  }

  /**
   * Stores a frame built for the timeline, or records the exception its
   * constructor raised; the timeline is untouched in that case.
   */
  function Store(st: GamState, frame: Result<SolverFrame, Error>): (r: Step)
    requires st.solverData.Valid()
    ensures r.0.solverData.Valid()
  {
    match frame
    case Failure(e) => (st, Some(e))
    case Success(f) => (st.(solverData := Put(st.solverData, f)), None)
  }

  /**
   * PushSolverFrame: at a time already on the timeline, an accelerometer
   * event replaces the position and keeps the stored rotation, a gyroscope
   * event keeps the stored position and replaces the rotation, other events
   * change nothing; at a new time the frame takes the current position and
   * gyroscope rotation.
   */
  function Push(st: GamState, ev: SensorEvent, first: U64): (r: Step)
    requires st.solverData.Valid()
    ensures r.0.solverData.Valid()
  {
    var key := SubU64(ev.timestamp, first);
    if key in st.solverData.frames then
      var existing := st.solverData.frames[key];
      if ev.kind == ACCEL then Store(st, MakeSolverFrame(key, st.accelMagnetPosition, Some(existing.rotation)))
      else if ev.kind == GYRO then Store(st, MakeSolverFrame(key, Some(existing.position), Some(st.gyroRotation)))
      else (st, None)
    else Store(st, MakeSolverFrame(key, st.accelMagnetPosition, Some(st.gyroRotation)))
  }

  /** A push changes the timeline and nothing else. */
  lemma PushOnlyTimeline(st: GamState, ev: SensorEvent, first: U64)
    requires st.solverData.Valid()
    ensures Push(st, ev, first).0 == st.(solverData := Push(st, ev, first).0.solverData)
  {
  }

  /**
   * What a push stores: the frame at the event's relative time, whose other
   * half is kept from the frame stored there before; an exception leaves the
   * handlers' state as it was.
   */
  lemma PushFacts(st: GamState, ev: SensorEvent, first: U64)
    requires st.solverData.Valid()
    ensures var key := SubU64(ev.timestamp, first);
      var (st', err) := Push(st, ev, first);
      && (err.Some? ==> st' == st && err.value == NullReference)
      && (err.None? && st' != st ==> key in st'.solverData.frames)
      && st'.solverData.frames.Keys == st.solverData.frames.Keys + (if st' == st then {} else {key})
      && (forall k | k in st.solverData.frames && k != key :: st'.solverData.frames[k] == st.solverData.frames[k])
      && (key in st.solverData.frames && ev.kind == ACCEL && err.None? ==>
            st'.solverData.frames[key] == SolverFrame(key, st.accelMagnetPosition.value, st.solverData.frames[key].rotation))
      && (key in st.solverData.frames && ev.kind == GYRO ==>
            err.None? && st'.solverData.frames[key] == SolverFrame(key, st.solverData.frames[key].position, st.gyroRotation))
      && (key !in st.solverData.frames ==>
            (err.None? <==> st.accelMagnetPosition.Some?))
      && (key !in st.solverData.frames && err.None? ==>
            st'.solverData.frames[key] == SolverFrame(key, st.accelMagnetPosition.value, st.gyroRotation)
            && st'.solverData.order == st.solverData.order + [key])
      && (st'.solverData.order != st.solverData.order ==> key !in st.solverData.frames)
  {
  }

  /**
   * HandleAccelEvent: nothing happens before the first magnetometer reading;
   * otherwise the rotation array is allocated (zeroed) if it was not yet, and
   * when the field is strong enough the attitude replaces it and a frame is
   * pushed.
   */
  function Accel(st: GamState, ev: SensorEvent, first: U64, attitude: Attitude): (r: Step)
    requires st.solverData.Valid()
    ensures r.0.solverData.Valid()
  {
    if st.lastMagnetEvent.None? then (st, None)
    else
      var withArray := if st.accelMagnetRotation.None? then st.(accelMagnetRotation := Some([0.0, 0.0, 0.0])) else st;
      var accel := Remap(ev.data);
      var magnet := Remap(st.lastMagnetEvent.value.data);
      if WeakField(accel, magnet) then (withArray, None)
      else Push(withArray.(accelMagnetRotation := Some(attitude(accel, magnet))), ev, first)
  }

  /**
   * The gyroscope's rate times the time since the last gyroscope event, in
   * degrees: the `ulong` difference of the timestamps, scaled by 1e-9 s/ns
   * and 180/π.
   */
  function GyroDelta(timestamp: U64, last: U64): (r: real)
    ensures last <= timestamp ==> r == (timestamp - last) as real * NS2S * RAD2GRAD
  {
    SubU64(timestamp, last) as real * NS2S * RAD2GRAD
  }

  /** The gyroscope's rates about the camera's axes: (x, z, -y). */
  function GyroRates(ev: SensorEvent): (r: Vec3)
    ensures r[0] == ev.X() && r[1] == ev.Z() && r[2] == -ev.Y()
  {
    [ev.X(), ev.Z(), -ev.Y()]
  }

  /**
   * HandleGyroEvent: until there is an accelerometer rotation, and for the
   * first gyroscope event, only the timestamp is recorded. Otherwise the
   * gyroscope rotation starts, the first time, from the accelerometer
   * rotation, the rates (x, z, -y) are integrated over the elapsed time, and a
   * frame is pushed.
   */
  function Gyro(st: GamState, ev: SensorEvent, first: U64): (r: Step)
    requires st.solverData.Valid()
    ensures r.0.solverData.Valid()
  {
    if st.accelMagnetRotation.None? || st.lastGyroTimestamp == 0 then
      (st.(lastGyroTimestamp := ev.timestamp), None)
    else
      var start := if st.gyroInitialized then st.gyroRotation else st.accelMagnetRotation.value;
      var dt := GyroDelta(ev.timestamp, st.lastGyroTimestamp);
      Push(st.(gyroInitialized := true, gyroRotation := Advance(start, GyroRates(ev), dt), lastGyroTimestamp := ev.timestamp), ev, first)
  }

  /** HandleSensorEvent: dispatch on the type code; other types are ignored. */
  function Handle(st: GamState, ev: SensorEvent, first: U64, attitude: Attitude): (r: Step)
    requires st.solverData.Valid()
    ensures r.0.solverData.Valid()
  {
    if ev.kind == ACCEL then Accel(st, ev, first, attitude)
    else if ev.kind == GYRO then Gyro(st, ev, first)
    else if ev.kind == MAGNETIC then (st.(lastMagnetEvent := Some(ev)), None)
    else (st, None)
  }

  /**
   * ConsumeSensorData: the events in timestamp order through the handler; an
   * exception stops the loop, leaving the state the handler had reached.
   */
  function Consume(st: GamState, events: seq<SensorEvent>, first: U64, attitude: Attitude): (r: Step)
    requires st.solverData.Valid()
    ensures r.0.solverData.Valid()
    decreases |events|
  {
    if events == [] then (st, None)
    else
      var acc := Consume(st, events[..|events| - 1], first, attitude);
      if acc.1.Some? then acc else Handle(acc.0, events[|events| - 1], first, attitude)
  }

  lemma ConsumeTake(st: GamState, events: seq<SensorEvent>, i: nat, first: U64, attitude: Attitude)
    requires st.solverData.Valid() && i < |events|
    ensures var acc := Consume(st, events[..i], first, attitude);
      Consume(st, events[..i + 1], first, attitude) ==
        if acc.1.Some? then acc else Handle(acc.0, events[i], first, attitude)
  {
    assert events[..i + 1][..i] == events[..i];
  }

  /** After the first exception, later events change nothing. */
  lemma {:induction false} ConsumeErrorSticks(st: GamState, events: seq<SensorEvent>, k: nat, first: U64, attitude: Attitude)
    requires st.solverData.Valid() && k <= |events|
    requires Consume(st, events[..k], first, attitude).1.Some?
    ensures Consume(st, events, first, attitude) == Consume(st, events[..k], first, attitude)
    decreases |events|
  {
    if k < |events| {
      var front := events[..|events| - 1];
      assert front[..k] == events[..k];
      ConsumeErrorSticks(st, front, k, first, attitude);
    } else {
      assert events[..k] == events;
    }
  }

  /** The state the solver is in after events as long as the position array is null. */
  predicate Frameless(st: GamState) {
    st.accelMagnetPosition.None? && st.solverData == EmptyTimeline
  }

  /**
   * With the position array null and no frame stored, no handler stores a
   * frame: the one push that could (at a new time) raises a
   * NullReferenceException, and that is the only exception a handler raises.
   */
  lemma HandleStaysFrameless(st: GamState, ev: SensorEvent, first: U64, attitude: Attitude)
    requires Frameless(st)
    ensures Frameless(Handle(st, ev, first, attitude).0)
    ensures Handle(st, ev, first, attitude).1.Some? ==> Handle(st, ev, first, attitude).1.value == NullReference
  {
  }

  /**
   * Whatever the events, the library GAM solver's timeline stays empty, and
   * consuming stops with a NullReferenceException at the first event that
   * gets as far as a push.
   */
  lemma {:induction false} NoFrameEverStored(st: GamState, events: seq<SensorEvent>, first: U64, attitude: Attitude)
    requires Frameless(st)
    ensures Frameless(Consume(st, events, first, attitude).0)
    ensures Consume(st, events, first, attitude).1.Some? ==> Consume(st, events, first, attitude).1.value == NullReference
    decreases |events|
  {
    if events != [] {
      NoFrameEverStored(st, events[..|events| - 1], first, attitude);
      var acc := Consume(st, events[..|events| - 1], first, attitude);
      if acc.1.None? {
        HandleStaysFrameless(acc.0, events[|events| - 1], first, attitude);
      }
    }
  }

  /**
   * An accelerometer event before any magnetometer reading changes nothing;
   * once there is one, the rotation array exists afterwards, a weak field
   * changes nothing else, and a strong one sets the rotation to the attitude
   * whether or not the push then fails. The gyroscope fields, the position and
   * the last magnetometer reading are never touched, and the only exception is
   * the push's NullReference, which leaves the timeline as it was.
   */
  lemma AccelFacts(st: GamState, ev: SensorEvent, first: U64, attitude: Attitude)
    requires st.solverData.Valid()
    ensures st.lastMagnetEvent.None? ==> Accel(st, ev, first, attitude) == (st, None)
    ensures st.lastMagnetEvent.Some? ==> Accel(st, ev, first, attitude).0.accelMagnetRotation.Some?
    ensures st.lastMagnetEvent.Some? && WeakField(Remap(ev.data), Remap(st.lastMagnetEvent.value.data)) ==>
      var r := Accel(st, ev, first, attitude);
      r.1.None? && r.0.solverData == st.solverData && r.0.gyroRotation == st.gyroRotation
      && r.0.accelMagnetRotation == Some(if st.accelMagnetRotation.Some? then st.accelMagnetRotation.value else [0.0, 0.0, 0.0])
    ensures st.lastMagnetEvent.Some? && !WeakField(Remap(ev.data), Remap(st.lastMagnetEvent.value.data)) ==>
      Accel(st, ev, first, attitude).0.accelMagnetRotation ==
        Some(attitude(Remap(ev.data), Remap(st.lastMagnetEvent.value.data)))
    ensures var r := Accel(st, ev, first, attitude);
      && r.0.gyroRotation == st.gyroRotation && r.0.gyroInitialized == st.gyroInitialized
      && r.0.lastGyroTimestamp == st.lastGyroTimestamp && r.0.lastMagnetEvent == st.lastMagnetEvent
      && r.0.accelMagnetPosition == st.accelMagnetPosition
    ensures var r := Accel(st, ev, first, attitude);
      r.1.Some? ==> r.1.value == NullReference && r.0.solverData == st.solverData
  {
    if st.lastMagnetEvent.Some? && !WeakField(Remap(ev.data), Remap(st.lastMagnetEvent.value.data)) {
      var accel := Remap(ev.data);
      var magnet := Remap(st.lastMagnetEvent.value.data);
      var withArray := if st.accelMagnetRotation.None? then st.(accelMagnetRotation := Some([0.0, 0.0, 0.0])) else st;
      PushOnlyTimeline(withArray.(accelMagnetRotation := Some(attitude(accel, magnet))), ev, first);
      PushFacts(withArray.(accelMagnetRotation := Some(attitude(accel, magnet))), ev, first);
    }
  }

  /**
   * The gyroscope rotation is the accelerometer rotation it started from plus
   * the integrated rates: each integration adds (x, z, -y) · Δt, Δt being the
   * elapsed time since the previous gyroscope event. A repeated timestamp adds
   * nothing.
   */
  lemma GyroIntegrates(st: GamState, ev: SensorEvent, first: U64)
    requires st.solverData.Valid()
    requires st.accelMagnetRotation.Some? && st.lastGyroTimestamp != 0
    ensures var r := Gyro(st, ev, first);
      var start := if st.gyroInitialized then st.gyroRotation else st.accelMagnetRotation.value;
      && r.0.gyroInitialized
      && r.0.lastGyroTimestamp == ev.timestamp
      && r.0.gyroRotation == Advance(start, GyroRates(ev), GyroDelta(ev.timestamp, st.lastGyroTimestamp))
  {
    var start := if st.gyroInitialized then st.gyroRotation else st.accelMagnetRotation.value;
    var dt := GyroDelta(ev.timestamp, st.lastGyroTimestamp);
    PushOnlyTimeline(st.(gyroInitialized := true, gyroRotation := Advance(start, GyroRates(ev), dt), lastGyroTimestamp := ev.timestamp), ev, first);
  }

  /** A gyroscope event with the same timestamp as the previous one adds nothing. */
  lemma GyroRepeatedTimestamp(st: GamState, ev: SensorEvent, first: U64)
    requires st.solverData.Valid()
    requires st.accelMagnetRotation.Some? && st.lastGyroTimestamp != 0 && st.gyroInitialized
    requires ev.timestamp == st.lastGyroTimestamp
    ensures Gyro(st, ev, first).0.gyroRotation == st.gyroRotation
  {
    GyroIntegrates(st, ev, first);
    AdvanceZero(st.gyroRotation, GyroRates(ev), GyroDelta(ev.timestamp, st.lastGyroTimestamp));
  }

  /**
   * Before the first accelerometer rotation, and at the first gyroscope
   * event, a gyroscope event only records its timestamp. A gyroscope event at
   * timestamp 0 is taken for "no gyroscope event yet".
   */
  lemma GyroWaits(st: GamState, ev: SensorEvent, first: U64)
    requires st.solverData.Valid()
    requires st.accelMagnetRotation.None? || st.lastGyroTimestamp == 0
    ensures Gyro(st, ev, first) == (st.(lastGyroTimestamp := ev.timestamp), None)
    ensures ev.timestamp == 0 ==> Gyro(Gyro(st, ev, first).0, ev, first) == Gyro(st, ev, first)
  {
  }

  /**
   * The resampler's grid can run over the timeline the events leave (the
   * loop of SolveFromSolverData ends).
   */
  predicate SolveFits(st: GamState, events: seq<SensorEvent>, first: U64, attitude: Attitude, fps: real)
    requires st.solverData.Valid()
  {
    GridFits(Consume(st, events, first, attitude).0.solverData, fps)
  }

  /**
   * AbstractTrackSolver.Solve on the handlers' state: the new state, the chan
   * frames added and the exception raised, if any.
   */
  function SolveSpec(st: GamState, events: seq<SensorEvent>, first: U64, attitude: Attitude, fps: real): (r: (GamState, seq<ChanFrame>, Option<Error>))
    requires st.solverData.Valid() && SolveFits(st, events, first, attitude, fps)
    ensures r.0 == Consume(st, events, first, attitude).0
    ensures Consume(st, events, first, attitude).1.Some? ==> r.1 == [] && r.2 == Consume(st, events, first, attitude).1
  {
    var (st', err) := Consume(st, events, first, attitude);
    if err.Some? then (st', [], err)
    else
      var (chan, err') := SolveFrames(st'.solverData, fps);
      (st', chan, err')
  }

  /**
   * The library GAM solver never solves: consuming the events raises a
   * NullReferenceException, or leaves the timeline empty, and then either
   * the grid parameters overflow or Last() finds no frame. No chan frame is
   * ever produced.
   */
  lemma SolveAlwaysFails(st: GamState, events: seq<SensorEvent>, first: U64, attitude: Attitude, fps: real)
    requires Frameless(st)
    ensures Frameless(Consume(st, events, first, attitude).0)
    ensures SolveFits(st, events, first, attitude, fps)
    ensures var r := SolveSpec(st, events, first, attitude, fps);
      r.1 == [] && r.2.Some? && r.2.value in {NullReference, Overflow, EmptyCollection}
  {
    NoFrameEverStored(st, events, first, attitude);
  }

  class GamSolver {
    /** The parser's events, in timestamp order. */
    const sensorData: seq<SensorEvent>
    const fps: real
    const firstTimestamp: U64
    const attitude: Attitude
    var solverData: Timeline
    /** The HashSet<ChanFrame>: frames compare by reference, so every Add adds. */
    var chanFrames: seq<ChanFrame>
    var solved: bool

    var gyroInitialized: bool
    var lastGyroTimestamp: U64
    const gyroRotation: array<real>
    var accelMagnetRotation: array?<real>
    /** Never assigned after the constructor leaves it null. */
    const accelMagnetPosition: array?<real>
    var lastMagnetEvent: Option<SensorEvent>

    ghost predicate Valid()
      reads this
    {
      && gyroRotation.Length == 3
      && (accelMagnetRotation != null ==> accelMagnetRotation.Length == 3 && accelMagnetRotation != gyroRotation)
      && (accelMagnetPosition != null ==>
            accelMagnetPosition.Length == 3 && accelMagnetPosition != gyroRotation && accelMagnetPosition != accelMagnetRotation)
      && solverData.Valid()
    }

    /** The handlers' fields as a value. */
    function State(): (st: GamState)
      requires Valid()
      reads this, gyroRotation, accelMagnetRotation, accelMagnetPosition
    {
      GamState(gyroInitialized, lastGyroTimestamp, gyroRotation[..], Snapshot(accelMagnetRotation),
               Snapshot(accelMagnetPosition), lastMagnetEvent, solverData)
    }

    /**
     * The solver over a parser's checked events: nothing handled, no frame,
     * not solved.
     */
    constructor(sensorData: seq<SensorEvent>, firstTimestamp: U64, fps: real, attitude: Attitude)
      ensures Valid() && fresh(gyroRotation)
      ensures this.sensorData == sensorData && this.firstTimestamp == firstTimestamp
      ensures this.fps == fps && this.attitude == attitude && accelMagnetPosition == null
      ensures State() == Initial && chanFrames == [] && !solved
    {
      this.sensorData := sensorData;
      this.firstTimestamp := firstTimestamp;
      this.fps := fps;
      this.attitude := attitude;
      solverData := EmptyTimeline;
      chanFrames := [];
      solved := false;
      gyroInitialized := false;
      lastGyroTimestamp := 0;
      gyroRotation := new real[3](_ => 0.0);
      accelMagnetRotation := null;
      accelMagnetPosition := null;
      lastMagnetEvent := None;
      new;
      assert gyroRotation[..] == [0.0, 0.0, 0.0];
    }

    /**
     * The GAMCameraTrackSolver constructor: the track must be a GAM track
     * with at least one event.
     */
    static method Create(parser: TrackFileParser, fps: real, attitude: Attitude) returns (r: Result<GamSolver, Error>)
      requires parser.Valid()
      modifies parser
      ensures parser.Valid()
      ensures r.Success? ==> fresh(r.value) && r.value.Valid() && r.value.State() == Initial && r.value.accelMagnetPosition == null
      ensures r.Success? ==> parser.trackFileType in {GAM_DEFAULT, GAM_NATIVE} && parser.sensorData != []
      ensures r.Success? ==> r.value.sensorData == parser.sensorData && r.value.firstTimestamp == parser.sensorData[0].timestamp
      ensures r.Success? ==> r.value.chanFrames == [] && !r.value.solved && r.value.fps == fps
    {
      var track :- OpenTrack(parser, {GAM_DEFAULT, GAM_NATIVE});
      var solver := new GamSolver(track.0, track.1, fps, attitude);
      return Success(solver);
    }

    /** PushSolverFrame on the solver's fields. */
    method PushSolverFrame(ev: SensorEvent) returns (err: Option<Error>)
      requires Valid()
      modifies this
      ensures Valid()
      ensures (State(), err) == Push(old(State()), ev, firstTimestamp)
      ensures unchanged(`chanFrames, `solved, `accelMagnetRotation)
    {
      var timestamp := SubU64(ev.timestamp, firstTimestamp);
      if timestamp in solverData.frames {
        var existing := solverData.frames[timestamp];
        var frame: Result<SolverFrame, Error>;
        if ev.kind == ACCEL {
          frame := MakeSolverFrame(timestamp, Snapshot(accelMagnetPosition), Some(existing.rotation));
        } else if ev.kind == GYRO {
          frame := MakeSolverFrame(timestamp, Some(existing.position), Some(gyroRotation[..]));
        } else {
          return None;
        }
        if frame.Failure? {
          return Some(frame.error);
        }
        solverData := Put(solverData, frame.value);
      } else {
        var frame := MakeSolverFrame(timestamp, Snapshot(accelMagnetPosition), Some(gyroRotation[..]));
        if frame.Failure? {
          return Some(frame.error);
        }
        solverData := Put(solverData, frame.value);
      }
      return None;
    }

    /** HandleAccelEvent on the solver's fields. */
    method HandleAccelEvent(ev: SensorEvent) returns (err: Option<Error>)
      requires Valid()
      modifies this, accelMagnetRotation
      ensures Valid()
      ensures (State(), err) == Accel(old(State()), ev, firstTimestamp, attitude)
      ensures accelMagnetRotation == old(accelMagnetRotation) || fresh(accelMagnetRotation)
      ensures unchanged(`chanFrames, `solved)
    {
      ghost var st0 := State();
      if lastMagnetEvent.None? {
        return None;
      }
      if accelMagnetRotation == null {
        accelMagnetRotation := new real[3](_ => 0.0);
        assert accelMagnetRotation[..] == [0.0, 0.0, 0.0];
      }
      ghost var st1 := State();
      assert st1 == if st0.accelMagnetRotation.None? then st0.(accelMagnetRotation := Some([0.0, 0.0, 0.0])) else st0;
      var accel := Remap(ev.data);
      var magnet := Remap(lastMagnetEvent.value.data);
      var h := Cross(accel, magnet);
      if NormSquared(h) < 0.01 {
        assert Accel(st0, ev, firstTimestamp, attitude) == (st1, None);
        return None;
      }
      var rotation := attitude(accel, magnet);
      accelMagnetRotation[0] := rotation[0];
      accelMagnetRotation[1] := rotation[1];
      accelMagnetRotation[2] := rotation[2];
      assert accelMagnetRotation[..] == rotation;
      ghost var st2 := st1.(accelMagnetRotation := Some(rotation));
      assert State() == st2;
      assert Accel(st0, ev, firstTimestamp, attitude) == Push(st2, ev, firstTimestamp);
      err := PushSolverFrame(ev);
    }

    /** The gyroscope rotation moved by `rates · dt`, in place. */
    method AdvanceRotation(rates: Vec3, dt: real)
      requires gyroRotation.Length == 3
      modifies gyroRotation
      ensures gyroRotation[..] == Advance(old(gyroRotation[..]), rates, dt)
    {
      ghost var start: Vec3 := gyroRotation[..];
      gyroRotation[0] := gyroRotation[0] + rates[0] * dt;
      gyroRotation[1] := gyroRotation[1] + rates[1] * dt;
      gyroRotation[2] := gyroRotation[2] + rates[2] * dt;
      ghost var advanced := Advance(start, rates, dt);
      assert gyroRotation[0] == advanced[0] && gyroRotation[1] == advanced[1] && gyroRotation[2] == advanced[2];
    }

    /** HandleGyroEvent on the solver's fields. */
    method HandleGyroEvent(ev: SensorEvent) returns (err: Option<Error>)
      requires Valid()
      modifies this, gyroRotation
      ensures Valid()
      ensures (State(), err) == Gyro(old(State()), ev, firstTimestamp)
      ensures unchanged(`chanFrames, `solved, `accelMagnetRotation)
    {
      ghost var st0 := State();
      if accelMagnetRotation == null || lastGyroTimestamp == 0 {
        lastGyroTimestamp := ev.timestamp;
        assert State() == st0.(lastGyroTimestamp := ev.timestamp);
        return None;
      }
      if !gyroInitialized {
        gyroRotation[0] := accelMagnetRotation[0];
        gyroRotation[1] := accelMagnetRotation[1];
        gyroRotation[2] := accelMagnetRotation[2];
        gyroInitialized := true;
      }
      ghost var start: Vec3 := gyroRotation[..];
      assert start == if st0.gyroInitialized then st0.gyroRotation else st0.accelMagnetRotation.value;
      var deltaT := GyroDelta(ev.timestamp, lastGyroTimestamp);
      AdvanceRotation(GyroRates(ev), deltaT);
      ghost var advanced := Advance(start, GyroRates(ev), deltaT);
      lastGyroTimestamp := ev.timestamp;
      ghost var st1 := st0.(gyroInitialized := true, gyroRotation := advanced, lastGyroTimestamp := ev.timestamp);
      assert State() == st1;
      assert Gyro(st0, ev, firstTimestamp) == Push(st1, ev, firstTimestamp);
      err := PushSolverFrame(ev);
    }

    /** HandleSensorEvent on the solver's fields. */
    method HandleSensorEvent(ev: SensorEvent) returns (err: Option<Error>)
      requires Valid()
      modifies this, gyroRotation, accelMagnetRotation
      ensures Valid()
      ensures (State(), err) == Handle(old(State()), ev, firstTimestamp, attitude)
      ensures accelMagnetRotation == old(accelMagnetRotation) || fresh(accelMagnetRotation)
      ensures unchanged(`chanFrames, `solved)
    {
      err := None;
      if ev.kind == ACCEL {
        err := HandleAccelEvent(ev);
      } else if ev.kind == GYRO {
        err := HandleGyroEvent(ev);
      } else if ev.kind == MAGNETIC {
        lastMagnetEvent := Some(ev);
      }
    }

    /** ConsumeSensorData: every event through the handler, in timestamp order. */
    method ConsumeSensorData() returns (err: Option<Error>)
      requires Valid()
      modifies this, gyroRotation, accelMagnetRotation
      ensures Valid()
      ensures (State(), err) == Consume(old(State()), sensorData, firstTimestamp, attitude)
      ensures unchanged(`chanFrames, `solved)
    {
      ghost var st0 := State();
      var i := 0;
      while i < |sensorData|
        invariant 0 <= i <= |sensorData| && Valid()
        invariant Consume(st0, sensorData[..i], firstTimestamp, attitude) == (State(), None)
        invariant accelMagnetRotation == old(accelMagnetRotation) || fresh(accelMagnetRotation)
        invariant unchanged(`chanFrames, `solved)
      {
        ConsumeTake(st0, sensorData, i, firstTimestamp, attitude);
        err := HandleSensorEvent(sensorData[i]);
        if err.Some? {
          ConsumeErrorSticks(st0, sensorData, i + 1, firstTimestamp, attitude);
          return err;
        }
        i := i + 1;
      }
      assert sensorData[..|sensorData|] == sensorData;
      return None;
    }

    /**
     * Solve: consume the events, then resample the timeline; `solved` is set
     * only when both finish. The chan frames produced before an exception in
     * the resampler stay in the set.
     */
    method Solve() returns (err: Option<Error>)
      requires Valid() && SolveFits(State(), sensorData, firstTimestamp, attitude, fps)
      modifies this, gyroRotation, accelMagnetRotation
      ensures Valid()
      ensures var (st, chan, e) := SolveSpec(old(State()), sensorData, firstTimestamp, attitude, fps);
        State() == st && chanFrames == old(chanFrames) + chan && err == e
      ensures solved == (old(solved) || err.None?)
    {
      err := ConsumeSensorData();
      if err.Some? {
        return err;
      }
      var chan;
      chan, err := SolveFromSolverData();
      if err.None? {
        solved := true;
      }
    }

    /** SolveFromSolverData on the solver's timeline; the frames found are added to the set. */
    method SolveFromSolverData() returns (chan: seq<ChanFrame>, err: Option<Error>)
      requires Valid() && GridFits(solverData, fps)
      modifies this
      ensures Valid() && unchanged(this`solved, this`solverData)
      ensures (chan, err) == SolveFrames(solverData, fps)
      ensures chanFrames == old(chanFrames) + chan
      ensures State() == old(State())
    {
      var grid := FrameGrid(fps);
      if grid.Failure? {
        return [], Some(grid.error);
      }
      var (range, step) := grid.value;
      chan, err := TrackSolvers.SolveFromSolverData(solverData, step, range);
      chanFrames := chanFrames + chan;
    }
  }
}
