/**
 * The command-line program's GAMCameraTrackSolver: the accelerometer and the
 * last magnetometer reading give a rotation, every accelerometer event after
 * the first half second stores a frame in a SortedList keyed by its time
 * since the first kept event, and the resampler walks a grid of rounded
 * multiples of the frame length.
 *
 * The command-line SolverFrame wraps its arrays with
 * `Vector.Build.DenseOfArray`, which binds the array without copying it. The
 * position is a fresh `new double[3]` per frame, but the rotation is the
 * solver's one accelMagnetRotation array, which is allocated once and then
 * overwritten in place: every stored frame reads the rotation the array holds
 * at the time it is read. A stored frame is therefore modelled as its
 * timestamp and position only, and its rotation is read from the solver's
 * array.
 */
module CmdGamSolvers {
  import opened Wrappers
  import opened Numeric
  import opened Errors
  import opened SensorEvents
  import opened ChanFrames
  import SF = SolverFrames
  import TS = TrackSolvers
  import Gam = GamSolvers
  import CmdParsers = CmdTrackFileParsers
  import Ingestion
  import Files = ChanFiles

  /** Events within half a second of the track's first event are dropped. */
  const SETTLE_NS: U64 := 500_000_000

  const ZERO: Vec3 := [0.0, 0.0, 0.0]

  // ---------------------------------------------------------------------
  // The constructor: the events kept, the first timestamp, the frame length
  // ---------------------------------------------------------------------

  /**
   * The lazy `Where` over the parser's events: those whose `ulong` distance
   * from the track's first timestamp exceeds half a second, in their order.
   */
  function Settled(events: seq<SensorEvent>, rawFirst: U64): (r: seq<SensorEvent>)
    ensures |r| <= |events|
    ensures forall e | e in r :: e in events && SubU64(e.timestamp, rawFirst) > SETTLE_NS
    ensures forall i | 0 <= i < |events| && SubU64(events[i].timestamp, rawFirst) > SETTLE_NS :: events[i] in r
    decreases |events|
  {
    if events == [] then []
    else
      var front := Settled(events[..|events| - 1], rawFirst);
      var e := events[|events| - 1];
      assert forall i | 0 <= i < |events| - 1 :: events[i] == events[..|events| - 1][i];
      if SubU64(e.timestamp, rawFirst) > SETTLE_NS then front + [e] else front
  }

  /** Filtering keeps the strict timestamp order of the parser's set. */
  lemma {:induction false} SettledSorted(events: seq<SensorEvent>, rawFirst: U64)
    requires CmdParsers.StrictlySorted(events)
    ensures CmdParsers.StrictlySorted(Settled(events, rawFirst))
    decreases |events|
  {
    if events != [] {
      var front := events[..|events| - 1];
      var e := events[|events| - 1];
      SettledSorted(front, rawFirst);
      var kept := Settled(front, rawFirst);
      if SubU64(e.timestamp, rawFirst) > SETTLE_NS {
        var r := kept + [e];
        assert Settled(events, rawFirst) == r;
        forall i, j | 0 <= i < j < |r|
          ensures r[i].timestamp < r[j].timestamp
        {
          assert r[i] == kept[i];
          if j < |kept| {
            assert r[j] == kept[j];
          } else {
            var n :| 0 <= n < |front| && front[n] == kept[i];
            assert events[n] == kept[i];
          }
        }
      }
    }
  }

  /**
   * When the events are sorted and measured from the first of them, no
   * `ulong` difference wraps: an event is kept exactly when it comes more
   * than half a second after the first.
   */
  lemma SettledAfterHalfSecond(events: seq<SensorEvent>)
    requires CmdParsers.StrictlySorted(events) && events != []
    ensures var r := Settled(events, events[0].timestamp);
      && (forall e | e in r :: e.timestamp > events[0].timestamp + SETTLE_NS)
      && (forall i | 0 <= i < |events| && events[i].timestamp > events[0].timestamp + SETTLE_NS :: events[i] in r)
      && events[0] !in r
  {
    var r := Settled(events, events[0].timestamp);
    forall e | e in r
      ensures e.timestamp > events[0].timestamp + SETTLE_NS
    {
      var i :| 0 <= i < |events| && events[i] == e;
      if i > 0 {
        assert events[0].timestamp < events[i].timestamp;
      }
    }
  }

  /**
   * The frame length in nanoseconds, 1e9 / fps; None stands for the infinity
   * a frame rate of 0 gives. It is never 0.
   */
  function NsPerFrame(fps: real): (r: Option<real>)
    ensures r.None? <==> fps == 0.0
    ensures r.Some? ==> r.value != 0.0 && r.value * fps == 1_000_000_000.0
  {
    if fps == 0.0 then None else Some(1_000_000_000.0 / fps)
  }

  /**
   * The constructor's checks on a parsed track: the tracker type must be one
   * of the two GAM types, the parser must hold an event (First() on the
   * parser's set), and so must the filtered sequence (First() on the
   * `Where`). Returns the events kept and the first timestamp.
   */
  function CheckTrack(trackFileType: U32, data: seq<SensorEvent>): (r: Result<(seq<SensorEvent>, U64), Error>)
    ensures r.Success? ==> trackFileType in {CmdParsers.GAM_DEFAULT, CmdParsers.GAM_NATIVE} && data != []
    ensures r.Success? ==> r.value.0 == Settled(data, data[0].timestamp) && r.value.0 != [] && r.value.1 == r.value.0[0].timestamp
    ensures r.Failure? && trackFileType !in {CmdParsers.GAM_DEFAULT, CmdParsers.GAM_NATIVE} ==> r.error == IncompatibleTrackType
    ensures r.Failure? && trackFileType in {CmdParsers.GAM_DEFAULT, CmdParsers.GAM_NATIVE} ==>
      r.error == EmptyCollection && (data == [] || Settled(data, data[0].timestamp) == [])
  {
    if trackFileType != CmdParsers.GAM_DEFAULT && trackFileType != CmdParsers.GAM_NATIVE then Failure(IncompatibleTrackType)
    else if data == [] then Failure(EmptyCollection)
    else
      var kept := Settled(data, data[0].timestamp);
      if kept == [] then Failure(EmptyCollection) else Success((kept, kept[0].timestamp))
  }

  /**
   * The parser is parsed first if it was not yet, and is left as Parse
   * leaves it; a parse error propagates, otherwise the track is checked.
   */
  method OpenCmdTrack(parser: CmdParsers.CmdTrackFileParser) returns (r: Result<(seq<SensorEvent>, U64), Error>)
    requires parser.Valid()
    modifies parser
    ensures parser.Valid()
    ensures old(parser.parsed) ==> unchanged(parser)
    ensures parser.parsed ==> r == CheckTrack(parser.trackFileType, parser.sensorData)
    ensures !parser.parsed ==> r.Failure?
    ensures !old(parser.parsed) ==>
      var (kind, data, parse) := Ingestion.ParseSpec(parser.content, parser.syntax.parseU32, CmdParsers.CmdDecoder(parser.syntax), CmdParsers.AddUnique,
                                                     old(parser.trackFileType), old(parser.sensorData));
      && parser.trackFileType == kind && parser.sensorData == data && parser.parsed == parse.Success?
      && (parse.Failure? ==> r == Failure(parse.error))
  {
    if !parser.parsed {
      var p := parser.Parse();
      if p.Failure? {
        return Failure(p.error);
      }
    }
    r := CheckTrack(parser.trackFileType, parser.sensorData);
  }

  // ---------------------------------------------------------------------
  // The SortedList<ulong, SolverFrame>
  // ---------------------------------------------------------------------

  /**
   * A stored SolverFrame: its timestamp and its own position array. Its
   * rotation vector is bound to the solver's accelMagnetRotation array.
   */
  datatype CmdFrame = CmdFrame(timestamp: U64, position: Vec3)

  /**
   * The SolverFrame constructor with the position and the solver's rotation
   * array: DenseOfArray dereferences the array, so a null rotation raises a
   * NullReferenceException.
   */
  function BindFrame(timestamp: U64, position: Vec3, rotation: Option<Vec3>): (r: Result<CmdFrame, Error>)
    ensures r.Success? <==> rotation.Some?
    ensures r.Failure? ==> r.error == NullReference
    ensures r.Success? ==> r.value.timestamp == timestamp && r.value.position == position
  {
    if rotation.None? then Failure(NullReference) else Success(CmdFrame(timestamp, position))
  }

  /** The list's frames by key, and its keys in enumeration order. */
  datatype SortedList = SortedList(frames: map<U64, CmdFrame>, keys: seq<U64>)
  {
    /**
     * The keys are the map's, enumerated in increasing order, and each frame
     * is stored under its own timestamp.
     */
    predicate Valid() {
      && TS.Increasing(keys)
      && (forall k | k in frames :: k in keys)
      && (forall i | 0 <= i < |keys| :: keys[i] in frames)
      && (forall k | k in frames :: frames[k].timestamp == k)
    }

    /** Last().Key: the largest key. */
    function LastKey(): (k: U64)
      requires Valid() && keys != []
      ensures k in frames && forall j | j in frames :: j <= k
    {
      var k := keys[|keys| - 1];
      forall j | j in frames
        ensures j <= k
      {
        var i :| 0 <= i < |keys| && keys[i] == j;
      }
      k
    }
  }

  const EmptyList: SortedList := SortedList(map[], [])

  /** The index of the first key at least `key`, or the length. */
  function Slot(keys: seq<U64>, key: U64): (i: nat)
    ensures i <= |keys|
    ensures forall j | 0 <= j < i :: keys[j] < key
    ensures i < |keys| ==> key <= keys[i]
  {
    if keys == [] || key <= keys[0] then 0
    else 1 + Slot(keys[1..], key)
  }

  /** The keys with `key` inserted at its slot. */
  function InsertKey(keys: seq<U64>, key: U64): seq<U64> {
    var i := Slot(keys, key);
    keys[..i] + [key] + keys[i..]
  }

  lemma InsertKeyAt(keys: seq<U64>, key: U64)
    ensures var i := Slot(keys, key); var s := InsertKey(keys, key);
      && |s| == |keys| + 1 && s[i] == key
      && (forall j | 0 <= j < i :: s[j] == keys[j])
      && (forall j | i < j < |s| :: s[j] == keys[j - 1])
  {
  }

  /** A key not yet present, inserted at its slot, keeps the keys increasing. */
  lemma InsertKeySorted(keys: seq<U64>, key: U64)
    requires TS.Increasing(keys) && key !in keys
    ensures TS.Increasing(InsertKey(keys, key))
  {
    var i := Slot(keys, key);
    var s := InsertKey(keys, key);
    InsertKeyAt(keys, key);
    forall a, b | 0 <= a < b < |s|
      ensures s[a] < s[b]
    {
      if b < i {
        assert s[a] == keys[a] && s[b] == keys[b];
      } else if a > i {
        assert s[a] == keys[a - 1] && s[b] == keys[b - 1];
      } else if a == i {
        assert s[b] == keys[b - 1];
        assert keys[i] <= keys[b - 1];
        assert key != keys[b - 1];
      } else if b == i {
        assert s[a] == keys[a];
      } else {
        assert s[a] == keys[a] && s[b] == keys[b - 1];
      }
    }
  }

  lemma InsertKeyMembers(keys: seq<U64>, key: U64)
    ensures forall x | x in InsertKey(keys, key) :: x in keys || x == key
    ensures forall x | x in keys :: x in InsertKey(keys, key)
    ensures key in InsertKey(keys, key)
  {
    var i := Slot(keys, key);
    var s := InsertKey(keys, key);
    InsertKeyAt(keys, key);
    forall x | x in keys
      ensures x in s
    {
      var j :| 0 <= j < |keys| && keys[j] == x;
      if j < i {
        assert s[j] == x;
      } else {
        assert s[j + 1] == x;
      }
    }
  }

  lemma AddValid(list: SortedList, f: CmdFrame)
    requires list.Valid() && f.timestamp !in list.frames
    ensures SortedList(list.frames[f.timestamp := f], InsertKey(list.keys, f.timestamp)).Valid()
  {
    var frames := list.frames[f.timestamp := f];
    var keys := InsertKey(list.keys, f.timestamp);
    assert f.timestamp !in list.keys;
    InsertKeySorted(list.keys, f.timestamp);
    InsertKeyMembers(list.keys, f.timestamp);
    forall k | k in frames
      ensures k in keys && frames[k].timestamp == k
    {
      if k != f.timestamp {
        assert k in list.frames;
      }
    }
    forall i | 0 <= i < |keys|
      ensures keys[i] in frames
    {
      assert keys[i] in list.keys || keys[i] == f.timestamp;
    }
  }

  /**
   * SortedList.Add(frame.Timestamp, frame): an ArgumentException when the
   * key is present, otherwise the frame is stored and its key enumerated in
   * order.
   */
  function Add(list: SortedList, f: CmdFrame): (r: Result<SortedList, Error>)
    requires list.Valid()
    ensures r.Failure? <==> f.timestamp in list.frames
    ensures r.Failure? ==> r.error == DuplicateKey
    ensures r.Success? ==> r.value.Valid() && r.value.frames == list.frames[f.timestamp := f]
  {
    if f.timestamp in list.frames then Failure(DuplicateKey)
    else
      AddValid(list, f);
      Success(SortedList(list.frames[f.timestamp := f], InsertKey(list.keys, f.timestamp)))
  }

  // ---------------------------------------------------------------------
  // Consuming the events
  // ---------------------------------------------------------------------

  /**
   * The fields the handlers read and write: the rotation array (None while
   * null), the last magnetometer event (None while null) and the list.
   */
  datatype CmdGamState = CmdGamState(accelMagnetRotation: Option<Vec3>, lastMagnetEvent: Option<SensorEvent>, solverData: SortedList)

  type Step = (CmdGamState, Option<Error>)

  const CmdInitial: CmdGamState := CmdGamState(None, None, EmptyList)

  /**
   * What the handlers maintain: the list is valid, every stored position is
   * the zeroed `new double[3]`, and a frame can only be stored once the
   * rotation array exists.
   */
  predicate Consistent(st: CmdGamState) {
    && st.solverData.Valid()
    && (forall k | k in st.solverData.frames :: st.solverData.frames[k].position == ZERO)
    && (st.solverData.frames != map[] ==> st.accelMagnetRotation.Some?)
  }

  /**
   * The rotation array after HandleAccelEvent: untouched before the first
   * magnetometer reading; otherwise allocated (zeroed) if null, and
   * overwritten with the attitude of the remapped readings unless the field
   * is too weak.
   */
  function AccelRotation(st: CmdGamState, ev: SensorEvent, attitude: Gam.Attitude): (r: Option<Vec3>)
    ensures st.accelMagnetRotation.Some? || st.lastMagnetEvent.Some? ==> r.Some?
    ensures st.lastMagnetEvent.None? ==> r == st.accelMagnetRotation
  {
    if st.lastMagnetEvent.None? then st.accelMagnetRotation
    else
      var accel := Gam.Remap(ev.data);
      var magnet := Gam.Remap(st.lastMagnetEvent.value.data);
      if Gam.WeakField(accel, magnet) then Some(if st.accelMagnetRotation.None? then ZERO else st.accelMagnetRotation.value)
      else Some(attitude(accel, magnet))
  }

  /**
   * The ACCEL case of ConsumeSensorData: HandleAccelEvent, then a frame with
   * a zeroed position and the rotation array is added at the event's time
   * since the first kept event. It is added even when the handler returned
   * early.
   */
  function AccelStep(st: CmdGamState, ev: SensorEvent, first: U64, attitude: Gam.Attitude): (r: Step)
    requires Consistent(st)
    ensures Consistent(r.0)
  {
    var st1 := st.(accelMagnetRotation := AccelRotation(st, ev, attitude));
    var key := SubU64(ev.timestamp, first);
    match BindFrame(key, ZERO, st1.accelMagnetRotation)
    case Failure(e) => (st1, Some(e))
    case Success(f) =>
      match Add(st1.solverData, f)
      case Failure(e) => (st1, Some(e))
      case Success(list) => (st1.(solverData := list), None)
  }

  /**
   * The switch of ConsumeSensorData: accelerometer events go through
   * AccelStep, magnetometer events are remembered, and everything else,
   * gyroscope events included, is ignored.
   */
  function Handle(st: CmdGamState, ev: SensorEvent, first: U64, attitude: Gam.Attitude): (r: Step)
    requires Consistent(st)
    ensures Consistent(r.0)
  {
    if ev.kind == ACCEL then AccelStep(st, ev, first, attitude)
    else if ev.kind == MAGNETIC then (st.(lastMagnetEvent := Some(ev)), None)
    else (st, None)
  }

  /** ConsumeSensorData: the events in order; an exception ends the loop. */
  function Consume(st: CmdGamState, events: seq<SensorEvent>, first: U64, attitude: Gam.Attitude): (r: Step)
    requires Consistent(st)
    ensures Consistent(r.0)
    decreases |events|
  {
    if events == [] then (st, None)
    else
      var acc := Consume(st, events[..|events| - 1], first, attitude);
      if acc.1.Some? then acc else Handle(acc.0, events[|events| - 1], first, attitude)
  }

  lemma ConsumeTake(st: CmdGamState, events: seq<SensorEvent>, i: nat, first: U64, attitude: Gam.Attitude)
    requires Consistent(st) && i < |events|
    ensures var acc := Consume(st, events[..i], first, attitude);
      Consume(st, events[..i + 1], first, attitude) ==
        if acc.1.Some? then acc else Handle(acc.0, events[i], first, attitude)
  {
    assert events[..i + 1][..i] == events[..i];
  }

  /** After the first exception, later events change nothing. */
  lemma {:induction false} ConsumeErrorSticks(st: CmdGamState, events: seq<SensorEvent>, k: nat, first: U64, attitude: Gam.Attitude)
    requires Consistent(st) && k <= |events|
    requires Consume(st, events[..k], first, attitude).1.Some?
    ensures Consume(st, events, first, attitude) == Consume(st, events[..k], first, attitude)
    decreases |events|
  {
    if k < |events| {
      var front := events[..|events| - 1];
      assert front[..k] == events[..k];
      ConsumeErrorSticks(st, front, k, first, attitude);
    } else {
      assert events[..k] == events;
    }
  }

  /**
   * Only accelerometer events touch the list or the rotation array, and
   * only they can raise an exception.
   */
  lemma OnlyAccelStores(st: CmdGamState, ev: SensorEvent, first: U64, attitude: Gam.Attitude)
    requires Consistent(st) && ev.kind != ACCEL
    ensures var (st', err) := Handle(st, ev, first, attitude);
      && err.None?
      && st'.solverData == st.solverData
      && st'.accelMagnetRotation == st.accelMagnetRotation
      && (ev.kind == MAGNETIC ==> st'.lastMagnetEvent == Some(ev))
      && (ev.kind != MAGNETIC ==> st' == st)
  {
  }

  /**
   * The only NullReferenceException: an accelerometer event before any
   * magnetometer reading, while the rotation array is still null. Once a
   * magnetometer reading has been seen, the only exception left is a key
   * that is already stored.
   */
  lemma AccelErrors(st: CmdGamState, ev: SensorEvent, first: U64, attitude: Gam.Attitude)
    requires Consistent(st) && ev.kind == ACCEL
    ensures var (st', err) := Handle(st, ev, first, attitude);
      && (st.lastMagnetEvent.None? && st.accelMagnetRotation.None? ==> st' == st && err == Some(NullReference))
      && (st.lastMagnetEvent.Some? || st.accelMagnetRotation.Some? ==>
            (err.Some? <==> SubU64(ev.timestamp, first) in st.solverData.frames) &&
            (err.Some? ==> err.value == DuplicateKey && st'.solverData == st.solverData))
      && (err.None? ==> st'.solverData.frames == st.solverData.frames[SubU64(ev.timestamp, first) := CmdFrame(SubU64(ev.timestamp, first), ZERO)])
  {
  }

  /**
   * The rotation an accelerometer event leaves: the attitude of the remapped
   * accelerometer and magnetometer readings when the field is strong enough;
   * with a weak field the rotation the array already held (zeros if it was
   * just allocated) is kept, and the frame stored at this event shows that
   * stale rotation.
   */
  lemma AccelRotationFollowsField(st: CmdGamState, ev: SensorEvent, first: U64, attitude: Gam.Attitude)
    requires Consistent(st) && ev.kind == ACCEL && st.lastMagnetEvent.Some?
    ensures var accel := Gam.Remap(ev.data);
      var magnet := Gam.Remap(st.lastMagnetEvent.value.data);
      var st' := Handle(st, ev, first, attitude).0;
      && (!Gam.WeakField(accel, magnet) ==> st'.accelMagnetRotation == Some(attitude(accel, magnet)))
      && (Gam.WeakField(accel, magnet) && st.accelMagnetRotation.Some? ==> st'.accelMagnetRotation == st.accelMagnetRotation)
      && (Gam.WeakField(accel, magnet) && st.accelMagnetRotation.None? ==> st'.accelMagnetRotation == Some(ZERO))
  {
  }

  /** The list's keys for the accelerometer events among `events`. */
  function AccelKeys(events: seq<SensorEvent>, first: U64): set<U64> {
    set i | 0 <= i < |events| && events[i].kind == ACCEL :: SubU64(events[i].timestamp, first)
  }

  lemma AccelKeysSnoc(events: seq<SensorEvent>, first: U64)
    requires events != []
    ensures var e := events[|events| - 1];
      AccelKeys(events, first) ==
        AccelKeys(events[..|events| - 1], first) + (if e.kind == ACCEL then {SubU64(e.timestamp, first)} else {})
  {
    var front := events[..|events| - 1];
    forall k | k in AccelKeys(events, first)
      ensures k in AccelKeys(front, first) || (events[|events| - 1].kind == ACCEL && k == SubU64(events[|events| - 1].timestamp, first))
    {
      var i :| 0 <= i < |events| && events[i].kind == ACCEL && SubU64(events[i].timestamp, first) == k;
      if i < |front| {
        assert front[i] == events[i];
      }
    }
    forall k | k in AccelKeys(front, first)
      ensures k in AccelKeys(events, first)
    {
      var i :| 0 <= i < |front| && front[i].kind == ACCEL && SubU64(front[i].timestamp, first) == k;
      assert events[i] == front[i];
    }
  }

  /** The keys one event adds: its own, if it is an accelerometer event. */
  lemma HandleKeys(st: CmdGamState, ev: SensorEvent, first: U64, attitude: Gam.Attitude)
    requires Consistent(st)
    ensures var (st', err) := Handle(st, ev, first, attitude);
      var added := if ev.kind == ACCEL then {SubU64(ev.timestamp, first)} else {};
      && st.solverData.frames.Keys <= st'.solverData.frames.Keys <= st.solverData.frames.Keys + added
      && (err.None? ==> st'.solverData.frames.Keys == st.solverData.frames.Keys + added)
  {
    if ev.kind == ACCEL {
      AccelErrors(st, ev, first, attitude);
    } else {
      OnlyAccelStores(st, ev, first, attitude);
    }
  }

  /**
   * The list holds the stored keys and those of the accelerometer events
   * consumed: all of them when no exception was raised, a subset otherwise.
   */
  lemma {:induction false} ConsumeKeys(st: CmdGamState, events: seq<SensorEvent>, first: U64, attitude: Gam.Attitude)
    requires Consistent(st)
    ensures var (st', err) := Consume(st, events, first, attitude);
      && st.solverData.frames.Keys <= st'.solverData.frames.Keys
      && st'.solverData.frames.Keys <= st.solverData.frames.Keys + AccelKeys(events, first)
      && (err.None? ==> st'.solverData.frames.Keys == st.solverData.frames.Keys + AccelKeys(events, first))
    decreases |events|
  {
    if events != [] {
      var front := events[..|events| - 1];
      var e := events[|events| - 1];
      ConsumeKeys(st, front, first, attitude);
      AccelKeysSnoc(events, first);
      var acc := Consume(st, front, first, attitude);
      if acc.1.None? {
        HandleKeys(acc.0, e, first, attitude);
        assert Consume(st, events, first, attitude) == Handle(acc.0, e, first, attitude);
      } else {
        assert Consume(st, events, first, attitude) == acc;
      }
    }
  }

  /**
   * The track parser's set enumerates strictly increasing timestamps, all at
   * or after the first kept one, so two accelerometer events never share a
   * key and the only exception consuming can raise is the
   * NullReferenceException of an accelerometer event before any
   * magnetometer reading.
   */
  lemma {:induction false} SortedEventsNeverCollide(st: CmdGamState, events: seq<SensorEvent>, first: U64, attitude: Gam.Attitude)
    requires Consistent(st) && CmdParsers.StrictlySorted(events)
    requires forall i | 0 <= i < |events| :: first <= events[i].timestamp
    requires forall k, i | k in st.solverData.frames && 0 <= i < |events| :: k < events[i].timestamp - first
    ensures var err := Consume(st, events, first, attitude).1;
      err.Some? ==> err.value == NullReference
    decreases |events|
  {
    if events != [] {
      var front := events[..|events| - 1];
      var e := events[|events| - 1];
      SortedEventsNeverCollide(st, front, first, attitude);
      ConsumeKeys(st, front, first, attitude);
      var acc := Consume(st, front, first, attitude);
      if acc.1.None? && e.kind == ACCEL {
        var key := SubU64(e.timestamp, first);
        forall k | k in AccelKeys(front, first)
          ensures k < key
        {
          var i :| 0 <= i < |front| && front[i].kind == ACCEL && SubU64(front[i].timestamp, first) == k;
          assert front[i] == events[i];
        }
        assert key !in acc.0.solverData.frames;
        AccelErrors(acc.0, e, first, attitude);
      }
    }
  }

  /** Events that are neither accelerometer nor magnetometer events. */
  predicate Ignored(events: seq<SensorEvent>) {
    forall i | 0 <= i < |events| :: events[i].kind != ACCEL && events[i].kind != MAGNETIC
  }

  lemma {:induction false} IgnoredChangeNothing(st: CmdGamState, events: seq<SensorEvent>, first: U64, attitude: Gam.Attitude)
    requires Consistent(st) && Ignored(events)
    ensures Consume(st, events, first, attitude) == (st, None)
    decreases |events|
  {
    if events != [] {
      IgnoredChangeNothing(st, events[..|events| - 1], first, attitude);
    }
  }

  /**
   * A track whose first accelerometer event comes before any magnetometer
   * event cannot be solved: the fresh solver raises a NullReferenceException
   * at that event and stores nothing.
   */
  lemma AccelBeforeMagnetFails(events: seq<SensorEvent>, i: nat, first: U64, attitude: Gam.Attitude)
    requires i < |events| && events[i].kind == ACCEL && Ignored(events[..i])
    ensures Consume(CmdInitial, events, first, attitude) == (CmdInitial, Some(NullReference))
  {
    IgnoredChangeNothing(CmdInitial, events[..i], first, attitude);
    ConsumeTake(CmdInitial, events, i, first, attitude);
    AccelErrors(CmdInitial, events[i], first, attitude);
    ConsumeErrorSticks(CmdInitial, events, i + 1, first, attitude);
  }

  // ---------------------------------------------------------------------
  // SolveFromSolverData
  // ---------------------------------------------------------------------

  /**
   * currentTimestamp for frame counter k: 0 to begin with, then
   * Convert.ToUInt64(k · nsPerFrame), which rounds half to even and
   * overflows outside the `ulong` range or on an infinite frame length. The
   * grid does not drift: each point is within half a nanosecond of k times
   * the frame length.
   */
  function GridTime(k: nat, p: Option<real>): (r: Option<U64>)
    ensures k == 0 ==> r == Some(0)
    ensures k > 0 && p.None? ==> r.None?
    ensures k > 0 && p.Some? && r.Some? ==> k as real * p.value - 0.5 <= r.value as real <= k as real * p.value + 0.5
  {
    if k == 0 then Some(0)
    else if p.None? then None
    else ToU64(k as real * p.value)
  }

  /** limitTimestamp: Convert.ToUInt64(t + nsPerFrame / 2). */
  function WindowEnd(t: U64, p: Option<real>): (r: Option<U64>)
    ensures p.None? ==> r.None?
    ensures p.Some? && r.Some? ==> t as real + p.value / 2.0 - 0.5 <= r.value as real <= t as real + p.value / 2.0 + 0.5
  {
    if p.None? then None else ToU64(t as real + p.value / 2.0)
  }

  /**
   * The frame the resampler picks at grid time `t`: the one stored at `t`,
   * else the first one after `t` and before the window's end; Success(None)
   * when there is none, and an OverflowException when the window's end does
   * not convert.
   */
  function Lookup(list: SortedList, t: U64, p: Option<real>): (r: Result<Option<U64>, Error>)
    ensures t in list.frames ==> r == Success(Some(t))
    ensures t !in list.frames ==> (r.Failure? <==> WindowEnd(t, p).None?)
    ensures r.Failure? ==> r.error == Overflow
    ensures r.Success? && r.value.Some? ==> var k := r.value.value;
      && k in list.frames
      && (k == t || t < k < WindowEnd(t, p).value)
      && forall j | t <= j < k :: j !in list.frames
    ensures r.Success? && r.value.None? ==>
      t !in list.frames && forall j | t < j < WindowEnd(t, p).value :: j !in list.frames
  {
    if t in list.frames then Success(Some(t))
    else match WindowEnd(t, p)
      case None => Failure(Overflow)
      case Some(limit) => Success(TS.FirstKey(list.frames, t + 1, limit))
  }

  /** The absolute value. */
  function Abs(x: real): (r: real)
    ensures 0.0 <= r && (r == x || r == -x)
  {
    if x < 0.0 then -x else x
  }

  /** One more than the number of grid points below maxTs + 1. */
  function GridBound(p: Option<real>, maxTs: U64): (n: nat)
    requires p != Some(0.0)
    ensures 1 <= n
  {
    if p.None? then 1
    else
      var x := (maxTs as real + 1.0) / Abs(p.value);
      assert 0.0 <= x by {
        assert x * Abs(p.value) == maxTs as real + 1.0;
      }
      x.Floor + 1
  }

  /** A grid point below maxTs has a counter below the bound: the loop ends. */
  lemma BelowBound(k: nat, p: Option<real>, maxTs: U64, t: U64)
    requires p != Some(0.0) && GridTime(k, p) == Some(t) && t < maxTs
    ensures k < GridBound(p, maxTs)
  {
    if k > 0 {
      var q := p.value;
      var a := Abs(q);
      var m := maxTs as real + 1.0;
      assert k as real * a < m by {
        if q < 0.0 {
          assert k as real * a == -(k as real * q);
        }
      }
      var x := m / a;
      assert x * a == m;
      if x <= k as real {
        MulLe(x, k as real, a);
        assert false;
      }
      assert k <= x.Floor;
    }
  }

  /**
   * The loop of SolveFromSolverData from frame counter k at grid time t, the
   * frames emitted so far in `acc`: each frame is numbered k + 1 and takes
   * the picked frame's position and the rotation array's contents `rot`.
   * The frame is added before the next grid time is converted.
   */
  function CmdRun(list: SortedList, maxTs: U64, p: Option<real>, rot: Vec3, k: nat, t: U64, acc: seq<ChanFrame>): (r: (seq<ChanFrame>, Option<Error>))
    requires p != Some(0.0) && GridTime(k, p) == Some(t)
    decreases GridBound(p, maxTs) - k
  {
    if maxTs <= t then (acc, None)
    else
      BelowBound(k, p, maxTs, t);
      match Lookup(list, t, p)
      case Failure(e) => (acc, Some(e))
      case Success(None) => (acc, Some(UnresolvedFrame(k + 1)))
      case Success(Some(key)) =>
        var acc' := acc + [ChanFrame(k + 1, list.frames[key].position, rot)];
        match GridTime(k + 1, p)
        case None => (acc', Some(Overflow))
        case Some(t') => CmdRun(list, maxTs, p, rot, k + 1, t', acc')
  }

  /** One turn of the loop, as the method takes it. */
  lemma CmdRunStep(list: SortedList, maxTs: U64, p: Option<real>, rot: Vec3, k: nat, t: U64, acc: seq<ChanFrame>)
    requires p != Some(0.0) && GridTime(k, p) == Some(t) && t < maxTs
    ensures k < GridBound(p, maxTs)
    ensures var found := Lookup(list, t, p);
      var r := CmdRun(list, maxTs, p, rot, k, t, acc);
      && (found.Failure? ==> r == (acc, Some(found.error)))
      && (found == Success(None) ==> r == (acc, Some(UnresolvedFrame(k + 1))))
      && (found.Success? && found.value.Some? ==>
            && found.value.value in list.frames
            && var acc' := acc + [ChanFrame(k + 1, list.frames[found.value.value].position, rot)];
               && (GridTime(k + 1, p).None? ==> r == (acc', Some(Overflow)))
               && (GridTime(k + 1, p).Some? ==> r == CmdRun(list, maxTs, p, rot, k + 1, GridTime(k + 1, p).value, acc')))
  {
    BelowBound(k, p, maxTs, t);
  }

  /**
   * SolveFromSolverData: Last() on an empty list raises; otherwise the grid
   * is walked up to the largest key. `rot` is what the rotation array holds,
   * which exists once a frame is stored.
   */
  function CmdResample(list: SortedList, p: Option<real>, rot: Option<Vec3>): (r: (seq<ChanFrame>, Option<Error>))
    requires list.Valid() && p != Some(0.0)
    requires list.frames != map[] ==> rot.Some?
    ensures list.keys == [] ==> r == ([], Some(EmptyCollection))
  {
    if list.keys == [] then ([], Some(EmptyCollection))
    else
      assert list.keys[0] in list.frames;
      CmdRun(list, list.LastKey(), p, rot.value, 0, 0, [])
  }

  /** The key picked for frame j + 1, when there is one. */
  function PickedKey(list: SortedList, p: Option<real>, j: nat): Option<U64> {
    match GridTime(j, p)
    case None => None
    case Some(t) =>
      match Lookup(list, t, p)
      case Success(Some(key)) => Some(key)
      case _ => None
  }

  /**
   * Frame j + 1 was emitted at grid time GridTime(j) below maxTs, from the
   * key picked there, with the rotation `rot`.
   */
  predicate Emitted(list: SortedList, maxTs: U64, p: Option<real>, rot: Vec3, chan: seq<ChanFrame>) {
    forall j | 0 <= j < |chan| ::
      && GridTime(j, p).Some? && GridTime(j, p).value < maxTs
      && PickedKey(list, p, j).Some? && PickedKey(list, p, j).value in list.frames
      && chan[j] == ChanFrame(j + 1, list.frames[PickedKey(list, p, j).value].position, rot)
  }

  lemma EmittedSnoc(list: SortedList, maxTs: U64, p: Option<real>, rot: Vec3, acc: seq<ChanFrame>, t: U64, key: U64)
    requires Emitted(list, maxTs, p, rot, acc)
    requires GridTime(|acc|, p) == Some(t) && t < maxTs && Lookup(list, t, p) == Success(Some(key))
    ensures Emitted(list, maxTs, p, rot, acc + [ChanFrame(|acc| + 1, list.frames[key].position, rot)])
  {
    var acc' := acc + [ChanFrame(|acc| + 1, list.frames[key].position, rot)];
    forall j | 0 <= j < |acc'|
      ensures GridTime(j, p).Some? && GridTime(j, p).value < maxTs
      ensures PickedKey(list, p, j).Some? && PickedKey(list, p, j).value in list.frames
      ensures acc'[j] == ChanFrame(j + 1, list.frames[PickedKey(list, p, j).value].position, rot)
    {
      if j < |acc| {
        assert acc'[j] == acc[j];
      }
    }
  }

  /**
   * What the loop produces: frames numbered 1, 2, ... in order, frame j + 1
   * picked at grid time GridTime(j); it stops cleanly at the first grid time
   * at or past maxTs, or with an OverflowException or the exception for the
   * frame it could not solve.
   */
  lemma CmdRunShape(list: SortedList, maxTs: U64, p: Option<real>, rot: Vec3, k: nat, t: U64, acc: seq<ChanFrame>)
    requires p != Some(0.0) && GridTime(k, p) == Some(t)
    requires |acc| == k && Emitted(list, maxTs, p, rot, acc)
    ensures var (chan, err) := CmdRun(list, maxTs, p, rot, k, t, acc);
      && k <= |chan| && chan[..k] == acc
      && Emitted(list, maxTs, p, rot, chan)
      && (err.None? ==> GridTime(|chan|, p).Some? && maxTs <= GridTime(|chan|, p).value)
      && (err.Some? ==> err.value == Overflow || err.value == UnresolvedFrame(|chan| + 1))
  {
    CmdRunEnds(list, maxTs, p, rot, k, t, acc);
    CmdRunEmits(list, maxTs, p, rot, k, t, acc);
  }

  /** The frames before k are kept, and how the loop ends. */
  lemma {:induction false} CmdRunEnds(list: SortedList, maxTs: U64, p: Option<real>, rot: Vec3, k: nat, t: U64, acc: seq<ChanFrame>)
    requires p != Some(0.0) && GridTime(k, p) == Some(t) && |acc| == k
    ensures var (chan, err) := CmdRun(list, maxTs, p, rot, k, t, acc);
      && k <= |chan| && chan[..k] == acc
      && (err.None? ==> GridTime(|chan|, p).Some? && maxTs <= GridTime(|chan|, p).value)
      && (err.Some? ==> err.value == Overflow || err.value == UnresolvedFrame(|chan| + 1))
    decreases GridBound(p, maxTs) - k
  {
    var r := CmdRun(list, maxTs, p, rot, k, t, acc);
    if maxTs <= t {
      assert r == (acc, None);
      assert acc[..k] == acc;
    } else {
      CmdRunStep(list, maxTs, p, rot, k, t, acc);
      var found := Lookup(list, t, p);
      if found.Success? && found.value.Some? {
        var key := found.value.value;
        var acc' := acc + [ChanFrame(k + 1, list.frames[key].position, rot)];
        assert acc'[..k] == acc;
        if GridTime(k + 1, p).Some? {
          var t' := GridTime(k + 1, p).value;
          CmdRunEnds(list, maxTs, p, rot, k + 1, t', acc');
          assert r == CmdRun(list, maxTs, p, rot, k + 1, t', acc');
          assert r.0[..k] == r.0[..k + 1][..k];
        } else {
          assert r == (acc', Some(Overflow));
        }
      } else {
        assert r.0 == acc;
        assert acc[..k] == acc;
      }
    }
  }

  /** Every frame the loop appends is the one picked at its grid time. */
  lemma {:induction false} CmdRunEmits(list: SortedList, maxTs: U64, p: Option<real>, rot: Vec3, k: nat, t: U64, acc: seq<ChanFrame>)
    requires p != Some(0.0) && GridTime(k, p) == Some(t)
    requires |acc| == k && Emitted(list, maxTs, p, rot, acc)
    ensures Emitted(list, maxTs, p, rot, CmdRun(list, maxTs, p, rot, k, t, acc).0)
    decreases GridBound(p, maxTs) - k
  {
    if t < maxTs {
      CmdRunStep(list, maxTs, p, rot, k, t, acc);
      var found := Lookup(list, t, p);
      if found.Success? && found.value.Some? {
        var key := found.value.value;
        var acc' := acc + [ChanFrame(k + 1, list.frames[key].position, rot)];
        EmittedSnoc(list, maxTs, p, rot, acc, t, key);
        if GridTime(k + 1, p).Some? {
          CmdRunEmits(list, maxTs, p, rot, k + 1, GridTime(k + 1, p).value, acc');
        }
      }
    }
  }

  /** What Emitted says about each frame, stated without the picking function. */
  lemma EmittedFacts(list: SortedList, maxTs: U64, p: Option<real>, rot: Vec3, chan: seq<ChanFrame>)
    requires Emitted(list, maxTs, p, rot, chan)
    ensures forall j | 0 <= j < |chan| ::
      && chan[j].frame == j + 1 && chan[j].rotation == rot
      && GridTime(j, p).Some? && GridTime(j, p).value < maxTs
      && var t := GridTime(j, p).value;
         exists key | key in list.frames ::
           && (key == t || (WindowEnd(t, p).Some? && t < key < WindowEnd(t, p).value))
           && chan[j].position == list.frames[key].position
  {
    forall j | 0 <= j < |chan|
      ensures var t := GridTime(j, p).value;
        exists key | key in list.frames ::
          && (key == t || (WindowEnd(t, p).Some? && t < key < WindowEnd(t, p).value))
          && chan[j].position == list.frames[key].position
    {
      var key := PickedKey(list, p, j).value;
      assert chan[j].position == list.frames[key].position;
    }
  }

  /**
   * The loop's `uint` counter stays in range when fewer than 2^32 grid points
   * lie below maxTs: every frame number fits a `uint` and, the counter never
   * wrapping, the loop is the one the unbounded counter describes.
   */
  lemma CounterFitsUint(list: SortedList, maxTs: U64, p: Option<real>, rot: Vec3, chan: seq<ChanFrame>)
    requires p != Some(0.0) && GridBound(p, maxTs) < 0x1_0000_0000
    requires Emitted(list, maxTs, p, rot, chan)
    ensures |chan| < 0x1_0000_0000
    ensures forall j | 0 <= j < |chan| :: chan[j].frame < 0x1_0000_0000
  {
    forall j | 0 <= j < |chan|
      ensures chan[j].frame < 0x1_0000_0000
    {
      BelowBound(j, p, maxTs, GridTime(j, p).value);
    }
    if |chan| > 0 {
      BelowBound(|chan| - 1, p, maxTs, GridTime(|chan| - 1, p).value);
    }
  }

  /**
   * The frames SolveFromSolverData adds, from the list and the rotation
   * array: numbered 1, 2, ... in order; frame j + 1 has the position of the
   * frame stored at grid time GridTime(j), or else of the first frame stored
   * within half a frame length after it, and every frame has the rotation
   * the array holds when the loop runs.
   */
  lemma CmdResampleFacts(list: SortedList, p: Option<real>, rot: Option<Vec3>)
    requires list.Valid() && p != Some(0.0)
    requires list.frames != map[] ==> rot.Some?
    ensures var (chan, err) := CmdResample(list, p, rot);
      && (list.keys == [] <==> err == Some(EmptyCollection))
      && (list.keys != [] && err.Some? ==> err.value == Overflow || err.value == UnresolvedFrame(|chan| + 1))
      && (list.keys != [] && err.None? ==> GridTime(|chan|, p).Some? && list.LastKey() <= GridTime(|chan|, p).value)
      && (list.keys != [] ==> Emitted(list, list.LastKey(), p, rot.value, chan))
  {
    if list.keys != [] {
      assert list.keys[0] in list.frames;
      CmdRunShape(list, list.LastKey(), p, rot.value, 0, 0, []);
    }
  }

  /**
   * With the solver's own state, every frame the resampler adds has the
   * zero position and the same rotation: the last one the array was given,
   * since all stored frames share that array.
   */
  lemma EveryFrameShowsLastRotation(st: CmdGamState, p: Option<real>)
    requires Consistent(st) && p != Some(0.0)
    ensures var chan := CmdResample(st.solverData, p, st.accelMagnetRotation).0;
      forall j | 0 <= j < |chan| ::
        chan[j] == ChanFrame(j + 1, ZERO, st.accelMagnetRotation.value)
  {
    CmdResampleFacts(st.solverData, p, st.accelMagnetRotation);
    if st.solverData.keys != [] {
      var chan := CmdResample(st.solverData, p, st.accelMagnetRotation).0;
      EmittedFacts(st.solverData, st.solverData.LastKey(), p, st.accelMagnetRotation.value, chan);
    }
  }

  /**
   * A frame rate of 0 makes the frame length infinite: the window's end and
   * the second grid time both overflow, so at most frame 1 is added, and
   * only when a frame is stored at time 0.
   */
  lemma ZeroFpsStopsAtOnce(list: SortedList, rot: Option<Vec3>)
    requires list.Valid() && list.frames != map[] && rot.Some?
    requires list.keys[|list.keys| - 1] != 0
    ensures CmdResample(list, NsPerFrame(0.0), rot) ==
      (if 0 in list.frames then [ChanFrame(1, list.frames[0].position, rot.value)] else [], Some(Overflow))
  {
    assert list.keys[0] in list.frames;
    var maxTs := list.LastKey();
    assert maxTs != 0;
    assert NsPerFrame(0.0) == None;
    assert CmdResample(list, None, rot) == CmdRun(list, maxTs, None, rot.value, 0, 0, []);
    if 0 in list.frames {
      assert Lookup(list, 0, None) == Success(Some(0));
      assert GridTime(1, None) == None;
      var acc' := [] + [ChanFrame(0 + 1, list.frames[0].position, rot.value)];
      assert acc' == [ChanFrame(1, list.frames[0].position, rot.value)];
      assert !(maxTs <= 0);
      assert CmdRun(list, maxTs, None, rot.value, 0, 0, []) == (acc', Some(Overflow));
    } else {
      assert Lookup(list, 0, None) == Failure(Overflow);
    }
  }

  /**
   * Solve on the handlers' state: the new state, the chan frames added and
   * the exception raised, if any.
   */
  function CmdSolveSpec(st: CmdGamState, events: seq<SensorEvent>, first: U64, attitude: Gam.Attitude, p: Option<real>): (r: (CmdGamState, seq<ChanFrame>, Option<Error>))
    requires Consistent(st) && p != Some(0.0)
    ensures r.0 == Consume(st, events, first, attitude).0
    ensures Consume(st, events, first, attitude).1.Some? ==> r.1 == [] && r.2 == Consume(st, events, first, attitude).1
    ensures Consume(st, events, first, attitude).1.None? ==>
      (r.1, r.2) == CmdResample(r.0.solverData, p, r.0.accelMagnetRotation)
  {
    var (st', err) := Consume(st, events, first, attitude);
    if err.Some? then (st', [], err)
    else
      var (chan, err') := CmdResample(st'.solverData, p, st'.accelMagnetRotation);
      (st', chan, err')
  }

  /**
   * The search of SolveFromSolverData at grid time `t`: the key itself,
   * else the keys from t + 1 up to the window's end, one at a time.
   */
  method FindFrame(list: SortedList, t: U64, p: Option<real>) returns (r: Result<Option<U64>, Error>)
    ensures r == Lookup(list, t, p)
  {
    if t in list.frames {
      return Success(Some(t));
    }
    var limit := WindowEnd(t, p);
    if limit.None? {
      return Failure(Overflow);
    }
    var working: nat := t + 1;
    while working < limit.value
      invariant t + 1 <= working
      invariant TS.FirstKey(list.frames, t + 1, limit.value) == TS.FirstKey(list.frames, working, limit.value)
      decreases limit.value - working
    {
      if working in list.frames {
        return Success(Some(working));
      }
      working := working + 1;
    }
    return Success(None);
  }

  class CmdGamSolver {
    /** The events the constructor's filter keeps, in timestamp order. */
    const sensorData: seq<SensorEvent>
    const fps: real
    const nsPerFrame: Option<real>
    const firstTimestamp: U64
    const attitude: Gam.Attitude
    var solverData: SortedList
    /** The SortedSet<ChanFrame>'s elements, by frame number. */
    var chanFrames: seq<ChanFrame>
    var solved: bool
    /** Allocated at the first accelerometer event after a magnetometer reading, then only overwritten. */
    var accelMagnetRotation: array?<real>
    var lastMagnetEvent: Option<SensorEvent>

    ghost predicate Valid()
      reads this, accelMagnetRotation
    {
      && (accelMagnetRotation != null ==> accelMagnetRotation.Length == 3)
      && nsPerFrame == NsPerFrame(fps)
      && Consistent(State())
      && Files.ByFrame(chanFrames)
    }

    /** The handlers' fields as a value. */
    function State(): (st: CmdGamState)
      requires accelMagnetRotation != null ==> accelMagnetRotation.Length == 3
      reads this, accelMagnetRotation
    {
      CmdGamState(SF.Snapshot(accelMagnetRotation), lastMagnetEvent, solverData)
    }

    /** The solver over the kept events: nothing handled, no frame, not solved. */
    constructor(sensorData: seq<SensorEvent>, firstTimestamp: U64, fps: real, attitude: Gam.Attitude)
      ensures Valid()
      ensures this.sensorData == sensorData && this.firstTimestamp == firstTimestamp
      ensures this.fps == fps && nsPerFrame == NsPerFrame(fps) && this.attitude == attitude
      ensures State() == CmdInitial && chanFrames == [] && !solved
    {
      this.sensorData := sensorData;
      this.firstTimestamp := firstTimestamp;
      this.fps := fps;
      nsPerFrame := NsPerFrame(fps);
      this.attitude := attitude;
      solverData := EmptyList;
      chanFrames := [];
      solved := false;
      accelMagnetRotation := null;
      lastMagnetEvent := None;
    }

    /**
     * The GAMCameraTrackSolver constructor: a GAM track with at least one
     * event more than half a second after its first.
     */
    static method Create(parser: CmdParsers.CmdTrackFileParser, fps: real, attitude: Gam.Attitude) returns (r: Result<CmdGamSolver, Error>)
      requires parser.Valid()
      modifies parser
      ensures parser.Valid()
      ensures r.Success? ==> fresh(r.value) && r.value.Valid() && r.value.State() == CmdInitial
      ensures r.Success? ==> parser.trackFileType in {CmdParsers.GAM_DEFAULT, CmdParsers.GAM_NATIVE} && parser.sensorData != []
      ensures r.Success? ==> r.value.sensorData == Settled(parser.sensorData, parser.sensorData[0].timestamp)
      ensures r.Success? ==> r.value.sensorData != [] && r.value.firstTimestamp == r.value.sensorData[0].timestamp
      ensures r.Success? ==> r.value.chanFrames == [] && !r.value.solved && r.value.nsPerFrame == NsPerFrame(fps)
    {
      var track :- OpenCmdTrack(parser);
      var solver := new CmdGamSolver(track.0, track.1, fps, attitude);
      return Success(solver);
    }

    /** HandleAccelEvent on the solver's fields. */
    method HandleAccelEvent(ev: SensorEvent)
      requires Valid()
      modifies this, accelMagnetRotation
      ensures Valid()
      ensures State() == old(State()).(accelMagnetRotation := AccelRotation(old(State()), ev, attitude))
      ensures accelMagnetRotation == old(accelMagnetRotation) || (old(accelMagnetRotation) == null && fresh(accelMagnetRotation))
      ensures unchanged(`chanFrames, `solved)
    {
      ghost var st0 := State();
      if lastMagnetEvent.None? {
        return;
      }
      if accelMagnetRotation == null {
        accelMagnetRotation := new real[3](_ => 0.0);
        assert accelMagnetRotation[..] == ZERO;
      }
      var accel := Gam.Remap(ev.data);
      var magnet := Gam.Remap(lastMagnetEvent.value.data);
      var h := Gam.Cross(accel, magnet);
      if Gam.NormSquared(h) < 0.01 {
        return;
      }
      var rotation := attitude(accel, magnet);
      accelMagnetRotation[0] := rotation[0];
      accelMagnetRotation[1] := rotation[1];
      accelMagnetRotation[2] := rotation[2];
      assert accelMagnetRotation[..] == rotation;
    }

    /** One pass of the loop in ConsumeSensorData. */
    method ConsumeSensorEvent(ev: SensorEvent) returns (err: Option<Error>)
      requires Valid()
      modifies this, accelMagnetRotation
      ensures Valid()
      ensures (State(), err) == Handle(old(State()), ev, firstTimestamp, attitude)
      ensures accelMagnetRotation == old(accelMagnetRotation) || (old(accelMagnetRotation) == null && fresh(accelMagnetRotation))
      ensures unchanged(`chanFrames, `solved)
    {
      err := None;
      if ev.kind == ACCEL {
        ghost var st0 := State();
        HandleAccelEvent(ev);
        ghost var st1 := State();
        var key := SubU64(ev.timestamp, firstTimestamp);
        if accelMagnetRotation == null {
          assert AccelStep(st0, ev, firstTimestamp, attitude) == (st1, Some(NullReference));
          return Some(NullReference);
        }
        var added := Add(solverData, CmdFrame(key, ZERO));
        if added.Failure? {
          assert AccelStep(st0, ev, firstTimestamp, attitude) == (st1, Some(added.error));
          return Some(added.error);
        }
        solverData := added.value;
        assert State() == st1.(solverData := added.value);
      } else if ev.kind == MAGNETIC {
        lastMagnetEvent := Some(ev);
      }
    }

    /** ConsumeSensorData: the kept events through the switch, in order. */
    method ConsumeSensorData() returns (err: Option<Error>)
      requires Valid()
      modifies this, accelMagnetRotation
      ensures Valid()
      ensures (State(), err) == Consume(old(State()), sensorData, firstTimestamp, attitude)
      ensures unchanged(`chanFrames, `solved)
    {
      ghost var st0 := State();
      var i := 0;
      while i < |sensorData|
        invariant 0 <= i <= |sensorData| && Valid()
        invariant Consume(st0, sensorData[..i], firstTimestamp, attitude) == (State(), None)
        invariant accelMagnetRotation == old(accelMagnetRotation) || (old(accelMagnetRotation) == null && fresh(accelMagnetRotation))
        invariant unchanged(`chanFrames, `solved)
      {
        ConsumeTake(st0, sensorData, i, firstTimestamp, attitude);
        err := ConsumeSensorEvent(sensorData[i]);
        if err.Some? {
          ConsumeErrorSticks(st0, sensorData, i + 1, firstTimestamp, attitude);
          return err;
        }
        i := i + 1;
      }
      assert sensorData[..|sensorData|] == sensorData;
      return None;
    }

    /**
     * SolveFromSolverData: Last() on the list, then the grid walked up to
     * the largest key.
     */
    method SolveFromSolverData() returns (chan: seq<ChanFrame>, err: Option<Error>)
      requires Valid()
      modifies this`chanFrames
      ensures Valid()
      ensures (chan, err) == CmdResample(solverData, nsPerFrame, SF.Snapshot(accelMagnetRotation))
      ensures chanFrames == Files.InsertAll(old(chanFrames), chan)
    {
      if solverData.keys == [] {
        return [], Some(EmptyCollection);
      }
      assert solverData.keys[0] in solverData.frames;
      var maxTs := solverData.LastKey();
      chan, err := WalkGrid(solverData, maxTs, nsPerFrame);
    }

    /**
     * The loop of SolveFromSolverData: each frame found is added to the set
     * with the picked frame's position and the contents of the rotation
     * array.
     */
    method WalkGrid(list: SortedList, maxTs: U64, p: Option<real>) returns (chan: seq<ChanFrame>, err: Option<Error>)
      requires p != Some(0.0) && Files.ByFrame(chanFrames)
      requires accelMagnetRotation != null && accelMagnetRotation.Length == 3
      modifies this`chanFrames
      ensures Files.ByFrame(chanFrames)
      ensures (chan, err) == CmdRun(list, maxTs, p, accelMagnetRotation[..], 0, 0, [])
      ensures chanFrames == Files.InsertAll(old(chanFrames), chan)
    {
      var rot: Vec3 := accelMagnetRotation[..];
      var frameCounter: nat := 0;
      var current: U64 := 0;
      chan := [];
      while current < maxTs
        invariant rot == accelMagnetRotation[..]
        invariant GridTime(frameCounter, p) == Some(current)
        invariant CmdRun(list, maxTs, p, rot, frameCounter, current, chan) == CmdRun(list, maxTs, p, rot, 0, 0, [])
        invariant Files.ByFrame(chanFrames) && chanFrames == Files.InsertAll(old(chanFrames), chan)
        decreases GridBound(p, maxTs) - frameCounter
      {
        CmdRunStep(list, maxTs, p, rot, frameCounter, current, chan);
        var found := FindFrame(list, current, p);
        if found.Failure? {
          return chan, Some(found.error);
        }
        if found.value.None? {
          return chan, Some(UnresolvedFrame(frameCounter + 1));
        }
        var frame := ChanFrame(frameCounter + 1, list.frames[found.value.value].position, rot);
        ghost var before := chan;
        AddChanFrame(frame);
        Files.InsertAllSnoc(old(chanFrames), chan, frame);
        chan := chan + [frame];
        frameCounter := frameCounter + 1;
        var next := GridTime(frameCounter, p);
        if next.None? {
          assert CmdRun(list, maxTs, p, rot, frameCounter - 1, current, before) == (chan, Some(Overflow));
          return chan, Some(Overflow);
        }
        assert CmdRun(list, maxTs, p, rot, frameCounter - 1, current, before) == CmdRun(list, maxTs, p, rot, frameCounter, next.value, chan);
        current := next.value;
      }
      assert CmdRun(list, maxTs, p, rot, frameCounter, current, chan) == (chan, None);
      err := None;
    }

    /** chanFrames.Add: SortedSet.Add by frame number. */
    method AddChanFrame(frame: ChanFrame)
      requires Files.ByFrame(chanFrames)
      modifies this`chanFrames
      ensures Files.ByFrame(chanFrames)
      ensures chanFrames == Files.Insert(old(chanFrames), frame).0
    {
      Files.InsertFacts(chanFrames, frame);
      chanFrames := Files.Insert(chanFrames, frame).0;
    }

    /**
     * Solve: consume the events, then resample; `solved` is set only when
     * both finish. Frames added before an exception in the resampler stay in
     * the set.
     */
    method Solve() returns (err: Option<Error>)
      requires Valid()
      modifies this, accelMagnetRotation
      ensures Valid()
      ensures var (st, chan, e) := CmdSolveSpec(old(State()), sensorData, firstTimestamp, attitude, nsPerFrame);
        State() == st && chanFrames == Files.InsertAll(old(chanFrames), chan) && err == e
      ensures solved == (old(solved) || err.None?)
    {
      err := ConsumeSensorData();
      if err.Some? {
        return err;
      }
      var chan;
      chan, err := SolveFromSolverData();
      if err.None? {
        solved := true;
      }
    }

    /**
     * WriteTrackFile without the write: a chan file for `filepath` holding
     * the solver's frames. The "not solved" exception is constructed but never
     * thrown, so an unsolved solver hands over whatever frames it has.
     */
    method WriteTrackFile(filepath: string) returns (file: Files.ChanFile)
      requires Valid()
      ensures fresh(file) && file.Valid()
      ensures file.filepath == filepath && file.frames == chanFrames
    {
      file := new Files.ChanFile(filepath);
      file.AddFrames(chanFrames);
      Files.InsertAllSorted(chanFrames);
    }
  }
}
