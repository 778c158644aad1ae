/**
 * A point of a solver's timeline: a timestamp relative to the first sensor
 * event, with a position and a rotation. The C# class copies both arrays on
 * construction; here the frame is a value, so nothing done to the caller's
 * arrays afterwards can reach it.
 */
module SolverFrames {
  import opened Wrappers
  import opened Numeric
  import opened Errors

  datatype SolverFrame = SolverFrame(timestamp: U64, position: Vec3, rotation: Vec3)

  /**
   * The contents of a `double[3]` field, None while it is null. This is the
   * copy `Array.Copy` takes in the frame constructors.
   */
  function Snapshot(a: array?<real>): (r: Option<Vec3>)
    requires a == null || a.Length == 3
    reads a
    ensures r.None? <==> a == null
    ensures r.Some? ==> a != null && r.value == a[..]
  {
    if a == null then None else Some(a[..])
  }

  /**
   * The SolverFrame constructor over array snapshots: reading the length of a
   * null position or rotation raises a NullReferenceException.
   */
  function MakeSolverFrame(timestamp: U64, position: Option<Vec3>, rotation: Option<Vec3>): (r: Result<SolverFrame, Error>)
    ensures r.Success? <==> position.Some? && rotation.Some?
    ensures r.Success? ==> r.value == SolverFrame(timestamp, position.value, rotation.value)
    ensures r.Failure? ==> r.error == NullReference
  {
    if position.None? || rotation.None? then Failure(NullReference)
    else Success(SolverFrame(timestamp, position.value, rotation.value))
  }

  /** The constructor called with arrays: the frame holds copies of their contents. */
  method NewSolverFrame(timestamp: U64, position: array?<real>, rotation: array?<real>) returns (r: Result<SolverFrame, Error>)
    requires position == null || position.Length == 3
    requires rotation == null || rotation.Length == 3
    ensures r.Success? <==> position != null && rotation != null
    ensures r.Success? ==> r.value.timestamp == timestamp && r.value.position == position[..] && r.value.rotation == rotation[..]
    ensures r.Failure? ==> r.error == NullReference
  {
    if position == null || rotation == null {
      return Failure(NullReference);
    }
    var p := [position[0], position[1], position[2]];
    var q := [rotation[0], rotation[1], rotation[2]];
    return Success(SolverFrame(timestamp, p, q));
  }

  /** SolverFrame.CompareTo: 1 against null, otherwise by timestamp only. */
  function CompareTo(f: SolverFrame, other: Option<SolverFrame>): (r: int)
    ensures other.None? ==> r == 1
    ensures other.Some? ==> (r < 0 <==> f.timestamp < other.value.timestamp)
    ensures other.Some? ==> (r == 0 <==> f.timestamp == other.value.timestamp)
  {
    match other
    case None => 1
    case Some(o) => CompareInt(f.timestamp, o.timestamp)
  }

  /** SolverFrame.Comparer.Compare: by timestamp only. */
  function Compare(a: SolverFrame, b: SolverFrame): (r: int)
    ensures r == 0 <==> a.timestamp == b.timestamp
    ensures r < 0 <==> a.timestamp < b.timestamp
    ensures r == CompareTo(a, Some(b))
  {
    CompareInt(a.timestamp, b.timestamp)
  }
}
