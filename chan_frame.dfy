/**
 * One line of the output chan file: a frame number with the position and
 * rotation taken from a solver frame.
 */
module ChanFrames {
  import opened Wrappers
  import opened Numeric
  import opened Text
  import opened SolverFrames

  /** The frame number is a `uint` in C#; it is not wrapped here. */
  datatype ChanFrame = ChanFrame(frame: nat, position: Vec3, rotation: Vec3)

  /** The ChanFrame(frame, solverFrame) constructor: copies of the frame's vectors. */
  function FromSolverFrame(frame: nat, solverFrame: SolverFrame): (r: ChanFrame)
    ensures r.frame == frame
    ensures r.position == solverFrame.position && r.rotation == solverFrame.rotation
  {
    ChanFrame(frame, solverFrame.position, solverFrame.rotation)
  }

  /** ChanFrame.CompareTo: 1 against null, otherwise by frame number only. */
  function CompareTo(f: ChanFrame, other: Option<ChanFrame>): (r: int)
    ensures other.None? ==> r == 1
    ensures other.Some? ==> (r < 0 <==> f.frame < other.value.frame)
    ensures other.Some? ==> (r == 0 <==> f.frame == other.value.frame)
  {
    match other
    case None => 1
    case Some(o) => CompareInt(f.frame, o.frame)
  }

  /** ChanFrame.Comparer.Compare: by frame number only. */
  function Compare(a: ChanFrame, b: ChanFrame): (r: int)
    ensures r == 0 <==> a.frame == b.frame
    ensures r < 0 <==> a.frame < b.frame
    ensures r == CompareTo(a, Some(b))
  {
    CompareInt(a.frame, b.frame)
  }

  /** `fmt` stands for double.ToString(); it never yields a tab. */
  ghost predicate TabFree(fmt: real -> string) {
    forall x :: '\t' !in fmt(x)
  }

  /** The frame number, the three position values, the three rotation values. */
  function Fields(f: ChanFrame, fmt: real -> string): seq<string> {
    [NatToString(f.frame),
     fmt(f.position[0]), fmt(f.position[1]), fmt(f.position[2]),
     fmt(f.rotation[0]), fmt(f.rotation[1]), fmt(f.rotation[2])]
  }

  /** ChanFrame.ToString (library): the seven fields joined by single tabs. */
  function ToString(f: ChanFrame, fmt: real -> string): string {
    Join(Fields(f, fmt), '\t')
  }

  lemma DecimalHasNoTab(n: nat)
    ensures '\t' !in NatToString(n)
  {
  }

  /** Helper for the two line layouts: no field holds the separator. */
  lemma FieldsTabFree(f: ChanFrame, fmt: real -> string)
    requires TabFree(fmt)
    ensures forall i | 0 <= i < 7 :: '\t' !in Fields(f, fmt)[i]
  {
    DecimalHasNoTab(f.frame);
    var p, q := f.position, f.rotation;
    TabFreeAt(fmt, p[0]);
    TabFreeAt(fmt, p[1]);
    TabFreeAt(fmt, p[2]);
    TabFreeAt(fmt, q[0]);
    TabFreeAt(fmt, q[1]);
    TabFreeAt(fmt, q[2]);
  }

  /** Helper: the formatter's property at one value. */
  lemma TabFreeAt(fmt: real -> string, x: real)
    requires TabFree(fmt)
    ensures '\t' !in fmt(x)
  {
  }

  /**
   * A library chan line has exactly seven tab-separated fields, in the order
   * frame, position, rotation, with no trailing separator.
   */
  lemma ToStringFields(f: ChanFrame, fmt: real -> string)
    requires TabFree(fmt)
    ensures Split(ToString(f, fmt), '\t') == Fields(f, fmt)
    ensures |Split(ToString(f, fmt), '\t')| == 7
    ensures Split(ToString(f, fmt), '\t')[0] == NatToString(f.frame)
  {
    FieldsTabFree(f, fmt);
    SplitOfJoin(Fields(f, fmt), '\t');
  }
}
