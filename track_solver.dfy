/**
 * What AbstractTrackSolver gives both library solvers: the timeline of solver
 * frames keyed by relative timestamp (a Dictionary), the checks made when a
 * solver is built from a parser, and the resampler that turns the timeline
 * into numbered chan frames on a fixed grid of timestamps.
 */
module TrackSolvers {
  import opened Wrappers
  import opened Numeric
  import opened Errors
  import opened SensorEvents
  import opened SolverFrames
  import Ingestion
  import opened ChanFrames
  import opened TrackFileParsers

  /**
   * The solver timeline, a Dictionary<ulong, SolverFrame>: the frames by key
   * and the keys in enumeration order. Replacing the frame at a present key
   * (Remove, then Add) refills the slot Remove freed, so the key keeps its
   * place; a new key is enumerated last.
   */
  datatype Timeline = Timeline(frames: map<U64, SolverFrame>, order: seq<U64>)
  {
    /** Every key is enumerated once, and each frame is stored under its own timestamp. */
    predicate Valid() {
      && (forall i, j | 0 <= i < j < |order| :: order[i] != order[j])
      && (forall k | k in frames :: k in order)
      && (forall i | 0 <= i < |order| :: order[i] in frames)
      && (forall k | k in frames :: frames[k].timestamp == k)
    }

    /** The timestamp of Last().Value. */
    function LastTimestamp(): (t: U64)
      requires Valid() && order != []
      ensures t == order[|order| - 1] && t in frames
    {
      frames[order[|order| - 1]].timestamp
    }
  }

  const EmptyTimeline: Timeline := Timeline(map[], [])

  /** The unit constants of AbstractTrackSolver. */
  const NS2S: real := 0.000_000_001
  const SQ_NS2S: real := 0.000_000_000_000_000_001
  const RAD2GRAD: real := 57.29577951308232

  /** Remove-then-Add of a frame at its timestamp, or Add at a new one. */
  function Put(tl: Timeline, f: SolverFrame): (r: Timeline)
    requires tl.Valid()
    ensures r.Valid()
    ensures r.frames == tl.frames[f.timestamp := f]
    ensures f.timestamp in tl.frames ==> r.order == tl.order
    ensures f.timestamp !in tl.frames ==> r.order == tl.order + [f.timestamp]
  {
    var frames := tl.frames[f.timestamp := f];
    if f.timestamp in tl.frames then Timeline(frames, tl.order)
    else Timeline(frames, tl.order + [f.timestamp])
  }

  predicate Increasing(order: seq<U64>) {
    forall i, j | 0 <= i < j < |order| :: order[i] < order[j]
  }

  /**
   * When frames arrive in non-decreasing timestamp order (as the sorted sensor
   * events make them), enumeration order is key order, so Last() is the frame
   * with the largest key.
   */
  lemma PutInOrder(tl: Timeline, f: SolverFrame)
    requires tl.Valid() && Increasing(tl.order)
    requires forall k | k in tl.frames :: k <= f.timestamp
    ensures Increasing(Put(tl, f).order)
    ensures forall k | k in Put(tl, f).frames :: k <= Put(tl, f).LastTimestamp()
  {
    if f.timestamp in tl.frames {
      PutExistingIsLast(tl, f);
    } else {
      PutNewIsLast(tl, f);
    }
  }

  lemma PutExistingIsLast(tl: Timeline, f: SolverFrame)
    requires tl.Valid() && Increasing(tl.order) && f.timestamp in tl.frames
    requires forall k | k in tl.frames :: k <= f.timestamp
    ensures tl.order != [] && tl.order[|tl.order| - 1] == f.timestamp
  {
    var i :| 0 <= i < |tl.order| && tl.order[i] == f.timestamp;
    var last := |tl.order| - 1;
    assert tl.order[last] in tl.frames;
  }

  lemma PutNewIsLast(tl: Timeline, f: SolverFrame)
    requires tl.Valid() && Increasing(tl.order) && f.timestamp !in tl.frames
    requires forall k | k in tl.frames :: k <= f.timestamp
    ensures Increasing(tl.order + [f.timestamp])
  {
    var order := tl.order + [f.timestamp];
    forall a, b | 0 <= a < b < |order|
      ensures order[a] < order[b]
    {
      if b == |tl.order| {
        assert tl.order[a] in tl.frames;
      }
    }
  }

  /**
   * The smallest key in [lo, hi), found by trying lo, lo + 1, ... in turn as
   * the inner loop of the resampler does.
   */
  function FirstKey<F>(frames: map<U64, F>, lo: nat, hi: nat): (r: Option<U64>)
    ensures r.Some? ==> lo <= r.value < hi && r.value in frames
    ensures r.Some? ==> forall k | lo <= k < r.value :: k !in frames
    ensures r.None? ==> forall k | lo <= k < hi :: k !in frames
    decreases hi - lo
  {
    if hi <= lo then None
    else if lo < TWO_64 && lo in frames then Some(lo)
    else FirstKey(frames, lo + 1, hi)
  }

  /** `t + range` on `ulong`: the end of the search window, wrapped. */
  function Limit(t: U64, range: U64): U64 {
    (t + range) % TWO_64
  }

  /**
   * The frame used for grid time `t`: the frame at `t` itself if there is
   * one, otherwise the one with the smallest key in [t + 1, Limit(t, range)).
   */
  function Resolve(frames: map<U64, SolverFrame>, t: U64, range: U64): Option<SolverFrame> {
    if t in frames then Some(frames[t])
    else match FirstKey(frames, t + 1, Limit(t, range))
      case Some(k) => Some(frames[k])
      case None => None
  }

  /** The key of the frame Resolve picks. */
  function ResolvedKey(frames: map<U64, SolverFrame>, t: U64, range: U64): Option<U64> {
    if t in frames then Some(t) else FirstKey(frames, t + 1, Limit(t, range))
  }

  /**
   * An exact hit is used as it is; on a miss the frame comes from the window
   * [t + 1, t + range), and it is the one with the smallest key there. The key
   * t + range itself is never used, and neither is any key below t; a window
   * whose end wraps past 2^64 is empty.
   */
  lemma ResolveFacts(frames: map<U64, SolverFrame>, t: U64, range: U64)
    ensures t in frames ==> Resolve(frames, t, range) == Some(frames[t])
    ensures ResolvedKey(frames, t, range).Some? <==> Resolve(frames, t, range).Some?
    ensures ResolvedKey(frames, t, range).Some? ==>
      var k := ResolvedKey(frames, t, range).value;
      && k in frames
      && Resolve(frames, t, range) == Some(frames[k])
      && (k == t || t < k < t + range)
      && forall j | t <= j < k :: j !in frames
    ensures Resolve(frames, t, range).None? <==>
      t !in frames && forall j | t < j < Limit(t, range) :: j !in frames
  {
    assert Limit(t, range) <= t + range;
  }

  /**
   * With a range of 0 or 1 the window [t + 1, t + range) is empty: only an
   * exact hit can resolve a grid time.
   */
  lemma NarrowRangeNeedsExactHit(frames: map<U64, SolverFrame>, t: U64, range: U64)
    requires range <= 1
    ensures Resolve(frames, t, range).Some? <==> t in frames
  {
    assert Limit(t, range) <= t + 1;
  }

  /**
   * The loop ends: the grid advances, or it stands at time 0 (a step of 0)
   * and the loop stops there at once, because the last frame is at 0 or
   * nothing resolves for time 0. A frame resolved at 0 below a later last
   * frame, with a step of 0, would be added again and again for ever.
   */
  predicate GridAdvances(frames: map<U64, SolverFrame>, maxTs: U64, step: U64, range: U64) {
    0 < step || maxTs == 0 || Resolve(frames, 0, range).None?
  }

  /**
   * The resampler as a tail-recursive function of the loop's state: turn `i`
   * (grid time i * step) and the chan frames emitted so far. The loop runs
   * while the grid time is below `maxTs`; a grid time that resolves to no
   * frame stops it with "Unable to solve frame n". Frames and the message are
   * numbered with the `uint` counter plus one, CounterSucc(i).
   */
  function Run(frames: map<U64, SolverFrame>, maxTs: U64, step: U64, range: U64, i: nat, acc: seq<ChanFrame>): (r: (seq<ChanFrame>, Option<Error>))
    requires GridAdvances(frames, maxTs, step, range) && maxTs + step <= TWO_64
    requires i * step <= maxTs + step
    decreases maxTs + step - i * step
  {
    var t := i * step;
    if t >= maxTs then (acc, None)
    else match Resolve(frames, t, range)
      case None => (acc, Some(UnresolvedFrame(CounterSucc(i))))
      case Some(f) =>
        assert 0 < step && (i + 1) * step == t + step;
        Run(frames, maxTs, step, range, i + 1, acc + [FromSolverFrame(CounterSucc(i), f)])
  }

  /**
   * AbstractTrackSolver.SolveFromSolverData on a timeline: Last() fails on an
   * empty one; otherwise the grid runs up to the last frame's timestamp.
   */
  function Resample(tl: Timeline, step: U64, range: U64): (r: (seq<ChanFrame>, Option<Error>))
    requires tl.Valid()
    requires tl.order != [] ==> GridAdvances(tl.frames, tl.LastTimestamp(), step, range) && tl.LastTimestamp() + step <= TWO_64
    ensures tl.order == [] ==> r == ([], Some(EmptyCollection))
  {
    if tl.order == [] then ([], Some(EmptyCollection))
    else Run(tl.frames, tl.LastTimestamp(), step, range, 0, [])
  }

  /** Frame `j` of the output is the frame resolved for grid time j * step, numbered CounterSucc(j). */
  predicate EmittedInOrder(frames: map<U64, SolverFrame>, maxTs: U64, step: U64, range: U64, chan: seq<ChanFrame>) {
    forall j {:trigger chan[j]} | 0 <= j < |chan| ::
      && j * step < maxTs
      && Resolve(frames, j * step, range).Some?
      && chan[j] == FromSolverFrame(CounterSucc(j), Resolve(frames, j * step, range).value)
  }

  lemma EmittedSnoc(frames: map<U64, SolverFrame>, maxTs: U64, step: U64, range: U64, acc: seq<ChanFrame>, f: SolverFrame)
    requires EmittedInOrder(frames, maxTs, step, range, acc)
    requires |acc| * step < maxTs && Resolve(frames, |acc| * step, range) == Some(f)
    ensures EmittedInOrder(frames, maxTs, step, range, acc + [FromSolverFrame(CounterSucc(|acc|), f)])
  {
    var acc' := acc + [FromSolverFrame(CounterSucc(|acc|), f)];
    forall j | 0 <= j < |acc'|
      ensures j * step < maxTs && Resolve(frames, j * step, range).Some?
      ensures acc'[j] == FromSolverFrame(CounterSucc(j), Resolve(frames, j * step, range).value)
    {
      if j < |acc| {
        assert acc'[j] == acc[j];
        assert j * step < maxTs && Resolve(frames, j * step, range).Some?;
        assert acc[j] == FromSolverFrame(CounterSucc(j), Resolve(frames, j * step, range).value);
      } else {
        assert j == |acc|;
        assert acc'[j] == FromSolverFrame(CounterSucc(|acc|), f);
      }
    }
  }

  /** Frame `j` of an output emitted in order, traced back to the key it was taken from. */
  lemma EmittedKey(frames: map<U64, SolverFrame>, maxTs: U64, step: U64, range: U64, chan: seq<ChanFrame>, j: nat)
    requires EmittedInOrder(frames, maxTs, step, range, chan) && j < |chan|
    ensures chan[j].frame == CounterSucc(j) && j * step < maxTs
    ensures ResolvedKey(frames, j * step, range).Some?
    ensures var k := ResolvedKey(frames, j * step, range).value;
      && k in frames
      && (k == j * step || j * step < k < j * step + range)
      && chan[j] == FromSolverFrame(CounterSucc(j), frames[k])
  {
    var emitted := chan[j];
    ResolveFacts(frames, j * step, range);
  }

  /** An output emitted in order, every frame traced back to the key it was taken from. */
  lemma EmittedKeys(frames: map<U64, SolverFrame>, maxTs: U64, step: U64, range: U64, chan: seq<ChanFrame>)
    requires EmittedInOrder(frames, maxTs, step, range, chan)
    ensures forall j | 0 <= j < |chan| :: chan[j].frame == CounterSucc(j)
    ensures forall j | 0 <= j < |chan| ::
      && j * step < maxTs
      && ResolvedKey(frames, j * step, range).Some?
      && var k := ResolvedKey(frames, j * step, range).value;
      && k in frames
      && (k == j * step || j * step < k < j * step + range)
      && chan[j] == FromSolverFrame(CounterSucc(j), frames[k])
  {
    forall j | 0 <= j < |chan|
      ensures chan[j].frame == CounterSucc(j) && j * step < maxTs
      ensures ResolvedKey(frames, j * step, range).Some?
      ensures var k := ResolvedKey(frames, j * step, range).value;
        k in frames && (k == j * step || j * step < k < j * step + range) && chan[j] == FromSolverFrame(CounterSucc(j), frames[k])
    {
      EmittedKey(frames, maxTs, step, range, chan, j);
    }
  }

  /**
   * What the resampler produces: one frame per grid time below `maxTs`,
   * numbered by the `uint` counter plus one in grid order, each taken from
   * the frame resolved for its grid time; it stops either at the first grid
   * time not below `maxTs`, or with "Unable to solve frame n" at the first
   * grid time that resolves to nothing, n being the counter plus one.
   */
  lemma {:induction false} RunShape(frames: map<U64, SolverFrame>, maxTs: U64, step: U64, range: U64, i: nat, acc: seq<ChanFrame>)
    requires GridAdvances(frames, maxTs, step, range) && maxTs + step <= TWO_64
    requires i * step <= maxTs + step
    requires |acc| == i && EmittedInOrder(frames, maxTs, step, range, acc)
    ensures var (chan, err) := Run(frames, maxTs, step, range, i, acc);
      && EmittedInOrder(frames, maxTs, step, range, chan)
      && |chan| >= i
      && (err.None? ==> |chan| * step >= maxTs)
      && (err.Some? ==>
            && err.value == UnresolvedFrame(CounterSucc(|chan|))
            && |chan| * step < maxTs
            && Resolve(frames, |chan| * step, range).None?)
    decreases maxTs + step - i * step
  {
    var t := i * step;
    if t < maxTs {
      var f := Resolve(frames, t, range);
      if f.Some? {
        var acc' := acc + [FromSolverFrame(CounterSucc(i), f.value)];
        EmittedSnoc(frames, maxTs, step, range, acc, f.value);
        assert (i + 1) * step == t + step;
        RunShape(frames, maxTs, step, range, i + 1, acc');
      }
    }
  }

  /**
   * Frame j is numbered CounterSucc(j) (j + 1 until the `uint` counter
   * wraps), and comes from the key t of its grid time t = j * step or from a
   * key in (t, t + range).
   */
  lemma ResampleFacts(tl: Timeline, step: U64, range: U64)
    requires tl.Valid()
    requires tl.order != [] ==> GridAdvances(tl.frames, tl.LastTimestamp(), step, range) && tl.LastTimestamp() + step <= TWO_64
    ensures var (chan, err) := Resample(tl, step, range);
      && (forall j | 0 <= j < |chan| :: chan[j].frame == CounterSucc(j))
      && (forall j | 0 <= j < |chan| ::
            && j * step < tl.LastTimestamp()
            && ResolvedKey(tl.frames, j * step, range).Some?
            && var k := ResolvedKey(tl.frames, j * step, range).value;
            && k in tl.frames
            && (k == j * step || j * step < k < j * step + range)
            && chan[j] == FromSolverFrame(CounterSucc(j), tl.frames[k]))
      && (tl.order != [] && err.None? ==> |chan| * step >= tl.LastTimestamp())
      && (tl.order != [] && err.Some? ==>
            err.value == UnresolvedFrame(CounterSucc(|chan|)) && |chan| * step < tl.LastTimestamp())
  {
    if tl.order != [] {
      var maxTs := tl.LastTimestamp();
      RunShape(tl.frames, maxTs, step, range, 0, []);
      var (chan, err) := Resample(tl, step, range);
      assert (chan, err) == Run(tl.frames, maxTs, step, range, 0, []);
      EmittedKeys(tl.frames, maxTs, step, range, chan);
    }
  }

  /**
   * While fewer than 2^32 - 1 grid points lie below the last frame, the
   * `uint` counter never wraps: frame j is numbered j + 1, and so is the
   * frame named in "Unable to solve frame n".
   */
  lemma NumbersFitUint(tl: Timeline, step: U64, range: U64)
    requires tl.Valid()
    requires tl.order != [] ==> GridAdvances(tl.frames, tl.LastTimestamp(), step, range) && tl.LastTimestamp() + step <= TWO_64
    requires tl.order != [] ==> tl.LastTimestamp() <= 0xFFFF_FFFF * step
    ensures var (chan, err) := Resample(tl, step, range);
      && (forall j | 0 <= j < |chan| :: chan[j].frame == j + 1)
      && (tl.order != [] && err.Some? ==> err.value == UnresolvedFrame(|chan| + 1))
  {
    ResampleFacts(tl, step, range);
    if tl.order != [] {
      var (chan, err) := Resample(tl, step, range);
      forall j | 0 <= j < |chan|
        ensures chan[j].frame == j + 1
      {
        MulCancelLt(j, 0xFFFF_FFFF, step);
      }
      if err.Some? {
        MulCancelLt(|chan|, 0xFFFF_FFFF, step);
      }
    }
  }

  /**
   * A grid that stands still (a step of 0) is never walked: with the last
   * frame at 0 nothing is emitted, otherwise time 0 resolves to nothing and
   * frame 1 cannot be solved.
   */
  lemma StandingGrid(tl: Timeline, range: U64)
    requires tl.Valid() && tl.order != [] && GridAdvances(tl.frames, tl.LastTimestamp(), 0, range)
    ensures Resample(tl, 0, range) == if tl.LastTimestamp() == 0 then ([], None) else ([], Some(UnresolvedFrame(1)))
  {
  }

  /** A timeline whose only key is 0 ends at grid time 0: no frame is emitted and nothing fails. */
  lemma OnlyKeyZeroGivesNoFrames(f: SolverFrame, step: U64, range: U64)
    requires f.timestamp == 0
    ensures Resample(Timeline(map[0 := f], [0]), step, range) == ([], None)
  {
  }

  /**
   * The search for the frame of grid time `t`: the frame stored at `t`, else
   * the first key found counting up from t + 1 while below t + range (on
   * `ulong`, so the bound wraps).
   */
  method FindFrame(frames: map<U64, SolverFrame>, t: U64, range: U64) returns (current: Option<SolverFrame>)
    ensures current == Resolve(frames, t, range)
  {
    if t in frames {
      return Some(frames[t]);
    }
    current := None;
    var workingTimestamp: int := t + 1;
    var limitTimestamp: U64 := (t + range) % TWO_64;
    while workingTimestamp < limitTimestamp
      invariant t < workingTimestamp
      invariant FirstKey(frames, t + 1, limitTimestamp) == FirstKey(frames, workingTimestamp, limitTimestamp)
      decreases limitTimestamp - workingTimestamp
    {
      if workingTimestamp in frames {
        return Some(frames[workingTimestamp]);
      }
      workingTimestamp := workingTimestamp + 1;
    }
  }

  /** One turn of the resampler loop that resolves its grid time. */
  lemma RunStep(frames: map<U64, SolverFrame>, maxTs: U64, step: U64, range: U64, i: nat, acc: seq<ChanFrame>)
    requires GridAdvances(frames, maxTs, step, range) && maxTs + step <= TWO_64
    requires i * step < maxTs
    ensures (i + 1) * step <= maxTs + step
    ensures var f := Resolve(frames, i * step, range);
      && (f.None? ==> Run(frames, maxTs, step, range, i, acc) == (acc, Some(UnresolvedFrame(CounterSucc(i)))))
      && (f.Some? ==> 0 < step && Run(frames, maxTs, step, range, i, acc) == Run(frames, maxTs, step, range, i + 1, acc + [FromSolverFrame(CounterSucc(i), f.value)]))
  {
    assert (i + 1) * step == i * step + step;
  }

  /**
   * The resampler loop: for each grid time below the last frame's timestamp,
   * the exact hit or the first key of the window, numbered from 1; "Unable to
   * solve frame n" when neither exists. Returns the frames added to the
   * solver's chan frames (kept even when a later frame fails) and the error.
   */
  method SolveFromSolverData(tl: Timeline, step: U64, range: U64) returns (chan: seq<ChanFrame>, err: Option<Error>)
    requires tl.Valid()
    requires tl.order != [] ==> GridAdvances(tl.frames, tl.LastTimestamp(), step, range) && tl.LastTimestamp() + step <= TWO_64
    ensures (chan, err) == Resample(tl, step, range)
  {
    chan := [];
    if tl.order == [] {
      return [], Some(EmptyCollection);
    }
    var maxTs := tl.frames[tl.order[|tl.order| - 1]].timestamp;
    var frameCounter: U32 := 0;
    ghost var turns: nat := 0;
    var currentTimestamp: U64 := 0;
    while currentTimestamp < maxTs
      invariant frameCounter == turns % TWO_32
      invariant currentTimestamp == turns * step <= maxTs + step
      invariant Run(tl.frames, maxTs, step, range, 0, []) == Run(tl.frames, maxTs, step, range, turns, chan)
      decreases maxTs - currentTimestamp
    {
      var current := FindFrame(tl.frames, currentTimestamp, range);
      RunStep(tl.frames, maxTs, step, range, turns, chan);
      var number: U32 := (frameCounter + 1) % TWO_32;
      assert number == CounterSucc(turns);
      CounterSuccWraps(turns);
      if current.None? {
        return chan, Some(UnresolvedFrame(number));
      }
      chan := chan + [FromSolverFrame(number, current.value)];
      frameCounter := (frameCounter + 1) % TWO_32;
      turns := turns + 1;
      currentTimestamp := currentTimestamp + step;
    }
    return chan, None;
  }

  /**
   * The two grid parameters, in the order the resampler computes them:
   * Convert.ToUInt64(nsPerFrame * 0.5) is the window size, then
   * Convert.ToUInt64(Math.Floor(nsPerFrame)) the grid step; either raises an
   * OverflowException when the value does not fit.
   */
  function GridParameters(nsPerFrame: real): (r: Result<(U64, U64), Error>)
    ensures r.Success? <==> ToU64(nsPerFrame * 0.5).Some? && ToU64(nsPerFrame.Floor as real).Some?
    ensures r.Success? ==> r.value == (ToU64(nsPerFrame * 0.5).value, ToU64(nsPerFrame.Floor as real).value)
    ensures r.Failure? ==> r.error == Overflow
  {
    match ToU64(nsPerFrame * 0.5)
    case None => Failure(Overflow)
    case Some(range) =>
      match ToU64(nsPerFrame.Floor as real)
      case None => Failure(Overflow)
      case Some(step) => Success((range, step))
  }

  /**
   * The grid of a solver built for `fps` frames per second, whose frame
   * length is 1e9 / fps nanoseconds. A rate of 0 makes that length infinite,
   * which Convert.ToUInt64 rejects like any other value out of range.
   */
  function FrameGrid(fps: real): Result<(U64, U64), Error> {
    if fps == 0.0 then Failure(Overflow) else GridParameters(1_000_000_000.0 / fps)
  }

  /**
   * A rate of 0 or below has no grid; a rate up to 1e9 that has one steps by
   * at least 1 ns; above 1e9 the step is 0 and the grid never advances.
   */
  lemma FrameGridFacts(fps: real)
    ensures fps <= 0.0 ==> FrameGrid(fps) == Failure(Overflow)
    ensures 0.0 < fps <= 1_000_000_000.0 && FrameGrid(fps).Success? ==> 1 <= FrameGrid(fps).value.1
    ensures 1_000_000_000.0 < fps ==> FrameGrid(fps).Success? && FrameGrid(fps).value == (0, 0)
  {
    if fps != 0.0 {
      var ns := 1_000_000_000.0 / fps;
      assert ns * fps == 1_000_000_000.0;
      if fps < 0.0 {
        assert ns < 0.0 by {
          if 0.0 <= ns {
            MulLe(0.0, ns, -fps);
          }
        }
      } else if fps <= 1_000_000_000.0 {
        assert 1.0 <= ns by {
          if ns < 1.0 {
            MulLt(ns, 1.0, fps);
          }
        }
      } else {
        assert 0.0 < ns < 1.0 by {
          if ns <= 0.0 {
            MulLe(ns, 0.0, fps);
          }
          if 1.0 <= ns {
            MulLe(1.0, ns, fps);
          }
        }
        assert ns.Floor == 0;
        assert 0.0 < ns * 0.5 < 0.5;
      }
    }
  }

  /**
   * Whether the resampler's loop ends over a timeline: either the grid
   * parameters overflow (it fails before the loop), or the grid advances or
   * stops at once at time 0, and the grid time after the last frame still
   * fits in a `ulong`.
   */
  predicate GridFits(tl: Timeline, fps: real)
    requires tl.Valid()
  {
    FrameGrid(fps).Success? && tl.order != [] ==>
      var (range, step) := FrameGrid(fps).value;
      GridAdvances(tl.frames, tl.LastTimestamp(), step, range) && tl.LastTimestamp() + step <= TWO_64
  }

  /**
   * SolveFromSolverData: the grid parameters, then the timeline's last
   * frame, then the loop. Returns the chan frames added and the exception.
   */
  function SolveFrames(tl: Timeline, fps: real): (r: (seq<ChanFrame>, Option<Error>))
    requires tl.Valid() && GridFits(tl, fps)
    ensures FrameGrid(fps).Failure? ==> r == ([], Some(Overflow))
    ensures FrameGrid(fps).Success? && tl.order == [] ==> r == ([], Some(EmptyCollection))
  {
    match FrameGrid(fps)
    case Failure(e) => ([], Some(e))
    case Success((range, step)) => Resample(tl, step, range)
  }

  /**
   * Above 1e9 fps both the step and the window are 0. The loop then ends
   * exactly when the last frame is at 0 (no frames) or no frame is at 0
   * ("Unable to solve frame 1"); otherwise the frame at 0 is added for ever.
   */
  lemma AboveGigaFps(tl: Timeline, fps: real)
    requires tl.Valid() && tl.order != [] && 1_000_000_000.0 < fps
    ensures GridFits(tl, fps) <==> tl.LastTimestamp() == 0 || 0 !in tl.frames
    ensures GridFits(tl, fps) ==>
      SolveFrames(tl, fps) == if tl.LastTimestamp() == 0 then ([], None) else ([], Some(UnresolvedFrame(1)))
  {
    FrameGridFacts(fps);
    NarrowRangeNeedsExactHit(tl.frames, 0, 0);
    if GridFits(tl, fps) {
      StandingGrid(tl, 0);
    }
  }

  /**
   * The resampled frames are numbered by the `uint` counter plus one and each
   * shows a frame of the timeline.
   */
  lemma ResampleShowsTimeline(tl: Timeline, step: U64, range: U64)
    requires tl.Valid()
    requires tl.order != [] ==> GridAdvances(tl.frames, tl.LastTimestamp(), step, range) && tl.LastTimestamp() + step <= TWO_64
    ensures var chan := Resample(tl, step, range).0;
      forall j | 0 <= j < |chan| ::
        chan[j].frame == CounterSucc(j) && exists k | k in tl.frames :: chan[j] == FromSolverFrame(CounterSucc(j), tl.frames[k])
  {
    ResampleFacts(tl, step, range);
    var chan := Resample(tl, step, range).0;
    forall j | 0 <= j < |chan|
      ensures exists k | k in tl.frames :: chan[j] == FromSolverFrame(CounterSucc(j), tl.frames[k])
    {
      var k := ResolvedKey(tl.frames, j * step, range).value;
      assert k in tl.frames;
    }
  }

  /**
   * What SolveFromSolverData produces: frames numbered CounterSucc(j), each
   * showing a frame of the timeline; the exception is a grid overflow, an
   * empty timeline, or the first grid time with no frame in its window.
   */
  lemma SolveFramesFacts(tl: Timeline, fps: real)
    requires tl.Valid() && GridFits(tl, fps)
    ensures var (chan, err) := SolveFrames(tl, fps);
      && (forall j | 0 <= j < |chan| ::
            chan[j].frame == CounterSucc(j) && exists k | k in tl.frames :: chan[j] == FromSolverFrame(CounterSucc(j), tl.frames[k]))
      && (err.Some? ==> err.value == Overflow || err.value == EmptyCollection || err.value == UnresolvedFrame(CounterSucc(|chan|)))
  {
    if FrameGrid(fps).Success? {
      var (range, step) := FrameGrid(fps).value;
      ResampleShowsTimeline(tl, step, range);
      ResampleFacts(tl, step, range);
    }
  }

  /**
   * The checks made by the AbstractTrackSolver constructor: the parser is
   * parsed if it was not yet, its tracker type must be one the solver
   * supports, and the first sensor event gives the first timestamp.
   */
  function OpenTrackSpec(parsed: bool, parse: Result<bool, Error>, kind: U32, data: seq<SensorEvent>, supported: set<U32>): (r: Result<U64, Error>)
    ensures !parsed && parse.Failure? ==> r == Failure(parse.error)
    ensures (parsed || parse.Success?) && kind !in supported ==> r == Failure(IncompatibleTrackType)
    ensures r.Success? <==> (parsed || parse.Success?) && kind in supported && data != []
    ensures r.Success? ==> r.value == data[0].timestamp
  {
    if !parsed && parse.Failure? then Failure(parse.error)
    else if kind !in supported then Failure(IncompatibleTrackType)
    else if data == [] then Failure(EmptyCollection)
    else Success(data[0].timestamp)
  }

  /**
   * Runs the constructor's checks on a library parser: returns the sorted
   * sensor events and the first timestamp. A parser not parsed yet is left
   * as Parse leaves it, and the result is OpenTrackSpec of what Parse
   * returned and of the type and events the parser then holds.
   */
  method OpenTrack(parser: TrackFileParser, supported: set<U32>) returns (r: Result<(seq<SensorEvent>, U64), Error>)
    requires parser.Valid()
    modifies parser
    ensures parser.Valid()
    ensures old(parser.parsed) ==> unchanged(parser)
    ensures r.Success? ==> parser.parsed && parser.trackFileType in supported
    ensures r.Success? ==> r.value.0 == parser.sensorData && r.value.0 != [] && r.value.1 == parser.sensorData[0].timestamp
    ensures r.Failure? && parser.trackFileType in supported && (old(parser.parsed) || parser.parsed) ==> parser.sensorData == [] && r.error == EmptyCollection
    ensures !old(parser.parsed) ==>
      var (kind, data, parse) := Ingestion.ParseSpec(parser.content, parser.syntax.parseU32, LineDecoder(parser.syntax), InsertBefore,
                                                     old(parser.trackFileType), old(parser.sensorData));
      parser.trackFileType == kind && parser.sensorData == data && parser.parsed == parse.Success?
    ensures var parse := if old(parser.parsed) then Success(true) else
              Ingestion.ParseSpec(parser.content, parser.syntax.parseU32, LineDecoder(parser.syntax), InsertBefore,
                                  old(parser.trackFileType), old(parser.sensorData)).2;
      var spec := OpenTrackSpec(old(parser.parsed), parse, parser.trackFileType, parser.sensorData, supported);
      && (r.Success? <==> spec.Success?)
      && (r.Failure? ==> r.error == spec.error)
      && (r.Success? ==> r.value == (parser.sensorData, spec.value))
  {
    if !parser.parsed {
      var p := parser.Parse();
      if p.Failure? {
        return Failure(p.error);
      }
    }
    if parser.trackFileType !in supported {
      return Failure(IncompatibleTrackType);
    }
    if parser.sensorData == [] {
      return Failure(EmptyCollection);
    }
    return Success((parser.sensorData, parser.sensorData[0].timestamp));
  }
}
