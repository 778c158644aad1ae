/**
 * The command-line program's ChanFile: the chan frames of a track, kept in a
 * SortedSet ordered by ChanFrame.Comparer, which compares frame numbers only.
 * A frame whose number is already present is not added, so the first frame
 * added for a number is the one kept.
 */
module ChanFiles {
  import opened Text
  import opened SensorEvents
  import opened ChanFrames
  import opened CmdFrames

  /** The set's elements in enumeration order: frame numbers strictly increase. */
  predicate ByFrame(frames: seq<ChanFrame>) {
    forall i, j | 0 <= i < j < |frames| :: frames[i].frame < frames[j].frame
  }

  /** The frame numbers present. */
  function Numbers(frames: seq<ChanFrame>): set<nat> {
    set i | 0 <= i < |frames| :: frames[i].frame
  }

  lemma NumbersCons(frames: seq<ChanFrame>)
    requires frames != []
    ensures Numbers(frames) == {frames[0].frame} + Numbers(frames[1..])
  {
    forall n | n in Numbers(frames)
      ensures n in {frames[0].frame} + Numbers(frames[1..])
    {
      var i :| 0 <= i < |frames| && frames[i].frame == n;
      if i > 0 {
        assert frames[1..][i - 1] == frames[i];
      }
    }
    forall n | n in Numbers(frames[1..])
      ensures n in Numbers(frames)
    {
      var i :| 0 <= i < |frames[1..]| && frames[1..][i].frame == n;
      assert frames[i + 1] == frames[1..][i];
    }
  }

  /** The index of the first frame whose number is at least `n`, or the length. */
  function FramePosition(frames: seq<ChanFrame>, n: nat): (k: nat)
    ensures k <= |frames|
    ensures forall i | 0 <= i < k :: frames[i].frame < n
    ensures k < |frames| ==> n <= frames[k].frame
  {
    if frames == [] || n <= frames[0].frame then 0
    else 1 + FramePosition(frames[1..], n)
  }

  /**
   * SortedSet.Add: the frame goes in before the first larger frame number,
   * and the result says whether it was added; when its number is present the
   * set is left as it is.
   */
  function Insert(frames: seq<ChanFrame>, f: ChanFrame): (r: (seq<ChanFrame>, bool)) {
    var k := FramePosition(frames, f.frame);
    if k < |frames| && frames[k].frame == f.frame then (frames, false)
    else (frames[..k] + [f] + frames[k..], true)
  }

  /** Where the frames end up when Add inserts. */
  lemma InsertAt(frames: seq<ChanFrame>, f: ChanFrame)
    requires Insert(frames, f).1
    ensures var k := FramePosition(frames, f.frame); var s := Insert(frames, f).0;
      && |s| == |frames| + 1
      && s[k] == f
      && (forall i | 0 <= i < k :: s[i] == frames[i])
      && (forall i | k < i < |s| :: s[i] == frames[i - 1])
  {
  }

  lemma InsertSorted(frames: seq<ChanFrame>, f: ChanFrame)
    requires ByFrame(frames)
    ensures ByFrame(Insert(frames, f).0)
  {
    var k := FramePosition(frames, f.frame);
    var s := Insert(frames, f).0;
    if Insert(frames, f).1 {
      InsertAt(frames, f);
      forall i, j | 0 <= i < j < |s|
        ensures s[i].frame < s[j].frame
      {
        if j < k {
          assert s[i] == frames[i] && s[j] == frames[j];
        } else if i > k {
          assert s[i] == frames[i - 1] && s[j] == frames[j - 1];
        } else if i == k {
          assert s[j] == frames[j - 1];
        } else {
          assert s[i] == frames[i];
        }
      }
    }
  }

  lemma InsertNumbers(frames: seq<ChanFrame>, f: ChanFrame)
    requires ByFrame(frames)
    ensures Insert(frames, f).1 <==> f.frame !in Numbers(frames)
    ensures Numbers(Insert(frames, f).0) == Numbers(frames) + {f.frame}
  {
    var k := FramePosition(frames, f.frame);
    var s := Insert(frames, f).0;
    if Insert(frames, f).1 {
      InsertAt(frames, f);
      forall i | 0 <= i < |frames|
        ensures frames[i].frame != f.frame
      {
        if k <= i {
          assert frames[k].frame <= frames[i].frame;
        }
      }
      forall m | m in Numbers(s)
        ensures m in Numbers(frames) + {f.frame}
      {
        var i :| 0 <= i < |s| && s[i].frame == m;
        if i < k {
          assert s[i] == frames[i];
        } else if i > k {
          assert s[i] == frames[i - 1];
        }
      }
      forall m | m in Numbers(frames)
        ensures m in Numbers(s)
      {
        var i :| 0 <= i < |frames| && frames[i].frame == m;
        if i < k {
          assert s[i] == frames[i];
        } else {
          assert s[i + 1] == frames[i];
        }
      }
      assert s[k].frame == f.frame;
    } else {
      assert frames[k].frame == f.frame;
    }
  }

  /**
   * Add keeps the set ordered; it adds exactly when the number is new, and
   * then exactly the new frame, so the numbers present grow by the frame's.
   */
  lemma InsertFacts(frames: seq<ChanFrame>, f: ChanFrame)
    requires ByFrame(frames)
    ensures var r := Insert(frames, f);
      && ByFrame(r.0)
      && (r.1 <==> f.frame !in Numbers(frames))
      && (!r.1 ==> r.0 == frames)
      && (r.1 ==> multiset(r.0) == multiset(frames) + multiset{f})
      && Numbers(r.0) == Numbers(frames) + {f.frame}
  {
    InsertSorted(frames, f);
    InsertNumbers(frames, f);
    var k := FramePosition(frames, f.frame);
    assert frames == frames[..k] + frames[k..];
  }

  /** Every frame already in the set stays; an added frame is in the set. */
  lemma InsertKeeps(frames: seq<ChanFrame>, f: ChanFrame)
    requires ByFrame(frames)
    ensures forall c | c in frames :: c in Insert(frames, f).0
    ensures Insert(frames, f).1 ==> f in Insert(frames, f).0
  {
    var k := FramePosition(frames, f.frame);
    var r := Insert(frames, f);
    if r.1 {
      assert r.0[k] == f;
      forall c | c in frames
        ensures c in r.0
      {
        var i :| 0 <= i < |frames| && frames[i] == c;
        if i < k {
          assert r.0[i] == c;
        } else {
          assert r.0[i + 1] == c;
        }
      }
    }
  }

  /** AddFrames: each frame through Add, in the given order. */
  function InsertAll(frames: seq<ChanFrame>, fs: seq<ChanFrame>): (r: seq<ChanFrame>)
    requires ByFrame(frames)
    ensures ByFrame(r)
    decreases |fs|
  {
    if fs == [] then frames
    else
      var acc := InsertAll(frames, fs[..|fs| - 1]);
      InsertFacts(acc, fs[|fs| - 1]);
      Insert(acc, fs[|fs| - 1]).0
  }

  /** The frame numbers of a sequence of frames. */
  function NumbersOf(fs: seq<ChanFrame>): set<nat> {
    set i | 0 <= i < |fs| :: fs[i].frame
  }

  /** `fs[i]` is the first of `fs` with its number, and the number is not in `frames`. */
  predicate FirstNew(frames: seq<ChanFrame>, fs: seq<ChanFrame>, i: nat)
    requires i < |fs|
  {
    && fs[i].frame !in Numbers(frames)
    && forall j | 0 <= j < i :: fs[j].frame != fs[i].frame
  }

  lemma NumbersOfSnoc(fs: seq<ChanFrame>)
    requires fs != []
    ensures NumbersOf(fs) == NumbersOf(fs[..|fs| - 1]) + {fs[|fs| - 1].frame}
  {
    var n := |fs| - 1;
    var front := fs[..n];
    forall m | m in NumbersOf(fs)
      ensures m in NumbersOf(front) + {fs[n].frame}
    {
      var i :| 0 <= i < |fs| && fs[i].frame == m;
      if i < n {
        assert front[i] == fs[i];
      }
    }
    forall m | m in NumbersOf(front)
      ensures m in NumbersOf(fs)
    {
      var i :| 0 <= i < |front| && front[i].frame == m;
      assert fs[i] == front[i];
    }
  }

  /**
   * Adding a batch: the numbers present become the old ones and the batch's;
   * every frame already present stays.
   */
  lemma {:induction false} InsertAllNumbers(frames: seq<ChanFrame>, fs: seq<ChanFrame>)
    requires ByFrame(frames)
    ensures Numbers(InsertAll(frames, fs)) == Numbers(frames) + NumbersOf(fs)
    ensures forall c | c in frames :: c in InsertAll(frames, fs)
    decreases |fs|
  {
    if fs != [] {
      var n := |fs| - 1;
      InsertAllNumbers(frames, fs[..n]);
      var acc := InsertAll(frames, fs[..n]);
      InsertKeeps(acc, fs[n]);
      InsertNumbers(acc, fs[n]);
      NumbersOfSnoc(fs);
    }
  }

  /** The last frame of a batch is added when its number is new to the set and the batch. */
  lemma LastOfBatchAdded(frames: seq<ChanFrame>, fs: seq<ChanFrame>)
    requires ByFrame(frames) && fs != [] && FirstNew(frames, fs, |fs| - 1)
    ensures fs[|fs| - 1] in InsertAll(frames, fs)
  {
    var n := |fs| - 1;
    var front := fs[..n];
    InsertAllNumbers(frames, front);
    var acc := InsertAll(frames, front);
    forall j | 0 <= j < |front|
      ensures front[j].frame != fs[n].frame
    {
      assert front[j] == fs[j];
    }
    assert fs[n].frame !in Numbers(acc);
    InsertNumbers(acc, fs[n]);
    InsertKeeps(acc, fs[n]);
  }

  /**
   * For each number new to the set, the first frame of the batch carrying
   * it is the one kept; later frames with that number are not added.
   */
  lemma {:induction false} InsertAllFirstWins(frames: seq<ChanFrame>, fs: seq<ChanFrame>)
    requires ByFrame(frames)
    ensures forall i | 0 <= i < |fs| && FirstNew(frames, fs, i) :: fs[i] in InsertAll(frames, fs)
    decreases |fs|
  {
    if fs != [] {
      var n := |fs| - 1;
      var front := fs[..n];
      InsertAllFirstWins(frames, front);
      var acc := InsertAll(frames, front);
      InsertKeeps(acc, fs[n]);
      forall i | 0 <= i < |fs| && FirstNew(frames, fs, i)
        ensures fs[i] in InsertAll(frames, fs)
      {
        if i < n {
          assert front[i] == fs[i];
          assert FirstNew(frames, front, i);
        } else {
          LastOfBatchAdded(frames, fs);
        }
      }
    }
  }

  lemma InsertAllSnoc(frames: seq<ChanFrame>, fs: seq<ChanFrame>, f: ChanFrame)
    requires ByFrame(frames)
    ensures InsertAll(frames, fs + [f]) == Insert(InsertAll(frames, fs), f).0
  {
    assert (fs + [f])[..|fs|] == fs;
  }

  /**
   * Adding the frames of a set that is already ordered by frame number, one
   * by one, to an empty set rebuilds exactly that set: each frame goes in
   * last.
   */
  lemma {:induction false} InsertAllSorted(fs: seq<ChanFrame>)
    requires ByFrame(fs)
    ensures InsertAll([], fs) == fs
    decreases |fs|
  {
    if fs != [] {
      var front := fs[..|fs| - 1];
      var f := fs[|fs| - 1];
      assert ByFrame(front);
      InsertAllSorted(front);
      assert InsertAll([], fs) == Insert(front, f).0;
      var k := FramePosition(front, f.frame);
      assert k == |front|;
      assert front[..k] == front && front[k..] == [];
      assert front + [f] == fs;
    }
  }

  /** `fmt` stands for double.ToString(); it never yields a line break. */
  ghost predicate LineFree(fmt: real -> string) {
    forall x :: '\n' !in fmt(x)
  }

  /** Helper: the formatter's property at one value. */
  lemma LineFreeAt(fmt: real -> string, x: real)
    requires LineFree(fmt)
    ensures '\n' !in fmt(x)
  {
  }

  /** A chan line holds no line break. */
  lemma CmdLineHasNoBreak(f: ChanFrame, fmt: real -> string)
    requires LineFree(fmt)
    ensures '\n' !in CmdToString(f, fmt)
  {
    var parts := Fields(f, fmt) + ["0.0"];
    var p, q := f.position, f.rotation;
    LineFreeAt(fmt, p[0]);
    LineFreeAt(fmt, p[1]);
    LineFreeAt(fmt, p[2]);
    LineFreeAt(fmt, q[0]);
    LineFreeAt(fmt, q[1]);
    LineFreeAt(fmt, q[2]);
    assert forall i | 0 <= i < |parts| :: '\n' !in parts[i];
    NoCharInJoin(parts, '\t', '\n');
  }

  /**
   * ChanFile.ToString: each frame's line followed by "\n", in enumeration
   * order; `line` is ChanFrame.ToString.
   */
  function Render(frames: seq<ChanFrame>, line: ChanFrame -> string): string
    decreases |frames|
  {
    if frames == [] then ""
    else line(frames[0]) + "\n" + Render(frames[1..], line)
  }

  /** The line of every frame, in order. */
  function Lines(frames: seq<ChanFrame>, line: ChanFrame -> string): (r: seq<string>)
    ensures |r| == |frames|
    ensures forall i | 0 <= i < |frames| :: r[i] == line(frames[i])
  {
    seq(|frames|, i requires 0 <= i < |frames| => line(frames[i]))
  }

  lemma {:induction false} RenderSnoc(frames: seq<ChanFrame>, f: ChanFrame, line: ChanFrame -> string)
    ensures Render(frames + [f], line) == Render(frames, line) + line(f) + "\n"
    decreases |frames|
  {
    if frames != [] {
      assert (frames + [f])[1..] == frames[1..] + [f];
      RenderSnoc(frames[1..], f, line);
    } else {
      assert Render([f], line) == line(f) + "\n" + Render([], line);
    }
  }

  /** ChanFrame.ToString of the command-line program, with `fmt` for double.ToString(). */
  function ChanLine(fmt: real -> string): ChanFrame -> string {
    f => CmdToString(f, fmt)
  }

  /** No line holds a line break. */
  ghost predicate Unbroken(line: ChanFrame -> string) {
    forall f :: '\n' !in line(f)
  }

  /** With a double format that writes no line break, no chan line holds one. */
  lemma ChanLineUnbroken(fmt: real -> string)
    requires LineFree(fmt)
    ensures Unbroken(ChanLine(fmt))
  {
    forall f: ChanFrame
      ensures '\n' !in ChanLine(fmt)(f)
    {
      CmdLineHasNoBreak(f, fmt);
    }
  }

  /**
   * The text splits at its line breaks into the frames' lines, in increasing
   * frame number, followed by the empty piece after the final "\n".
   */
  lemma {:induction false} RenderSplits(frames: seq<ChanFrame>, line: ChanFrame -> string)
    requires Unbroken(line)
    ensures Split(Render(frames, line), '\n') == Lines(frames, line) + [""]
    decreases |frames|
  {
    if frames != [] {
      var first := line(frames[0]);
      var rest := Render(frames[1..], line);
      RenderSplits(frames[1..], line);
      assert '\n' !in first;
      var u := "\n" + rest;
      assert u[0] == '\n' && u[1..] == rest;
      assert Split(u, '\n') == [""] + Split(rest, '\n');
      assert Render(frames, line) == first + u;
      SplitAfterPiece(first, u, '\n');
      assert first + "" == first;
      assert Lines(frames, line) == [first] + Lines(frames[1..], line);
    }
  }

  class ChanFile {
    var filepath: string
    /** The SortedSet's elements in enumeration order. */
    var frames: seq<ChanFrame>

    ghost predicate Valid()
      reads this
    {
      ByFrame(frames)
    }

    /** A chan file for `path` starts with no frames. */
    constructor(path: string)
      ensures Valid() && filepath == path && frames == []
    {
      filepath := path;
      frames := [];
    }

    /** AddFrame: SortedSet.Add; false when the frame number is already present. */
    method AddFrame(frame: ChanFrame) returns (added: bool)
      requires Valid()
      modifies this`frames
      ensures Valid()
      ensures (frames, added) == Insert(old(frames), frame)
    {
      InsertFacts(frames, frame);
      var r := Insert(frames, frame);
      frames, added := r.0, r.1;
    }

    /** AddFrames: every frame of the solver's set through Add, in order. */
    method AddFrames(fs: seq<ChanFrame>)
      requires Valid()
      modifies this`frames
      ensures Valid()
      ensures frames == InsertAll(old(frames), fs)
    {
      var i := 0;
      while i < |fs|
        invariant 0 <= i <= |fs| && Valid()
        invariant frames == InsertAll(old(frames), fs[..i])
      {
        assert fs[..i + 1][..i] == fs[..i];
        var added := AddFrame(fs[i]);
        i := i + 1;
      }
      assert fs[..|fs|] == fs;
    }

    /** ToString: the chan lines, each followed by "\n", built up in a StringBuilder. */
    method ToString(fmt: real -> string) returns (s: string)
      ensures s == Render(frames, ChanLine(fmt))
    {
      s := "";
      var i := 0;
      while i < |frames|
        invariant 0 <= i <= |frames|
        invariant s == Render(frames[..i], ChanLine(fmt))
      {
        RenderSnoc(frames[..i], frames[i], ChanLine(fmt));
        assert frames[..i + 1] == frames[..i] + [frames[i]];
        s := s + CmdToString(frames[i], fmt);
        s := s + "\n";
        i := i + 1;
      }
      assert frames[..|frames|] == frames;
    }

    /** The Filepath getter. */
    function Filepath(): string
      reads this
    {
      filepath
    }

    /** The Filepath setter: only the path changes. */
    method SetFilepath(value: string)
      modifies this`filepath
      ensures filepath == value && Filepath() == value
    {
      filepath := value;
    }
  }
}
