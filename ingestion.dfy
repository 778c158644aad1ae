/**
 * The read loop shared by both TrackFileParser.Parse methods: after the header
 * line, every line of the file is decoded into a sensor event and added to the
 * parser's sorted container. The decoder and the container's Add are
 * parameters; the loop structure, including how a malformed line stops it, is
 * the same in both programs.
 */
module Ingestion {
  import opened Wrappers
  import opened Numeric
  import opened Errors
  import opened Text
  import opened SensorEvents

  /** SensorEvent.FromTrackLine with the number parsers fixed. */
  type Decoder = string -> Result<SensorEvent, Error>

  /** The container's Add, on the events it holds in enumeration order. */
  type Inserter = (seq<SensorEvent>, SensorEvent) -> seq<SensorEvent>

  /** The events held so far and the error of the line that stopped the loop, if any. */
  type Progress = (seq<SensorEvent>, Option<Error>)

  /**
   * The loop over the lines after the header, as a fold: each line is decoded
   * and added; the first line that does not decode stops the loop with its
   * error, the events added before it staying in the container.
   */
  function Ingest(data: seq<SensorEvent>, lines: seq<string>, decode: Decoder, insert: Inserter): Progress
    decreases |lines|
  {
    if lines == [] then (data, None)
    else IngestLine(Ingest(data, lines[..|lines| - 1], decode, insert), lines[|lines| - 1], decode, insert)
  }

  /** One turn of the loop, after the earlier turns left `acc`. */
  function IngestLine(acc: Progress, line: string, decode: Decoder, insert: Inserter): Progress {
    if acc.1.Some? then acc
    else match decode(line)
      case Failure(e) => (acc.0, Some(e))
      case Success(ev) => (insert(acc.0, ev), None)
  }

  /** Ingesting one more line of the same file is one more turn of the loop. */
  lemma IngestTake(data: seq<SensorEvent>, lines: seq<string>, i: nat, decode: Decoder, insert: Inserter)
    requires i < |lines|
    ensures Ingest(data, lines[..i + 1], decode, insert) == IngestLine(Ingest(data, lines[..i], decode, insert), lines[i], decode, insert)
  {
    assert lines[..i + 1][..i] == lines[..i];
  }

  lemma IngestWhole(data: seq<SensorEvent>, lines: seq<string>, decode: Decoder, insert: Inserter)
    ensures Ingest(data, lines[..|lines|], decode, insert) == Ingest(data, lines, decode, insert)
  {
    assert lines[..|lines|] == lines;
  }

  /** Once a line has failed, later lines change nothing. */
  lemma {:induction false} IngestErrorSticks(data: seq<SensorEvent>, lines: seq<string>, k: nat, j: nat, decode: Decoder, insert: Inserter)
    requires k <= j <= |lines|
    requires Ingest(data, lines[..k], decode, insert).1.Some?
    ensures Ingest(data, lines[..j], decode, insert) == Ingest(data, lines[..k], decode, insert)
    decreases j
  {
    if j > k {
      IngestErrorSticks(data, lines, k, j - 1, decode, insert);
      IngestTake(data, lines, j - 1, decode, insert);
    }
  }

  /** When every line decodes, the loop runs to the end without an error. */
  lemma {:induction false} IngestSucceedsOnGoodLines(data: seq<SensorEvent>, lines: seq<string>, decode: Decoder, insert: Inserter)
    requires forall i | 0 <= i < |lines| :: decode(lines[i]).Success?
    ensures Ingest(data, lines, decode, insert).1.None?
    decreases |lines|
  {
    if lines != [] {
      var front := lines[..|lines| - 1];
      assert forall i | 0 <= i < |front| :: front[i] == lines[i];
      IngestSucceedsOnGoodLines(data, front, decode, insert);
    }
  }

  /**
   * The first line that fails to decode is the one whose error the loop
   * reports, and the container holds what the lines before it added.
   */
  lemma {:induction false} IngestStopsAtFirstBadLine(data: seq<SensorEvent>, lines: seq<string>, decode: Decoder, insert: Inserter, k: nat)
    requires k < |lines|
    requires forall i | 0 <= i < k :: decode(lines[i]).Success?
    requires decode(lines[k]).Failure?
    ensures Ingest(data, lines, decode, insert).1 == Some(decode(lines[k]).error)
    ensures Ingest(data, lines, decode, insert).0 == Ingest(data, lines[..k], decode, insert).0
    decreases |lines|
  {
    if k < |lines| - 1 {
      var front := lines[..|lines| - 1];
      assert front[..k] == lines[..k];
      assert forall i | 0 <= i <= k :: front[i] == lines[i];
      IngestStopsAtFirstBadLine(data, front, decode, insert, k);
    } else {
      assert lines[..|lines| - 1] == lines[..k];
      IngestSucceedsOnGoodLines(data, lines[..k], decode, insert);
    }
  }

  /** The loop fails exactly when some line fails to decode. */
  lemma IngestFailsIffBadLine(data: seq<SensorEvent>, lines: seq<string>, decode: Decoder, insert: Inserter)
    ensures Ingest(data, lines, decode, insert).1.Some? <==> exists i | 0 <= i < |lines| :: decode(lines[i]).Failure?
  {
    if exists i | 0 <= i < |lines| :: decode(lines[i]).Failure? {
      var k := FirstBadLine(lines, decode);
      IngestStopsAtFirstBadLine(data, lines, decode, insert, k);
    } else {
      IngestSucceedsOnGoodLines(data, lines, decode, insert);
    }
  }

  /** The index of the first line that fails to decode. */
  lemma {:induction false} FirstBadLine(lines: seq<string>, decode: Decoder) returns (k: nat)
    requires exists i | 0 <= i < |lines| :: decode(lines[i]).Failure?
    ensures k < |lines| && decode(lines[k]).Failure?
    ensures forall i | 0 <= i < k :: decode(lines[i]).Success?
    decreases |lines|
  {
    if decode(lines[0]).Failure? {
      k := 0;
    } else {
      assert exists i | 0 <= i < |lines[1..]| :: decode(lines[1..][i]).Failure? by {
        var j :| 0 <= j < |lines| && decode(lines[j]).Failure?;
        assert lines[1..][j - 1] == lines[j];
      }
      var k' := FirstBadLine(lines[1..], decode);
      k := k' + 1;
      assert forall i | 1 <= i < k :: lines[i] == lines[1..][i - 1];
    }
  }

  /** Every line decodes. */
  predicate AllDecode(lines: seq<string>, decode: Decoder) {
    forall i | 0 <= i < |lines| :: decode(lines[i]).Success?
  }

  /** The events of lines that all decode, in file order. */
  function DecodeAll(lines: seq<string>, decode: Decoder): (r: seq<SensorEvent>)
    requires AllDecode(lines, decode)
    ensures |r| == |lines|
    ensures forall i | 0 <= i < |lines| :: decode(lines[i]) == Success(r[i])
  {
    seq(|lines|, i requires 0 <= i < |lines| && AllDecode(lines, decode) => decode(lines[i]).value)
  }

  /** The events of all lines but the last, and the last one's event. */
  lemma DecodeAllFront(lines: seq<string>, decode: Decoder)
    requires lines != [] && AllDecode(lines, decode)
    ensures AllDecode(lines[..|lines| - 1], decode)
    ensures DecodeAll(lines, decode) == DecodeAll(lines[..|lines| - 1], decode) + [decode(lines[|lines| - 1]).value]
  {
    var front := lines[..|lines| - 1];
    assert forall i | 0 <= i < |front| :: front[i] == lines[i];
    var a := DecodeAll(lines, decode);
    var b := DecodeAll(front, decode) + [decode(lines[|lines| - 1]).value];
    assert forall i | 0 <= i < |a| :: a[i] == b[i];
  }

  /**
   * TrackFileParser.Parse, shared by both programs, as what it does to the
   * tracker type and the event container, and what it returns. The trimmed
   * first line is read with `parseType` and becomes the tracker type, cast
   * without a range check; each further line goes through the read loop. A
   * missing first line (ReadLine returning null) or a malformed type raises
   * before anything changes; a malformed event line raises after the events
   * before it have been added. Success returns true.
   */
  function ParseSpec(content: seq<string>, parseType: string -> Option<U32>, decode: Decoder, insert: Inserter,
                     kind: U32, data: seq<SensorEvent>): (r: (U32, seq<SensorEvent>, Result<bool, Error>))
    ensures content == [] ==> r == (kind, data, Failure(NullReference))
    ensures content != [] && parseType(Trim(content[0])).None? ==> r == (kind, data, Failure(Format))
    ensures content != [] && parseType(Trim(content[0])).Some? ==> r.0 == parseType(Trim(content[0])).value
    ensures r.2.Success? ==> r.2.value
  {
    if content == [] then (kind, data, Failure(NullReference))
    else match parseType(Trim(content[0]))
      case None => (kind, data, Failure(Format))
      case Some(k) =>
        var (d, err) := Ingest(data, content[1..], decode, insert);
        if err.None? then (k, d, Success(true)) else (k, d, Failure(err.value))
  }

  /**
   * A parse succeeds exactly when the file has a first line holding a valid
   * tracker type and every later line decodes; the error of a failed parse is
   * the one raised by the first malformed line.
   */
  lemma ParseSucceedsIff(content: seq<string>, parseType: string -> Option<U32>, decode: Decoder, insert: Inserter,
                         kind: U32, data: seq<SensorEvent>)
    ensures ParseSpec(content, parseType, decode, insert, kind, data).2.Success? <==>
      content != [] && parseType(Trim(content[0])).Some? && AllDecode(content[1..], decode)
    ensures forall j | content != [] && parseType(Trim(content[0])).Some? && 1 <= j < |content| &&
        AllDecode(content[1..j], decode) && decode(content[j]).Failure? ::
      ParseSpec(content, parseType, decode, insert, kind, data).2 == Failure(decode(content[j]).error)
  {
    if content != [] && parseType(Trim(content[0])).Some? {
      var lines := content[1..];
      IngestFailsIffBadLine(data, lines, decode, insert);
      forall j | 1 <= j < |content| && AllDecode(content[1..j], decode) && decode(content[j]).Failure?
        ensures ParseSpec(content, parseType, decode, insert, kind, data).2 == Failure(decode(content[j]).error)
      {
        assert forall i | 0 <= i < j - 1 :: lines[i] == content[1..j][i];
        assert lines[j - 1] == content[j];
        IngestStopsAtFirstBadLine(data, lines, decode, insert, j - 1);
      }
    }
  }
}
