/**
 * The library's TrackFileParser: the first line of a track file names the
 * tracker type, every further line is one sensor event. Events are kept in a
 * SortedList keyed by timestamp under SensorEvent.TimestampComparer, which
 * never reports two keys equal, so events with equal timestamps are all kept.
 */
module TrackFileParsers {
  import opened Wrappers
  import opened Numeric
  import opened Errors
  import opened Text
  import opened SensorEvents
  import opened Ingestion

  /** CameraTrackerType codes of the library. */
  const RL_DEFAULT: U32 := 0
  const GL_DEFAULT: U32 := 1
  const GAM_DEFAULT: U32 := 2
  const GAM_NATIVE: U32 := 3

  /** Timestamps never decrease along the list. */
  predicate Sorted(list: seq<SensorEvent>) {
    forall i, j | 0 <= i < j < |list| :: list[i].timestamp <= list[j].timestamp
  }

  /** The index of the first event whose timestamp is at least `t`, or the length. */
  function InsertionPoint(list: seq<SensorEvent>, t: U64): (k: nat)
    ensures k <= |list|
    ensures forall i | 0 <= i < k :: list[i].timestamp < t
    ensures k < |list| ==> t <= list[k].timestamp
  {
    if list == [] || t <= list[0].timestamp then 0
    else 1 + InsertionPoint(list[1..], t)
  }

  /**
   * SortedList.Add under TimestampComparer. The binary search compares each
   * stored key with the new one and never hits equality, so the event goes in
   * front of the first stored event whose timestamp is not smaller: among equal
   * timestamps the latest addition comes first.
   */
  function InsertBefore(list: seq<SensorEvent>, e: SensorEvent): seq<SensorEvent> {
    var k := InsertionPoint(list, e.timestamp);
    list[..k] + [e] + list[k..]
  }

  /** Where each event of the old list ends up once `e` is inserted. */
  lemma InsertBeforeAt(list: seq<SensorEvent>, e: SensorEvent)
    ensures var k := InsertionPoint(list, e.timestamp); var r := InsertBefore(list, e);
      && |r| == |list| + 1
      && r[k] == e
      && (forall i | 0 <= i < k :: r[i] == list[i])
      && (forall i | k < i < |r| :: r[i] == list[i - 1])
  {
  }

  /**
   * Insertion adds exactly the new event, right after the events with smaller
   * timestamps, and keeps the list sorted.
   */
  lemma InsertBeforeFacts(list: seq<SensorEvent>, e: SensorEvent)
    ensures var r := InsertBefore(list, e);
      && |r| == |list| + 1
      && multiset(r) == multiset(list) + multiset{e}
      && (Sorted(list) ==> Sorted(r))
  {
    var k := InsertionPoint(list, e.timestamp);
    assert list == list[..k] + list[k..];
    if Sorted(list) {
      InsertBeforeSorted(list, e);
    }
  }

  lemma InsertBeforeSorted(list: seq<SensorEvent>, e: SensorEvent)
    requires Sorted(list)
    ensures Sorted(InsertBefore(list, e))
  {
    var k := InsertionPoint(list, e.timestamp);
    var r := InsertBefore(list, e);
    InsertBeforeAt(list, e);
    forall i, j | 0 <= i < j < |r|
      ensures r[i].timestamp <= r[j].timestamp
    {
      if j < k {
        assert r[i] == list[i] && r[j] == list[j];
      } else if i > k {
        assert r[i] == list[i - 1] && r[j] == list[j - 1];
      } else if i == k {
        assert r[j] == list[j - 1];
      } else {
        assert r[i] == list[i];
      }
    }
  }

  /** The library decoder, SensorEvent.FromTrackLine, with the number parsers fixed. */
  function LineDecoder(syntax: NumberSyntax): Decoder {
    line => FromTrackLine(line, syntax)
  }

  /** The list stays sorted by timestamp, whatever the lines. */
  lemma {:induction false} IngestSorted(data: seq<SensorEvent>, lines: seq<string>, decode: Decoder)
    ensures Sorted(data) ==> Sorted(Ingest(data, lines, decode, InsertBefore).0)
    decreases |lines|
  {
    if lines != [] {
      var front := lines[..|lines| - 1];
      IngestSorted(data, front, decode);
      var (d, err) := Ingest(data, front, decode, InsertBefore);
      var x := decode(lines[|lines| - 1]);
      if err.None? && x.Success? {
        InsertBeforeFacts(d, x.value);
      }
    }
  }

  /**
   * When every line decodes, the list ends up holding exactly the events it
   * held before and one event per line: nothing is dropped, equal timestamps
   * included.
   */
  lemma {:induction false} IngestKeepsEveryLine(data: seq<SensorEvent>, lines: seq<string>, decode: Decoder)
    requires AllDecode(lines, decode)
    ensures Ingest(data, lines, decode, InsertBefore).1.None?
    ensures multiset(Ingest(data, lines, decode, InsertBefore).0) == multiset(data) + multiset(DecodeAll(lines, decode))
    ensures |Ingest(data, lines, decode, InsertBefore).0| == |data| + |lines|
    decreases |lines|
  {
    if lines != [] {
      var front := lines[..|lines| - 1];
      DecodeAllFront(lines, decode);
      IngestKeepsEveryLine(data, front, decode);
      var d := Ingest(data, front, decode, InsertBefore).0;
      var ev := decode(lines[|lines| - 1]).value;
      InsertBeforeFacts(d, ev);
    }
  }

  /**
   * TrackFileParser.Parse of the library keeps the list sorted by timestamp
   * and, when it succeeds, has added exactly one event per line after the
   * header.
   */
  lemma ParseKeepsEveryEvent(content: seq<string>, syntax: NumberSyntax, kind: U32, data: seq<SensorEvent>)
    ensures var r := ParseSpec(content, syntax.parseU32, LineDecoder(syntax), InsertBefore, kind, data);
      && (Sorted(data) ==> Sorted(r.1))
      && (r.2.Success? ==>
            && AllDecode(content[1..], LineDecoder(syntax))
            && multiset(r.1) == multiset(data) + multiset(DecodeAll(content[1..], LineDecoder(syntax)))
            && |r.1| == |data| + |content| - 1)
  {
    var decode := LineDecoder(syntax);
    ParseSucceedsIff(content, syntax.parseU32, decode, InsertBefore, kind, data);
    if content != [] {
      var lines := content[1..];
      IngestSorted(data, lines, decode);
      if AllDecode(lines, decode) {
        IngestKeepsEveryLine(data, lines, decode);
      }
    }
  }

  class TrackFileParser {
    const filepath: string
    /** The lines a StreamReader would return for the file, in order. */
    const content: seq<string>
    const syntax: NumberSyntax
    var trackFileType: U32
    var sensorData: seq<SensorEvent>
    var parsed: bool

    ghost predicate Valid()
      reads this
    {
      Sorted(sensorData)
    }

    /** A new parser is unparsed and holds no events. */
    constructor(filepath: string, content: seq<string>, syntax: NumberSyntax)
      ensures Valid()
      ensures this.filepath == filepath && this.content == content && this.syntax == syntax
      ensures sensorData == [] && !parsed && trackFileType == RL_DEFAULT
    {
      this.filepath := filepath;
      this.content := content;
      this.syntax := syntax;
      trackFileType := RL_DEFAULT;
      sensorData := [];
      parsed := false;
    }

    /** TrackFileParser.Parse; `parsed` becomes true only when it returns. */
    method Parse() returns (r: Result<bool, Error>)
      requires Valid()
      modifies this
      ensures Valid()
      ensures (trackFileType, sensorData, r) == ParseSpec(content, syntax.parseU32, LineDecoder(syntax), InsertBefore, old(trackFileType), old(sensorData))
      ensures parsed == (old(parsed) || r.Success?)
    {
      if content == [] {
        return Failure(NullReference);
      }
      var kind := syntax.parseU32(Trim(content[0]));
      if kind.None? {
        return Failure(Format);
      }
      trackFileType := kind.value;
      var lines := content[1..];
      var decode := LineDecoder(syntax);
      var i := 0;
      while i < |lines|
        invariant 0 <= i <= |lines|
        invariant Ingest(old(sensorData), lines[..i], decode, InsertBefore) == (sensorData, None)
        invariant Sorted(sensorData)
        invariant trackFileType == kind.value && parsed == old(parsed)
      {
        var event := decode(lines[i]);
        IngestTake(old(sensorData), lines, i, decode, InsertBefore);
        if event.Failure? {
          IngestErrorSticks(old(sensorData), lines, i + 1, |lines|, decode, InsertBefore);
          IngestWhole(old(sensorData), lines, decode, InsertBefore);
          return Failure(event.error);
        }
        InsertBeforeFacts(sensorData, event.value);
        sensorData := InsertBefore(sensorData, event.value);
        i := i + 1;
      }
      IngestWhole(old(sensorData), lines, decode, InsertBefore);
      parsed := true;
      return Success(true);
    }
  }
}
