/**
 * The command-line program's TrackFileParser. It reads the same file layout as
 * the library's, with the command-line decoder, into a SortedSet ordered by
 * SensorEvent.Comparer. That comparer reports equal timestamps as equal, so a
 * second event with a timestamp already present is not added.
 */
module CmdTrackFileParsers {
  import opened Wrappers
  import opened Numeric
  import opened Errors
  import opened Text
  import opened SensorEvents
  import opened Ingestion
  import CmdFrames
  import Lib = TrackFileParsers

  /** CameraTrackerType codes of the command-line program. */
  const GAM_DEFAULT: U32 := 0
  const GAM_NATIVE: U32 := 1
  const RL_DEFAULT: U32 := 2

  /**
   * The same code names different tracker types in the two programs: only
   * the code 3 of the library's GAM_NATIVE has no name here.
   */
  lemma CodesDiffer()
    ensures GAM_DEFAULT == Lib.RL_DEFAULT && GAM_NATIVE == Lib.GL_DEFAULT && RL_DEFAULT == Lib.GAM_DEFAULT
    ensures GAM_DEFAULT != Lib.GAM_DEFAULT && GAM_NATIVE != Lib.GAM_NATIVE && RL_DEFAULT != Lib.RL_DEFAULT
    ensures Lib.GAM_NATIVE !in {GAM_DEFAULT, GAM_NATIVE, RL_DEFAULT}
  {
  }

  /** Timestamps strictly increase along the set's enumeration order. */
  predicate StrictlySorted(list: seq<SensorEvent>) {
    forall i, j | 0 <= i < j < |list| :: list[i].timestamp < list[j].timestamp
  }

  function Timestamps(list: seq<SensorEvent>): set<U64> {
    set e | e in list :: e.timestamp
  }

  lemma TimestampsAppend(a: seq<SensorEvent>, b: seq<SensorEvent>)
    ensures Timestamps(a + b) == Timestamps(a) + Timestamps(b)
  {
    assert forall e :: e in a + b <==> e in a || e in b;
  }

  /**
   * SortedSet.Add under SensorEvent.Comparer: the event goes in at its place
   * in timestamp order unless an event with the same timestamp is already
   * there, in which case the set is left as it was.
   */
  function AddUnique(list: seq<SensorEvent>, e: SensorEvent): seq<SensorEvent> {
    var k := Lib.InsertionPoint(list, e.timestamp);
    if k < |list| && list[k].timestamp == e.timestamp then list
    else Lib.InsertBefore(list, e)
  }

  /**
   * On a set in timestamp order, Add keeps the first event of each timestamp:
   * a present timestamp changes nothing, a new one adds exactly the event; the
   * order stays strict either way.
   */
  lemma AddUniqueFacts(list: seq<SensorEvent>, e: SensorEvent)
    requires StrictlySorted(list)
    ensures var r := AddUnique(list, e);
      && StrictlySorted(r)
      && (e.timestamp in Timestamps(list) ==> r == list)
      && (e.timestamp !in Timestamps(list) ==> multiset(r) == multiset(list) + multiset{e})
      && Timestamps(r) == Timestamps(list) + {e.timestamp}
  {
    if e.timestamp in Timestamps(list) {
      AddUniquePresent(list, e);
    } else {
      AddUniqueAbsent(list, e);
      AddUniqueStrict(list, e);
    }
  }

  lemma AddUniquePresent(list: seq<SensorEvent>, e: SensorEvent)
    requires StrictlySorted(list) && e.timestamp in Timestamps(list)
    ensures AddUnique(list, e) == list
  {
    var k := Lib.InsertionPoint(list, e.timestamp);
    var j :| 0 <= j < |list| && list[j].timestamp == e.timestamp;
    assert j == k;
  }

  lemma AddUniqueAbsent(list: seq<SensorEvent>, e: SensorEvent)
    requires e.timestamp !in Timestamps(list)
    ensures AddUnique(list, e) == Lib.InsertBefore(list, e)
    ensures multiset(AddUnique(list, e)) == multiset(list) + multiset{e}
    ensures Timestamps(AddUnique(list, e)) == Timestamps(list) + {e.timestamp}
  {
    var k := Lib.InsertionPoint(list, e.timestamp);
    assert !(k < |list| && list[k].timestamp == e.timestamp) by {
      if k < |list| {
        assert list[k] in list;
      }
    }
    var r := Lib.InsertBefore(list, e);
    Lib.InsertBeforeFacts(list, e);
    assert forall x :: x in r <==> x in multiset(list) + multiset{e};
  }

  lemma AddUniqueStrict(list: seq<SensorEvent>, e: SensorEvent)
    requires StrictlySorted(list) && e.timestamp !in Timestamps(list)
    ensures StrictlySorted(Lib.InsertBefore(list, e))
  {
    var k := Lib.InsertionPoint(list, e.timestamp);
    var r := Lib.InsertBefore(list, e);
    Lib.InsertBeforeAt(list, e);
    forall i, j | 0 <= i < j < |r| && (j < k || i > k)
      ensures r[i].timestamp < r[j].timestamp
    {
      if j < k {
        assert r[i] == list[i] && r[j] == list[j];
      } else {
        assert r[i] == list[i - 1] && r[j] == list[j - 1];
      }
    }
    forall i, j | 0 <= i < j < |r| && i <= k <= j
      ensures r[i].timestamp < r[j].timestamp
    {
      if i == k {
        assert r[j] == list[j - 1];
        assert list[k] in list;
        assert list[k].timestamp <= list[j - 1].timestamp;
      } else {
        assert r[i] == list[i];
      }
    }
  }

  /** The command-line decoder, SensorEvent.FromTrackLine, with the number parsers fixed. */
  function CmdDecoder(syntax: NumberSyntax): Decoder {
    line => CmdFrames.CmdFromTrackLine(line, syntax)
  }

  /**
   * Event `i` is the first of its timestamp: none of the events already held
   * and none of the events before it has that timestamp.
   */
  predicate FirstOfItsTimestamp(data: seq<SensorEvent>, evs: seq<SensorEvent>, i: nat)
    requires i < |evs|
  {
    && evs[i].timestamp !in Timestamps(data)
    && forall j | 0 <= j < i :: evs[j].timestamp != evs[i].timestamp
  }

  /** What the set holds after a loop over lines that all decode. */
  predicate HoldsFirstOfEach(data: seq<SensorEvent>, evs: seq<SensorEvent>, r: seq<SensorEvent>) {
    && StrictlySorted(r)
    && Timestamps(r) == Timestamps(data) + Timestamps(evs)
    && (forall x | x in data :: x in r)
    && (forall x | x in r :: x in data || x in evs)
    && (forall i | 0 <= i < |evs| && FirstOfItsTimestamp(data, evs, i) :: evs[i] in r)
  }

  /**
   * When every line decodes, the set ends up in strict timestamp order,
   * holding the events it held, a timestamp for every line, and nothing that
   * came from elsewhere; each line whose timestamp was not seen before (in the
   * set or on an earlier line) has its own event stored.
   */
  lemma {:induction false} IngestKeepsFirstOfEachTimestamp(data: seq<SensorEvent>, lines: seq<string>, decode: Decoder)
    requires StrictlySorted(data) && AllDecode(lines, decode)
    ensures Ingest(data, lines, decode, AddUnique).1.None?
    ensures HoldsFirstOfEach(data, DecodeAll(lines, decode), Ingest(data, lines, decode, AddUnique).0)
    decreases |lines|
  {
    if lines == [] {
      assert Timestamps([]) == {};
    } else {
      var front := lines[..|lines| - 1];
      DecodeAllFront(lines, decode);
      IngestKeepsFirstOfEachTimestamp(data, front, decode);
      var d := Ingest(data, front, decode, AddUnique).0;
      var ev := decode(lines[|lines| - 1]).value;
      assert Ingest(data, lines, decode, AddUnique) == (AddUnique(d, ev), None);
      HoldsFirstOfEachStep(data, DecodeAll(front, decode), d, ev);
    }
  }

  /** One more decoded line keeps HoldsFirstOfEach. */
  lemma HoldsFirstOfEachStep(data: seq<SensorEvent>, evs: seq<SensorEvent>, d: seq<SensorEvent>, ev: SensorEvent)
    requires HoldsFirstOfEach(data, evs, d)
    ensures HoldsFirstOfEach(data, evs + [ev], AddUnique(d, ev))
  {
    AddUniqueFacts(d, ev);
    AddUniqueMembers(d, ev);
    TimestampsAppend(evs, [ev]);
    FirstWinsStep(data, evs, d, ev);
  }

  /** Add removes nothing, and adds nothing but the new event. */
  lemma AddUniqueMembers(list: seq<SensorEvent>, e: SensorEvent)
    ensures forall x | x in list :: x in AddUnique(list, e)
    ensures forall x | x in AddUnique(list, e) :: x in list || x == e
    ensures e.timestamp !in Timestamps(list) ==> e in AddUnique(list, e)
  {
    var k := Lib.InsertionPoint(list, e.timestamp);
    if !(k < |list| && list[k].timestamp == e.timestamp) {
      var r := Lib.InsertBefore(list, e);
      Lib.InsertBeforeFacts(list, e);
      assert forall x :: x in r <==> x in multiset(list) + multiset{e};
    }
  }

  lemma FirstWinsStep(data: seq<SensorEvent>, evs: seq<SensorEvent>, d: seq<SensorEvent>, ev: SensorEvent)
    requires HoldsFirstOfEach(data, evs, d)
    ensures var evs' := evs + [ev];
      forall i | 0 <= i < |evs'| && FirstOfItsTimestamp(data, evs', i) :: evs'[i] in AddUnique(d, ev)
  {
    var r := AddUnique(d, ev);
    var evs' := evs + [ev];
    AddUniqueMembers(d, ev);
    forall i | 0 <= i < |evs'| && FirstOfItsTimestamp(data, evs', i)
      ensures evs'[i] in r
    {
      if i < |evs| {
        assert evs'[i] == evs[i];
        assert forall j | 0 <= j < i :: evs'[j] == evs[j];
        assert FirstOfItsTimestamp(data, evs, i);
      } else {
        forall j | 0 <= j < |evs|
          ensures evs[j].timestamp != ev.timestamp
        {
          assert evs'[j] == evs[j];
        }
        assert forall x | x in evs :: x.timestamp != ev.timestamp;
        assert ev.timestamp !in Timestamps(d);
      }
    }
  }

  /**
   * TrackFileParser.Parse of the command-line program keeps the set in strict
   * timestamp order and, when it succeeds, has stored one event for each
   * timestamp that occurs in the file, the first line's event for each.
   */
  lemma ParseKeepsFirstOfEachTimestamp(content: seq<string>, syntax: NumberSyntax, kind: U32, data: seq<SensorEvent>)
    requires StrictlySorted(data)
    ensures var r := ParseSpec(content, syntax.parseU32, CmdDecoder(syntax), AddUnique, kind, data);
      && StrictlySorted(r.1)
      && (r.2.Success? ==>
            && AllDecode(content[1..], CmdDecoder(syntax))
            && HoldsFirstOfEach(data, DecodeAll(content[1..], CmdDecoder(syntax)), r.1))
  {
    var decode := CmdDecoder(syntax);
    ParseSucceedsIff(content, syntax.parseU32, decode, AddUnique, kind, data);
    if content != [] {
      var lines := content[1..];
      IngestStrict(data, lines, decode);
      if AllDecode(lines, decode) {
        IngestKeepsFirstOfEachTimestamp(data, lines, decode);
      }
    }
  }

  /** The set stays in strict timestamp order, whatever the lines. */
  lemma {:induction false} IngestStrict(data: seq<SensorEvent>, lines: seq<string>, decode: Decoder)
    requires StrictlySorted(data)
    ensures StrictlySorted(Ingest(data, lines, decode, AddUnique).0)
    decreases |lines|
  {
    if lines != [] {
      var front := lines[..|lines| - 1];
      IngestStrict(data, front, decode);
      var (d, err) := Ingest(data, front, decode, AddUnique);
      var x := decode(lines[|lines| - 1]);
      if err.None? && x.Success? {
        AddUniqueFacts(d, x.value);
      }
    }
  }

  class CmdTrackFileParser {
    const filepath: string
    /** The lines a StreamReader would return for the file, in order. */
    const content: seq<string>
    const syntax: NumberSyntax
    var trackFileType: U32
    /** The SortedSet's elements in enumeration order. */
    var sensorData: seq<SensorEvent>
    var parsed: bool

    ghost predicate Valid()
      reads this
    {
      StrictlySorted(sensorData)
    }

    /**
     * A new parser is unparsed and holds no events; the tracker type field
     * has its default value 0.
     */
    constructor(filepath: string, content: seq<string>, syntax: NumberSyntax)
      ensures Valid()
      ensures this.filepath == filepath && this.content == content && this.syntax == syntax
      ensures sensorData == [] && !parsed && trackFileType == GAM_DEFAULT
    {
      this.filepath := filepath;
      this.content := content;
      this.syntax := syntax;
      trackFileType := GAM_DEFAULT;
      sensorData := [];
      parsed := false;
    }

    /** TrackFileParser.Parse; `parsed` becomes true only when it returns. */
    method Parse() returns (r: Result<bool, Error>)
      requires Valid()
      modifies this
      ensures Valid()
      ensures (trackFileType, sensorData, r) == ParseSpec(content, syntax.parseU32, CmdDecoder(syntax), AddUnique, old(trackFileType), old(sensorData))
      ensures parsed == (old(parsed) || r.Success?)
    {
      if content == [] {
        return Failure(NullReference);
      }
      var kind := syntax.parseU32(Trim(content[0]));
      if kind.None? {
        return Failure(Format);
      }
      trackFileType := kind.value;
      var lines := content[1..];
      var decode := CmdDecoder(syntax);
      var i := 0;
      while i < |lines|
        invariant 0 <= i <= |lines|
        invariant Ingest(old(sensorData), lines[..i], decode, AddUnique) == (sensorData, None)
        invariant StrictlySorted(sensorData)
        invariant trackFileType == kind.value && parsed == old(parsed)
      {
        var event := decode(lines[i]);
        IngestTake(old(sensorData), lines, i, decode, AddUnique);
        if event.Failure? {
          IngestErrorSticks(old(sensorData), lines, i + 1, |lines|, decode, AddUnique);
          IngestWhole(old(sensorData), lines, decode, AddUnique);
          return Failure(event.error);
        }
        AddUniqueFacts(sensorData, event.value);
        sensorData := AddUnique(sensorData, event.value);
        i := i + 1;
      }
      IngestWhole(old(sensorData), lines, decode, AddUnique);
      parsed := true;
      return Success(true);
    }
  }
}
