/**
 * One line of a track file: a timestamp in nanoseconds, a sensor type code
 * and three readings. The same record serves the library and the command-line
 * program; only the line decoders differ.
 */
module SensorEvents {
  import opened Wrappers
  import opened Numeric
  import opened Errors
  import opened Text

  /** SensorType codes, shared by both programs. */
  const ACCEL: I32 := 1
  const MAGNETIC: I32 := 2
  const GYRO: I32 := 4
  const LIN_ACCEL: I32 := 10
  const ROT_VEC: I32 := 11

  /**
   * The type code is kept as the int read from the file: the cast to
   * SensorType does not check it is one of the named codes.
   */
  datatype SensorEvent = SensorEvent(timestamp: U64, kind: I32, data: Vec3)
  {
    function X(): real { data[0] }
    function Y(): real { data[1] }
    function Z(): real { data[2] }
  }

  /** Reads field `i` with `parse`: too few fields or a rejected field fail. */
  function ParseAt<T>(fields: seq<string>, i: nat, parse: string -> Option<T>): (r: Result<T, Error>)
    ensures i >= |fields| ==> r == Failure(IndexOutOfRange)
    ensures i < |fields| ==> (r.Success? <==> parse(fields[i]).Some?)
    ensures r.Success? ==> i < |fields| && parse(fields[i]) == Some(r.value)
    ensures r.Failure? && i < |fields| ==> r.error == Format
  {
    if i < |fields| then
      match parse(fields[i])
      case Some(v) => Success(v)
      case None => Failure(Format)
    else Failure(IndexOutOfRange)
  }

  /** Every field that FromFields reads is present and parses. */
  predicate Decodable(fields: seq<string>, syntax: NumberSyntax) {
    && 5 <= |fields|
    && syntax.parseU64(fields[0]).Some?
    && syntax.parseI32(fields[1]).Some?
    && syntax.parseDouble(fields[2]).Some?
    && syntax.parseDouble(fields[3]).Some?
    && syntax.parseDouble(fields[4]).Some?
  }

  /**
   * The field layout shared by both FromTrackLine methods: field 0 is the
   * timestamp, field 1 the type code, fields 2 to 4 the readings; fields are
   * read in that order and the first missing or malformed one raises.
   */
  function FromFields(fields: seq<string>, syntax: NumberSyntax): (r: Result<SensorEvent, Error>)
    ensures r.Success? <==> Decodable(fields, syntax)
    ensures r.Success? ==>
      && syntax.parseU64(fields[0]) == Some(r.value.timestamp)
      && syntax.parseI32(fields[1]) == Some(r.value.kind)
      && forall i | 0 <= i < 3 :: syntax.parseDouble(fields[2 + i]) == Some(r.value.data[i])
    ensures r.Failure? ==> r.error == IndexOutOfRange || r.error == Format
    ensures |fields| < 5 ==> r.Failure?
  {
    var timestamp :- ParseAt(fields, 0, syntax.parseU64);
    var kind :- ParseAt(fields, 1, syntax.parseI32);
    var x :- ParseAt(fields, 2, syntax.parseDouble);
    var y :- ParseAt(fields, 3, syntax.parseDouble);
    var z :- ParseAt(fields, 4, syntax.parseDouble);
    Success(SensorEvent(timestamp, kind, [x, y, z]))
  }

  /** Fields after the fifth are never looked at. */
  lemma ExtraFieldsIgnored(fields: seq<string>, syntax: NumberSyntax)
    requires 5 <= |fields|
    ensures FromFields(fields, syntax) == FromFields(fields[..5], syntax)
  {
  }

  /** The fields the library decoder hands to FromFields. */
  function LineFields(line: string): (r: seq<string>)
    ensures forall i | 0 <= i < |r| :: ',' !in r[i] && '\t' !in r[i]
  {
    var s := ReplaceChar(Trim(line), ',', '.');
    SplitKeepsOut(s, '\t', ',');
    Split(s, '\t')
  }

  /** A character missing from the string is missing from every piece of it. */
  lemma {:induction false} SplitKeepsOut(s: string, sep: char, c: char)
    requires c !in s
    ensures forall i | 0 <= i < |Split(s, sep)| :: c !in Split(s, sep)[i]
  {
    if s != [] {
      SplitKeepsOut(s[1..], sep, c);
    }
  }

  /**
   * SensorEvent.FromTrackLine (library): trim, turn every decimal comma into a
   * point, split on tabs, decode the fields.
   */
  function FromTrackLine(line: string, syntax: NumberSyntax): (r: Result<SensorEvent, Error>)
    ensures r.Success? <==> Decodable(LineFields(line), syntax)
    ensures r.Failure? ==> r.error == IndexOutOfRange || r.error == Format
  {
    FromFields(LineFields(line), syntax)
  }

  /** A line without decimal commas, tabs or surrounding blanks splits into its fields. */
  predicate PlainFields(parts: seq<string>) {
    && |parts| >= 1
    && (forall i | 0 <= i < |parts| :: '\t' !in parts[i] && ',' !in parts[i])
    && parts[0] != [] && !IsWhiteSpace(parts[0][0])
    && parts[|parts| - 1] != [] && !IsWhiteSpace(parts[|parts| - 1][|parts[|parts| - 1]| - 1])
  }

  /**
   * Writing five or more plain fields joined by tabs and reading the line back
   * decodes exactly those fields.
   */
  lemma {:induction false} FromTrackLineOfJoin(parts: seq<string>, syntax: NumberSyntax)
    requires PlainFields(parts)
    ensures LineFields(Join(parts, '\t')) == parts
    ensures FromTrackLine(Join(parts, '\t'), syntax) == FromFields(parts, syntax)
  {
    var line := Join(parts, '\t');
    JoinEnds(parts, '\t');
    assert Trim(line) == line;
    NoCharInJoin(parts, '\t', ',');
    ReplaceAbsent(line, ',', '.');
    SplitOfJoin(parts, '\t');
  }

  /** Join keeps the first character of the first piece and the last of the last. */
  lemma {:induction false} JoinEnds(parts: seq<string>, sep: char)
    requires |parts| >= 1 && parts[0] != [] && parts[|parts| - 1] != []
    ensures var j := Join(parts, sep);
      j != [] && j[0] == parts[0][0] && j[|j| - 1] == parts[|parts| - 1][|parts[|parts| - 1]| - 1]
  {
    JoinLast(parts, sep);
  }

  lemma {:induction false} JoinLast(parts: seq<string>, sep: char)
    requires |parts| >= 1 && parts[|parts| - 1] != []
    ensures var j := Join(parts, sep);
      j != [] && j[|j| - 1] == parts[|parts| - 1][|parts[|parts| - 1]| - 1]
  {
    if |parts| > 1 {
      JoinLast(parts[1..], sep);
    }
  }

  /** A character in no piece and different from the separator is not in the join. */
  lemma {:induction false} NoCharInJoin(parts: seq<string>, sep: char, c: char)
    requires |parts| >= 1 && c != sep
    requires forall i | 0 <= i < |parts| :: c !in parts[i]
    ensures c !in Join(parts, sep)
  {
    if |parts| > 1 {
      NoCharInJoin(parts[1..], sep, c);
    }
  }

  /** Replacing a character that does not occur changes nothing. */
  lemma ReplaceAbsent(s: string, from: char, to: char)
    requires from !in s
    ensures ReplaceChar(s, from, to) == s
  {
    var r := ReplaceChar(s, from, to);
    assert forall i | 0 <= i < |s| :: r[i] == s[i];
  }

  /** SensorEvent.CompareTo: 1 against null, otherwise by timestamp only. */
  function CompareTo(e: SensorEvent, other: Option<SensorEvent>): (r: int)
    ensures other.None? ==> r == 1
    ensures other.Some? ==> (r < 0 <==> e.timestamp < other.value.timestamp)
    ensures other.Some? ==> (r == 0 <==> e.timestamp == other.value.timestamp)
    ensures -1 <= r <= 1
  {
    match other
    case None => 1
    case Some(o) => CompareInt(e.timestamp, o.timestamp)
  }

  /** SensorEvent.Comparer.Compare: by timestamp only; 0 exactly on equal timestamps. */
  function Compare(a: SensorEvent, b: SensorEvent): (r: int)
    ensures r == 0 <==> a.timestamp == b.timestamp
    ensures r < 0 <==> a.timestamp < b.timestamp
    ensures r == CompareTo(a, Some(b))
  {
    CompareInt(a.timestamp, b.timestamp)
  }

  /**
   * SensorEvent.TimestampComparer.Compare: like the ordinary comparison except
   * that equal timestamps compare as 1, so it never reports equality.
   */
  function TimestampCompare(a: U64, b: U64): (r: int)
    ensures r != 0
    ensures r == -1 <==> a < b
    ensures r == 1 <==> b <= a
  {
    var c := CompareInt(a, b);
    if c == 0 then 1 else c
  }

  /** Two events with the same timestamp compare alike, whatever their kind or data. */
  lemma CompareIsTimestampOnly(a: SensorEvent, b: SensorEvent, c: SensorEvent)
    requires a.timestamp == b.timestamp
    ensures Compare(a, c) == Compare(b, c) && Compare(c, a) == Compare(c, b)
    ensures TimestampCompare(a.timestamp, c.timestamp) == TimestampCompare(b.timestamp, c.timestamp)
  {
  }
}
