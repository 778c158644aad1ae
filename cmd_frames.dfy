/**
 * The command-line program's own SensorEvent and ChanFrame classes. They hold
 * the same records as the library's, but decode track lines without turning
 * decimal commas into points and print an eighth, constant field.
 */
module CmdFrames {
  import opened Wrappers
  import opened Errors
  import opened Text
  import opened SensorEvents
  import opened ChanFrames

  /** The fields the command-line decoder hands to FromFields. */
  function CmdLineFields(line: string): (r: seq<string>)
    ensures forall i | 0 <= i < |r| :: '\t' !in r[i]
  {
    Split(Trim(line), '\t')
  }

  /** SensorEvent.FromTrackLine (command line): trim, split on tabs, decode the fields. */
  function CmdFromTrackLine(line: string, syntax: NumberSyntax): (r: Result<SensorEvent, Error>)
    ensures r.Success? <==> Decodable(CmdLineFields(line), syntax)
    ensures r.Failure? ==> r.error == IndexOutOfRange || r.error == Format
  {
    FromFields(CmdLineFields(line), syntax)
  }

  lemma TrimKeepsOut(s: string, c: char)
    requires c !in s
    ensures c !in Trim(s)
  {
    var t := TrimStart(s);
    assert t == s[|s| - |t|..];
    assert c !in t;
    var r := TrimEnd(t);
    assert r == t[..|r|];
  }

  /** On a line without commas the two decoders agree. */
  lemma DecodersAgreeWithoutCommas(line: string, syntax: NumberSyntax)
    requires ',' !in line
    ensures CmdFromTrackLine(line, syntax) == FromTrackLine(line, syntax)
  {
    TrimKeepsOut(line, ',');
    ReplaceAbsent(Trim(line), ',', '.');
  }

  /**
   * The command-line decoder hands every field to the number parsers as
   * written, decimal commas included.
   */
  lemma {:induction false} CmdFromTrackLineOfJoin(parts: seq<string>, syntax: NumberSyntax)
    requires |parts| >= 1
    requires forall i | 0 <= i < |parts| :: '\t' !in parts[i]
    requires parts[0] != [] && !IsWhiteSpace(parts[0][0])
    requires parts[|parts| - 1] != [] && !IsWhiteSpace(parts[|parts| - 1][|parts[|parts| - 1]| - 1])
    ensures CmdLineFields(Join(parts, '\t')) == parts
    ensures CmdFromTrackLine(Join(parts, '\t'), syntax) == FromFields(parts, syntax)
  {
    var line := Join(parts, '\t');
    JoinEnds(parts, '\t');
    assert Trim(line) == line;
    SplitOfJoin(parts, '\t');
  }

  /** ChanFrame.ToString (command line): the seven library fields and a constant "0.0". */
  function CmdToString(f: ChanFrame, fmt: real -> string): string {
    Join(Fields(f, fmt) + ["0.0"], '\t')
  }

  lemma {:induction false} JoinSnoc(parts: seq<string>, last: string, sep: char)
    requires |parts| >= 1
    ensures Join(parts + [last], sep) == Join(parts, sep) + [sep] + last
  {
    if |parts| > 1 {
      JoinSnoc(parts[1..], last, sep);
      assert (parts + [last])[1..] == parts[1..] + [last];
    } else {
      assert (parts + [last])[1..] == [last];
    }
  }

  /** A command-line chan line is the library line followed by a tab and "0.0". */
  lemma CmdToStringExtendsLibrary(f: ChanFrame, fmt: real -> string)
    ensures CmdToString(f, fmt) == ToString(f, fmt) + "\t0.0"
  {
    JoinSnoc(Fields(f, fmt), "0.0", '\t');
  }

  /**
   * A command-line chan line has exactly eight tab-separated fields: frame,
   * position, rotation, then the literal "0.0".
   */
  lemma CmdToStringFields(f: ChanFrame, fmt: real -> string)
    requires TabFree(fmt)
    ensures Split(CmdToString(f, fmt), '\t') == Fields(f, fmt) + ["0.0"]
    ensures |Split(CmdToString(f, fmt), '\t')| == 8
    ensures Split(CmdToString(f, fmt), '\t')[7] == "0.0"
  {
    var parts := Fields(f, fmt) + ["0.0"];
    FieldsTabFree(f, fmt);
    assert forall i | 0 <= i < 8 :: '\t' !in parts[i];
    SplitOfJoin(parts, '\t');
  }
}
