# CameraTrack-Solver core, modelled in Dafny

CameraTrack-Solver turns a phone's sensor recording, called a *track file*,
into a camera track for a 3-D package, called a *chan file*. The model covers
the pipeline through the solvers:

1. **Parsing.** The parser reads the track type code from the first line. Each
   later tab-separated line becomes a `SensorEvent`, held in a list sorted by
   timestamp.
2. **Solving.** A solver folds the events, one at a time, into a *solver
   timeline*: `SolverFrame`s keyed by their time since the first event. There
   are three solvers:
   - the library GAM solver (accelerometer, gyroscope and magnetometer);
   - the library RL solver (linear acceleration and rotation vector);
   - the command-line GAM solver.
3. **Resampling.** The resampler walks a grid of frame times. At each grid
   time it takes the frame stored there or the first frame within half a
   frame after it, and emits a numbered `ChanFrame`. A grid time with no frame
   fails the whole solve.
4. **Output.** The command-line `ChanFile` keeps the chan frames in frame
   order and renders them as text lines.

Both variants of the program are modelled: the library (`CameraTrack-Solver`)
and the command-line copy (`CmdCameraTrackSolver`), with their differences.

Modelling choices:
- **Classes.** Each solver, each parser and the chan file is a `class` whose
  methods update fields as the C# does. Every such method is proved against a
  pure specification function of the old state. The properties the source
  promises are lemmas about those functions.
- **Numbers.** .NET `double` is `real`. `ulong` subtraction and
  multiplication wrap modulo 2^64 explicitly (`Numeric.SubU64`,
  `Numeric.MulU64`). `Convert.ToUInt64(double)` rounds half to even and fails
  on overflow (`Numeric.ToU64`). The C# `%` on doubles truncates
  (`Numeric.FMod`).
- **Parameters.** Trigonometry, square roots, number parsing and
  `double.ToString` are function-valued parameters:
  - `GamSolvers.Attitude`: the tilt-compensated attitude;
  - `RlSolvers.Orientation`: the rotation-vector Euler angles;
  - `Text.NumberSyntax`: number parsing;
  - a `real -> string` formatter.
  Lemmas hold for every such parameter.
- **Exceptions.** Exceptions are `Error` values. The model raises them exactly
  where the C# would throw, on the inputs the contracts admit (see
  "## Left out"), including the `NullReferenceException`s and the
  duplicate-key `ArgumentException`s the code runs into.

Behaviour of the code that the model reproduces:
- The library GAM solver never assigns `accelMagnetPosition`. Every frame it
  tries to store therefore dereferences null, and `Solve` can never succeed
  (`GamSolvers.SolveAlwaysFails`).
- The library RL solver's rotation-vector handler stores the rotation but
  pushes no frame. Its push is commented out.
- The linear-acceleration step squares the `ulong` nanosecond gap in 64-bit
  arithmetic, so gaps of 2^32 ns or more wrap.
- The library parser's comparer never reports equality, so events with equal
  timestamps are all kept, the later one first. The command-line parser uses a
  `SortedSet` with `SensorEvent.Comparer`, which reports equal timestamps as
  equal, so only the first event of each timestamp is kept.
- `SortedSet.Add` on chan frames keeps the first frame of a number, not the
  last.
- The command-line resampler's grid times are rounded multiples of
  1e9 / fps, and its window ends at the rounded t + nsPerFrame / 2. The
  library instead steps by the floored frame length and ends its window at
  t + round(nsPerFrame / 2). Neither emits a frame at the last timestamp
  itself: the loop runs while t < last.
- The command-line GAM solver drops the first half second of events. Its
  frames all share the solver's one rotation array, so every chan frame
  carries the rotation of the last accelerometer event
  (`CmdGamSolvers.EveryFrameShowsLastRotation`). Their positions are all zero.
- The command-line chan line carries an eighth field, `0.0`.
- The command-line `WriteTrackFile` creates an exception for an unsolved track
  but never throws it.

## Model

| member | source | states |
|---|---|---|
| SensorEvents.ParseAt | CameraTrack-Solver/Frames/SensorEvent.cs:24-30 | reading field i fails with IndexOutOfRange when the line has too few fields and with Format when the parser rejects it; otherwise it yields exactly the parsed value |
| SensorEvents.FromFields | CameraTrack-Solver/Frames/SensorEvent.cs:24-32 | decoding succeeds iff there are at least five fields and each parses (timestamp as ulong, type as int, three doubles); the event carries exactly those values; failures are IndexOutOfRange or Format only |
| SensorEvents.ExtraFieldsIgnored | CameraTrack-Solver/Frames/SensorEvent.cs:24-31 | fields after the fifth never change the decoded event |
| SensorEvents.LineFields | CameraTrack-Solver/Frames/SensorEvent.cs:22 | after trimming, turning commas into dots and splitting at tabs, no field holds a comma or a tab |
| SensorEvents.FromTrackLine | CameraTrack-Solver/Frames/SensorEvent.cs:20-33 | a line decodes iff its trimmed, comma-to-dot, tab-split fields are decodable; errors are IndexOutOfRange or Format |
| SensorEvents.FromTrackLineOfJoin | CameraTrack-Solver/Frames/SensorEvent.cs:22 | joining plain fields with tabs and reading the line back gives back exactly those fields and their decoding (round trip) |
| SensorEvents.CompareTo | CameraTrack-Solver/Frames/SensorEvent.cs:44-52 | against null the result is 1; otherwise it is negative, zero or positive exactly as the timestamps compare |
| SensorEvents.Compare | CameraTrack-Solver/Frames/SensorEvent.cs:109-112 | the Comparer orders events by timestamp only and agrees with CompareTo |
| SensorEvents.TimestampCompare | CameraTrack-Solver/Frames/SensorEvent.cs:117-127 | the TimestampComparer never returns 0: -1 iff the first timestamp is smaller, 1 otherwise (equal keys included) |
| SensorEvents.CompareIsTimestampOnly | CameraTrack-Solver/Frames/SensorEvent.cs:107-128 | events with equal timestamps are indistinguishable to both comparers, from either side |
| SolverFrames.Snapshot | CameraTrack-Solver/Frames/SolverFrame.cs:12-20 | a null array gives no vector; otherwise the vector is the array's contents |
| SolverFrames.MakeSolverFrame | CameraTrack-Solver/Frames/SolverFrame.cs:12-20 | a frame is built iff both arrays exist and then holds the timestamp and both vectors; a missing array is a NullReference |
| SolverFrames.NewSolverFrame | CameraTrack-Solver/Frames/SolverFrame.cs:12-20 | the constructor over arrays succeeds iff neither is null and copies their contents; otherwise NullReference |
| SolverFrames.CompareTo | CameraTrack-Solver/Frames/SolverFrame.cs:22-30 | 1 against null, otherwise the sign of the timestamp comparison |
| SolverFrames.Compare | CameraTrack-Solver/Frames/SolverFrame.cs:58-61 | the Comparer orders frames by timestamp and agrees with CompareTo |
| ChanFrames.FromSolverFrame | CameraTrack-Solver/Frames/ChanFrame.cs:22-30 | a chan frame takes the given number and the solver frame's position and rotation |
| ChanFrames.CompareTo | CameraTrack-Solver/Frames/ChanFrame.cs:32-40 | 1 against null, otherwise the sign of the frame-number comparison |
| ChanFrames.Compare | CameraTrack-Solver/Frames/ChanFrame.cs:57-60 | the Comparer orders chan frames by number and agrees with CompareTo |
| ChanFrames.ToStringFields | CameraTrack-Solver/Frames/ChanFrame.cs:42-45 | splitting the rendered line at tabs gives back its seven fields, the first being the decimal frame number (round trip) |
| CmdFrames.CmdLineFields | CmdCameraTrackSolver/SensorEvent.cs:27 | the command-line decoder splits the trimmed line at tabs only: no field holds a tab |
| CmdFrames.CmdFromTrackLine | CmdCameraTrackSolver/SensorEvent.cs:25-34 | a line decodes iff its trimmed tab-split fields are decodable; errors are IndexOutOfRange or Format |
| CmdFrames.DecodersAgreeWithoutCommas | CmdCameraTrackSolver/SensorEvent.cs:27 | on a line without commas the command-line and library decoders agree |
| CmdFrames.CmdFromTrackLineOfJoin | CmdCameraTrackSolver/SensorEvent.cs:25-34 | writing fields with tabs and reading them back with the command-line decoder gives back the fields and their decoding |
| CmdFrames.CmdToStringExtendsLibrary | CmdCameraTrackSolver/ChanFrame.cs:34-37 | the command-line chan line is the library line followed by a tab and `0.0` |
| CmdFrames.CmdToStringFields | CmdCameraTrackSolver/ChanFrame.cs:34-37 | splitting the command-line chan line at tabs gives eight fields, the seven library ones and `0.0` |
| Text.TrimStart | CameraTrack-Solver/Frames/SensorEvent.cs:22 | the result is a suffix of the input without leading white space, and only white space was dropped |
| Text.TrimEnd | CameraTrack-Solver/Frames/SensorEvent.cs:22 | the result is a prefix of the input without trailing white space, and only white space was dropped |
| Text.Trim | CameraTrack-Solver/Parsers/TrackFileParser.cs:27 | the result starts and ends with non-white-space, and a string already like that is unchanged |
| Text.ReplaceChar | CameraTrack-Solver/Frames/SensorEvent.cs:22 | same length; every occurrence of the old character becomes the new one and every other character is kept |
| Text.Split | CameraTrack-Solver/Frames/SensorEvent.cs:22 | splitting yields at least one piece, and no piece holds the separator |
| Text.JoinOfSplit | CameraTrack-Solver/Frames/SensorEvent.cs:22 | joining the pieces of a split with the separator restores the string |
| Text.SplitOfJoin | CameraTrack-Solver/Frames/SensorEvent.cs:22 | splitting a join of separator-free pieces gives back the pieces |
| Text.NatToString | CameraTrack-Solver/Frames/ChanFrame.cs:44 | uint.ToString yields decimal digits whose value is the number, with no leading zero ("0" exactly for zero) |
| Numeric.SubU64 | CameraTrack-Solver/Solvers/GAMCameraTrackSolver.cs:58 | ulong subtraction: the difference when it is non-negative, otherwise the difference plus 2^64 |
| Numeric.MulU64 | CameraTrack-Solver/Solvers/RLCameraTrackSolver.cs:76 | ulong multiplication: the product when it fits, and always congruent to it modulo 2^64 |
| Numeric.SquareU64 | CameraTrack-Solver/Solvers/RLCameraTrackSolver.cs:76 | squaring a ulong is exact below 2^32, gives 0 at 2^32 and loses magnitude from 2^32 on |
| Numeric.RoundHalfEven | CameraTrack-Solver/Solvers/AbstractTrackSolver.cs:130 | the nearest integer, ties going to the even one |
| Numeric.ToU64 | CameraTrack-Solver/Solvers/AbstractTrackSolver.cs:130-131 | Convert.ToUInt64 fails exactly below -0.5 or from 2^64 - 0.5 on; otherwise the value is within 0.5 of its argument, and a tie goes to the even neighbour |
| Numeric.Truncate | CameraTrack-Solver/Solvers/RLCameraTrackSolver.cs:107 | truncation toward zero: the integer part on each side of zero |
| Numeric.FMod | CameraTrack-Solver/Solvers/RLCameraTrackSolver.cs:107 | the C# remainder of doubles takes the dividend's sign, is smaller in size than the divisor and leaves a smaller non-negative dividend unchanged |
| Numeric.CounterSucc | CameraTrack-Solver/Solvers/AbstractTrackSolver.cs:155-162 | `frameCounter + 1` after i increments of a `uint` counter from 0: i + 1 below 2^32, and 0 at i = 2^32 - 1 |
| Numeric.CounterSuccWraps | CameraTrack-Solver/Solvers/AbstractTrackSolver.cs:155-162 | that number is always (i + 1) mod 2^32 |
| Numeric.CompareInt | CameraTrack-Solver/Frames/SensorEvent.cs:44-52 | ulong.CompareTo / uint.CompareTo: -1, 0 or 1 exactly as the operands compare |
| TrackFileParsers.InsertionPoint | CameraTrack-Solver/Parsers/TrackFileParser.cs:32 | with the never-equal comparer, SortedList.Add places a key before the first stored key at least as large |
| TrackFileParsers.InsertBeforeFacts | CameraTrack-Solver/Parsers/TrackFileParser.cs:32 | adding an event adds exactly it (multiset), grows the list by one and keeps a sorted list sorted |
| TrackFileParsers.InsertBeforeSorted | CameraTrack-Solver/Parsers/TrackFileParser.cs:19 | the TimestampComparer list stays sorted by timestamp after an insertion |
| TrackFileParsers.IngestSorted | CameraTrack-Solver/Parsers/TrackFileParser.cs:29-33 | the read loop keeps the event list sorted by timestamp, whatever the lines |
| TrackFileParsers.IngestKeepsEveryLine | CameraTrack-Solver/Parsers/TrackFileParser.cs:29-33 | when every line decodes, nothing fails and the list gains exactly the decoded events, duplicates of a timestamp included |
| TrackFileParsers.ParseKeepsEveryEvent | CameraTrack-Solver/Parsers/TrackFileParser.cs:22-38 | Parse keeps the events sorted and, when it succeeds, holds exactly one event per data line |
| TrackFileParsers.TrackFileParser.constructor | CameraTrack-Solver/Parsers/TrackFileParser.cs:16-20 | a new parser holds the file, no events, is not parsed and has the default type |
| TrackFileParsers.TrackFileParser.Parse | CameraTrack-Solver/Parsers/TrackFileParser.cs:22-38 | the type, events and outcome are those of the read specification, and the parser is marked parsed iff it succeeded |
| Ingestion.IngestErrorSticks | CameraTrack-Solver/Parsers/TrackFileParser.cs:29-33 | once a line has thrown, later lines change nothing |
| Ingestion.IngestSucceedsOnGoodLines | CameraTrack-Solver/Parsers/TrackFileParser.cs:29-33 | lines that all decode never make the loop fail |
| Ingestion.IngestStopsAtFirstBadLine | CameraTrack-Solver/Parsers/TrackFileParser.cs:29-33 | the first malformed line's error is the outcome, and the events read are exactly those of the lines before it |
| Ingestion.IngestFailsIffBadLine | CameraTrack-Solver/Parsers/TrackFileParser.cs:29-33 | the loop fails iff some line fails to decode |
| Ingestion.DecodeAll | CameraTrack-Solver/Parsers/TrackFileParser.cs:31 | the events of lines that all decode, one per line and in file order |
| Ingestion.ParseSpec | CameraTrack-Solver/Parsers/TrackFileParser.cs:22-38 | an empty file is a NullReference and a bad type line a Format error, both leaving the state alone; a readable type line sets the type; success returns true |
| Ingestion.ParseSucceedsIff | CameraTrack-Solver/Parsers/TrackFileParser.cs:22-38 | Parse succeeds iff the type line parses and every data line decodes, and the first bad data line's error is the result |
| CmdTrackFileParsers.CodesDiffer | CmdCameraTrackSolver/TrackFileParser.cs:71-76 | the command-line type codes differ from the library's: GAM_DEFAULT is the library's RL code, GAM_NATIVE is GL, RL is the library's GAM_DEFAULT |
| CmdTrackFileParsers.AddUniqueFacts | CmdCameraTrackSolver/TrackFileParser.cs:31 | SortedSet.Add keeps the set strictly sorted; a present timestamp changes nothing and a new one adds exactly the event |
| CmdTrackFileParsers.AddUniqueAbsent | CmdCameraTrackSolver/TrackFileParser.cs:20 | a new timestamp is inserted in order, adding exactly that event and its timestamp |
| CmdTrackFileParsers.AddUniqueMembers | CmdCameraTrackSolver/TrackFileParser.cs:31 | Add loses nothing and brings in nothing but the event, which is in the set when its timestamp was new |
| CmdTrackFileParsers.IngestKeepsFirstOfEachTimestamp | CmdCameraTrackSolver/TrackFileParser.cs:29-32 | when every line decodes the set is strictly sorted, covers every line's timestamp, keeps what it held and stores the first event of each new timestamp |
| CmdTrackFileParsers.IngestStrict | CmdCameraTrackSolver/TrackFileParser.cs:29-32 | the read loop keeps the set in strict timestamp order, whatever the lines |
| CmdTrackFileParsers.ParseKeepsFirstOfEachTimestamp | CmdCameraTrackSolver/TrackFileParser.cs:23-37 | Parse keeps a strictly sorted set, and on success it holds the first event of each timestamp of the file |
| CmdTrackFileParsers.CmdTrackFileParser.constructor | CmdCameraTrackSolver/TrackFileParser.cs:17-21 | a new parser holds the file, no events, is not parsed and has the default type |
| CmdTrackFileParsers.CmdTrackFileParser.Parse | CmdCameraTrackSolver/TrackFileParser.cs:23-37 | the type, events and outcome are those of the read specification with first-wins insertion; parsed iff it succeeded |
| TrackSolvers.Timeline.LastTimestamp | CameraTrack-Solver/Solvers/AbstractTrackSolver.cs:133 | Last() is the frame whose key was enumerated last, and it is stored |
| TrackSolvers.Put | CameraTrack-Solver/Solvers/GAMCameraTrackSolver.cs:79-86 | Remove then Add maps the key to the new frame, keeps a known key's place and appends a new key |
| TrackSolvers.PutInOrder | CameraTrack-Solver/Solvers/GAMCameraTrackSolver.cs:79-86 | when frames arrive at non-decreasing times the keys stay increasing and Last() is the largest key |
| TrackSolvers.FirstKey | CameraTrack-Solver/Solvers/AbstractTrackSolver.cs:142-150 | the forward scan finds the smallest stored key in [lo, hi), or reports that the window has none |
| TrackSolvers.ResolveFacts | CameraTrack-Solver/Solvers/AbstractTrackSolver.cs:137-157 | an exact hit is used as it is; otherwise the frame with the smallest key in (t, t + range) is used; nothing is found iff t and that window are empty |
| TrackSolvers.NarrowRangeNeedsExactHit | CameraTrack-Solver/Solvers/AbstractTrackSolver.cs:130-142 | with a window of at most one nanosecond only an exact hit resolves a grid time |
| TrackSolvers.FindFrame | CameraTrack-Solver/Solvers/AbstractTrackSolver.cs:137-151 | the lookup loop returns exactly the resolved frame |
| TrackSolvers.Resample | CameraTrack-Solver/Solvers/AbstractTrackSolver.cs:133 | an empty timeline fails on Last() with an empty-collection error and emits nothing |
| TrackSolvers.RunShape | CameraTrack-Solver/Solvers/AbstractTrackSolver.cs:135-165 | the loop emits frames for consecutive grid times and either passes the last timestamp or stops with UnresolvedFrame naming the `uint` counter plus one |
| TrackSolvers.ResampleFacts | CameraTrack-Solver/Solvers/AbstractTrackSolver.cs:124-166 | chan frame j is numbered `frameCounter + 1` as the `uint` counter computes it (j + 1, and 0 at j = 2^32 - 1) and copies the frame stored at grid time j times the step or the first one in the window after it, below the last timestamp; success passes the last timestamp; failure names the counter plus one at a grid time below the last timestamp |
| TrackSolvers.NumbersFitUint | CameraTrack-Solver/Solvers/AbstractTrackSolver.cs:124-166 | while the last timestamp is at most 2^32 - 1 steps, the counter never wraps: frame j is numbered j + 1 and a failure names the frame count plus one |
| TrackSolvers.OnlyKeyZeroGivesNoFrames | CameraTrack-Solver/Solvers/AbstractTrackSolver.cs:133-135 | a timeline whose only frame is at time 0 yields no chan frame and no error |
| TrackSolvers.StandingGrid | CameraTrack-Solver/Solvers/AbstractTrackSolver.cs:133-155 | with a step of 0 on an input where the loop ends, a last frame at 0 gives no frames and no error, and otherwise frame 1 is unsolved |
| TrackSolvers.SolveFromSolverData | CameraTrack-Solver/Solvers/AbstractTrackSolver.cs:124-166 | the resampling loop, with its wrapping `uint` counter, computes exactly the resampling specification |
| TrackSolvers.GridParameters | CameraTrack-Solver/Solvers/AbstractTrackSolver.cs:130-131 | the window is round(nsPerFrame / 2) and the step the floored frame length; it fails with Overflow iff either conversion overflows |
| TrackSolvers.FrameGridFacts | CameraTrack-Solver/Solvers/AbstractTrackSolver.cs:130-131 | a rate of 0 or below has no grid; a rate up to 1e9 steps by at least 1 ns; above 1e9 the step and the window are both 0 |
| TrackSolvers.AboveGigaFps | CameraTrack-Solver/Solvers/AbstractTrackSolver.cs:124-166 | above 1e9 fps the loop ends iff the last frame is at 0 or no frame is at 0; it then emits nothing, and fails on frame 1 unless the last frame is at 0 |
| TrackSolvers.SolveFrames | CameraTrack-Solver/Solvers/AbstractTrackSolver.cs:124-133 | a grid that overflows fails with Overflow and an empty timeline fails with an empty-collection error, both before any frame |
| TrackSolvers.ResampleShowsTimeline | CameraTrack-Solver/Solvers/AbstractTrackSolver.cs:159 | every chan frame is numbered by the wrapping counter at its position and copies a frame of the timeline |
| TrackSolvers.SolveFramesFacts | CameraTrack-Solver/Solvers/AbstractTrackSolver.cs:124-166 | every chan frame comes from the timeline, numbered by the wrapping counter in grid order, and the only errors are Overflow, empty collection and UnresolvedFrame of the counter plus one |
| TrackSolvers.OpenTrackSpec | CameraTrack-Solver/Solvers/AbstractTrackSolver.cs:38-55 | construction fails with the parse error, then with IncompatibleTrackType, and succeeds iff the track parses, has a supported type and holds events; the first timestamp is the first event's |
| TrackSolvers.OpenTrack | CameraTrack-Solver/Solvers/AbstractTrackSolver.cs:38-55 | a parsed parser is not parsed again; an unparsed one is left holding the type, events and parsed flag the parse specification gives; the result (value and error) is OpenTrackSpec of the parse result and of what the parser then holds, so a parse error propagates, an unsupported type gives IncompatibleTrackType, an empty track an empty-collection error, and success returns the events and the first timestamp |
| GamSolvers.Remap | CameraTrack-Solver/Solvers/GAMCameraTrackSolver.cs:181-186 | the axis remap is (-y, x, -z) |
| GamSolvers.ParallelFieldIsWeak | CameraTrack-Solver/Solvers/GAMCameraTrackSolver.cs:188-196 | an accelerometer reading parallel to the magnetic field is always rejected as too weak a heading |
| GamSolvers.PushOnlyTimeline | CameraTrack-Solver/Solvers/GAMCameraTrackSolver.cs:56-87 | PushSolverFrame changes only the timeline |
| GamSolvers.PushFacts | CameraTrack-Solver/Solvers/GAMCameraTrackSolver.cs:56-87 | at a known time an accelerometer push replaces the position and a gyroscope push the rotation; other events change nothing; at a new time the frame needs the position array (else NullReference) and its key is appended; no other frame changes |
| GamSolvers.AccelFacts | CameraTrack-Solver/Solvers/GAMCameraTrackSolver.cs:89-290 | before any magnetometer reading nothing happens; afterwards the rotation array exists; a weak field changes nothing else; a strong one sets the rotation to the attitude of the remapped readings, even when the push then fails; the gyroscope fields, the position and the last magnetometer reading never change, and the only exception is the push's NullReference, which leaves the timeline as it was |
| GamSolvers.GyroDelta | CameraTrack-Solver/Solvers/GAMCameraTrackSolver.cs:306 | the step is the nanosecond gap in seconds, converted to degrees |
| GamSolvers.GyroRates | CameraTrack-Solver/Solvers/GAMCameraTrackSolver.cs:308-310 | the integrated rates are (x, z, -y) |
| GamSolvers.GyroIntegrates | CameraTrack-Solver/Solvers/GAMCameraTrackSolver.cs:300-312 | with a rotation and a previous gyroscope time, the gyroscope rotation, seeded from the accelerometer rotation the first time, advances by rate times gap, and the time is recorded |
| GamSolvers.GyroRepeatedTimestamp | CameraTrack-Solver/Solvers/GAMCameraTrackSolver.cs:306-310 | a repeated gyroscope timestamp leaves the rotation where it was |
| GamSolvers.GyroWaits | CameraTrack-Solver/Solvers/GAMCameraTrackSolver.cs:294-298 | without a rotation or a previous gyroscope time only the time is recorded |
| GamSolvers.HandleStaysFrameless | CameraTrack-Solver/Solvers/GAMCameraTrackSolver.cs:83 | with the position array null and no frame stored, no handler stores a frame, and the only error is a NullReference |
| GamSolvers.NoFrameEverStored | CameraTrack-Solver/Solvers/GAMCameraTrackSolver.cs:17 | from the initial state no event sequence ever stores a frame; the only possible error is a NullReference |
| GamSolvers.ConsumeErrorSticks | CameraTrack-Solver/Solvers/AbstractTrackSolver.cs:116-122 | once a handler has thrown, later events change nothing |
| GamSolvers.SolveSpec | CameraTrack-Solver/Solvers/AbstractTrackSolver.cs:108-114 | Solve consumes every event; an exception while consuming ends it before any frame is emitted |
| GamSolvers.SolveAlwaysFails | CameraTrack-Solver/Solvers/AbstractTrackSolver.cs:108-114 | from a fresh library GAM solver, Solve always fails (NullReference, Overflow or empty collection) and emits nothing |
| GamSolvers.GamSolver.constructor | CameraTrack-Solver/Solvers/GAMCameraTrackSolver.cs:25-28 | a new solver holds the track, the rate and the first timestamp, with a null position array and the initial state |
| GamSolvers.GamSolver.Create | CameraTrack-Solver/Solvers/GAMCameraTrackSolver.cs:25-36 | a solver is built only for a GAM track with events, over exactly the parser's events |
| GamSolvers.GamSolver.PushSolverFrame | CameraTrack-Solver/Solvers/GAMCameraTrackSolver.cs:56-87 | the method's new state and error are those of the push specification |
| GamSolvers.GamSolver.HandleAccelEvent | CameraTrack-Solver/Solvers/GAMCameraTrackSolver.cs:89-290 | the new state is that of the accelerometer specification; the rotation array is kept or fresh |
| GamSolvers.GamSolver.AdvanceRotation | CameraTrack-Solver/Solvers/GAMCameraTrackSolver.cs:308-310 | the gyroscope array is advanced in place by rate times step |
| GamSolvers.GamSolver.HandleGyroEvent | CameraTrack-Solver/Solvers/GAMCameraTrackSolver.cs:292-315 | the new state is that of the gyroscope specification |
| GamSolvers.GamSolver.HandleSensorEvent | CameraTrack-Solver/Solvers/GAMCameraTrackSolver.cs:38-54 | the dispatch on event type matches the handler specification |
| GamSolvers.GamSolver.ConsumeSensorData | CameraTrack-Solver/Solvers/AbstractTrackSolver.cs:116-122 | the loop over the events computes the fold of the handler, stopping at the first exception |
| GamSolvers.GamSolver.Solve | CameraTrack-Solver/Solvers/AbstractTrackSolver.cs:108-114 | Solve's state, emitted frames and error are those of the solve specification, and the solver is marked solved iff it succeeded |
| GamSolvers.GamSolver.SolveFromSolverData | CameraTrack-Solver/Solvers/AbstractTrackSolver.cs:124-166 | the resampler's frames are appended to the chan frames and nothing else changes |
| RlSolvers.PushFacts | CameraTrack-Solver/Solvers/RLCameraTrackSolver.cs:177-209 | at a new time the frame takes the current position and rotation and its key is appended; at a known time a linear-acceleration push keeps the stored rotation; nothing else changes |
| RlSolvers.CameraAxes | CameraTrack-Solver/Solvers/RLCameraTrackSolver.cs:78-91 | the position moves along (-y, z, -x), and the rotation vector is read along the same axes |
| RlSolvers.SquaredDelta | CameraTrack-Solver/Solvers/RLCameraTrackSolver.cs:75-76 | the squared gap is exact below 2^32 ns, zero at 2^32 ns and wrapped (smaller) beyond |
| RlSolvers.LinAccelMoves | CameraTrack-Solver/Solvers/RLCameraTrackSolver.cs:60-85 | after the first event the position advances by the axes times the squared gap times the factor, the time is recorded and the rotation kept |
| RlSolvers.GapOf2To32KeepsPosition | CameraTrack-Solver/Solvers/RLCameraTrackSolver.cs:75-80 | a gap of exactly 2^32 ns wraps to zero and leaves the position unchanged |
| RlSolvers.StoredAnglesFacts | CameraTrack-Solver/Solvers/RLCameraTrackSolver.cs:107-116 | gamma is stored as is, a NaN beta becomes 90, and alpha from [-180, 180] becomes (alpha + 270) mod 360 in [0, 360) |
| RlSolvers.RotVec | CameraTrack-Solver/Solvers/RLCameraTrackSolver.cs:87-116 | a rotation-vector event changes only the stored rotation and pushes no frame |
| RlSolvers.HandleTimeline | CameraTrack-Solver/Solvers/RLCameraTrackSolver.cs:47-58 | only linear acceleration touches the timeline, adding at most the event's relative time at the end |
| RlSolvers.ConsumeKeys | CameraTrack-Solver/Solvers/AbstractTrackSolver.cs:116-122 | every time on the timeline was there before or is some event's relative time |
| RlSolvers.ConsumeInOrder | CameraTrack-Solver/Solvers/AbstractTrackSolver.cs:116-122 | events in timestamp order keep the timeline's keys increasing |
| RlSolvers.LastIsLatest | CameraTrack-Solver/Solvers/AbstractTrackSolver.cs:133 | on an increasing timeline Last() is the largest time |
| RlSolvers.SolveFitsWhenTimesFit | CameraTrack-Solver/Solvers/AbstractTrackSolver.cs:108-166 | with a positive step, Solve's grid stays inside ulong whenever the stored and event times plus one step do |
| RlSolvers.SolveSpec | CameraTrack-Solver/Solvers/AbstractTrackSolver.cs:108-114 | Solve consumes every event before resampling |
| RlSolvers.SolveFrameNumbers | CameraTrack-Solver/Solvers/AbstractTrackSolver.cs:108-166 | every chan frame from Solve is numbered by the wrapping counter at its position and copies a timeline frame; the only errors are Overflow, empty collection and UnresolvedFrame of the counter plus one |
| RlSolvers.RlSolver.constructor | CameraTrack-Solver/Solvers/RLCameraTrackSolver.cs:33-36 | a new solver holds the track, rate, scale and first timestamp, with fresh position and rotation arrays |
| RlSolvers.RlSolver.Create | CameraTrack-Solver/Solvers/RLCameraTrackSolver.cs:33-45 | a solver is built only for an RL track with events, over exactly the parser's events and with the given scale |
| RlSolvers.RlSolver.CreateDefault | CameraTrack-Solver/Solvers/RLCameraTrackSolver.cs:38 | the two-argument constructor builds the same solver with the position scale 100 |
| RlSolvers.RlSolver.SetPositionScaleFactor | CameraTrack-Solver/Solvers/RLCameraTrackSolver.cs:26-30 | setting the scale also sets the accumulated factor to 0.5 times 1e-18 times the scale, and nothing else changes |
| RlSolvers.RlSolver.PushSolverFrame | CameraTrack-Solver/Solvers/RLCameraTrackSolver.cs:177-209 | the method's new timeline is that of the push specification |
| RlSolvers.RlSolver.AdvancePosition | CameraTrack-Solver/Solvers/RLCameraTrackSolver.cs:78-80 | the position array is advanced in place along the axes |
| RlSolvers.RlSolver.HandleLinAccelEvent | CameraTrack-Solver/Solvers/RLCameraTrackSolver.cs:60-85 | the new state is that of the linear-acceleration specification |
| RlSolvers.RlSolver.HandleRotVecEvent | CameraTrack-Solver/Solvers/RLCameraTrackSolver.cs:87-116 | the new state is that of the rotation-vector specification |
| RlSolvers.RlSolver.HandleSensorEvent | CameraTrack-Solver/Solvers/RLCameraTrackSolver.cs:47-58 | the dispatch on event type matches the handler specification |
| RlSolvers.RlSolver.ConsumeSensorData | CameraTrack-Solver/Solvers/AbstractTrackSolver.cs:116-122 | the loop over the events computes the fold of the handler |
| RlSolvers.RlSolver.Solve | CameraTrack-Solver/Solvers/AbstractTrackSolver.cs:108-114 | Solve's state, frames and error are those of the solve specification; solved iff it succeeded |
| RlSolvers.RlSolver.SolveFromSolverData | CameraTrack-Solver/Solvers/AbstractTrackSolver.cs:124-166 | the resampler's frames are appended to the chan frames |
| ChanFiles.FramePosition | CmdCameraTrackSolver/ChanFile.cs:18 | the SortedSet position of a frame number: after every smaller number and before the rest |
| ChanFiles.InsertFacts | CmdCameraTrackSolver/ChanFile.cs:21-24 | Add keeps the frames ordered by number, adds iff the number is new (then exactly that frame) and otherwise changes nothing |
| ChanFiles.InsertNumbers | CmdCameraTrackSolver/ChanFile.cs:21-24 | Add reports true iff the number is new, and the numbers gain exactly it |
| ChanFiles.InsertKeeps | CmdCameraTrackSolver/ChanFile.cs:21-24 | Add loses no frame, and an added frame is present |
| ChanFiles.InsertAllNumbers | CmdCameraTrackSolver/ChanFile.cs:26-32 | AddFrames loses nothing and its numbers are the old ones plus the batch's |
| ChanFiles.InsertAllFirstWins | CmdCameraTrackSolver/ChanFile.cs:26-32 | the first frame of each number new to the file is the one kept |
| ChanFiles.InsertAllSorted | CmdCameraTrackSolver/ChanFile.cs:26-32 | adding frames already in number order to an empty file gives exactly those frames |
| ChanFiles.CmdLineHasNoBreak | CmdCameraTrackSolver/ChanFile.cs:43-47 | with a formatter free of line breaks, a written frame line holds none |
| ChanFiles.Lines | CmdCameraTrackSolver/ChanFile.cs:53-64 | one rendered line per frame, in file order |
| ChanFiles.RenderSnoc | CmdCameraTrackSolver/ChanFile.cs:57-61 | each frame appends its line and a newline to the text |
| ChanFiles.RenderSplits | CmdCameraTrackSolver/ChanFile.cs:53-64 | splitting the rendered file at newlines gives back the frame lines in order, then an empty remainder |
| ChanFiles.ChanFile.constructor | CmdCameraTrackSolver/ChanFile.cs:15-19 | a new chan file holds the path and no frames |
| ChanFiles.ChanFile.AddFrame | CmdCameraTrackSolver/ChanFile.cs:21-24 | the frames and the result are those of the insertion specification |
| ChanFiles.ChanFile.AddFrames | CmdCameraTrackSolver/ChanFile.cs:26-32 | the loop adds every frame of the batch in turn |
| ChanFiles.ChanFile.ToString | CmdCameraTrackSolver/ChanFile.cs:53-64 | the builder loop yields the rendering of the frames, one line each |
| ChanFiles.ChanFile.SetFilepath | CmdCameraTrackSolver/ChanFile.cs:72-75 | the setter changes the path read back by the getter |
| CmdGamSolvers.Settled | CmdCameraTrackSolver/GAMCameraTrackSolver.cs:48-50 | the filter keeps exactly the events more than half a second after the raw first timestamp (with ulong wrap) |
| CmdGamSolvers.SettledSorted | CmdCameraTrackSolver/GAMCameraTrackSolver.cs:50 | the filtered events stay in strict timestamp order |
| CmdGamSolvers.SettledAfterHalfSecond | CmdCameraTrackSolver/GAMCameraTrackSolver.cs:48-50 | on a sorted track the kept events are exactly those more than 0.5 s after the first, which is itself dropped |
| CmdGamSolvers.NsPerFrame | CmdCameraTrackSolver/GAMCameraTrackSolver.cs:54 | the frame length is 1e9 / fps, undefined (infinite) iff fps is 0 |
| CmdGamSolvers.CheckTrack | CmdCameraTrackSolver/GAMCameraTrackSolver.cs:43-55 | only GAM tracks pass (else IncompatibleTrackType); an empty or fully dropped track fails with an empty-collection error; the first timestamp is the first kept event's |
| CmdGamSolvers.OpenCmdTrack | CmdCameraTrackSolver/GAMCameraTrackSolver.cs:36-57 | a parsed parser is not parsed again; an unparsed one is left holding the type, events and parsed flag the command-line parse specification gives, and a parse error is returned as it is; once parsed, the result is the track check of the type and events |
| CmdGamSolvers.BindFrame | CmdCameraTrackSolver/GAMCameraTrackSolver.cs:89 | a frame binds the rotation array only when it exists; otherwise NullReference |
| CmdGamSolvers.SortedList.LastKey | CmdCameraTrackSolver/GAMCameraTrackSolver.cs:110 | Last() of a SortedList is its largest key |
| CmdGamSolvers.Slot | CmdCameraTrackSolver/GAMCameraTrackSolver.cs:89 | a key goes after every smaller key and before the rest |
| CmdGamSolvers.InsertKeySorted | CmdCameraTrackSolver/GAMCameraTrackSolver.cs:89 | inserting a new key keeps the keys increasing |
| CmdGamSolvers.InsertKeyMembers | CmdCameraTrackSolver/GAMCameraTrackSolver.cs:89 | inserting a key adds exactly it |
| CmdGamSolvers.AddValid | CmdCameraTrackSolver/GAMCameraTrackSolver.cs:89 | adding a new key keeps the SortedList well formed |
| CmdGamSolvers.Add | CmdCameraTrackSolver/GAMCameraTrackSolver.cs:89 | SortedList.Add throws for a present key and otherwise maps the key to the frame |
| CmdGamSolvers.AccelRotation | CmdCameraTrackSolver/GAMCameraTrackSolver.cs:150-347 | before any magnetometer reading the array is untouched; afterwards it exists |
| CmdGamSolvers.OnlyAccelStores | CmdCameraTrackSolver/GAMCameraTrackSolver.cs:83-100 | events other than accelerometer ones never fail or touch the frames; a magnetometer event is remembered; other kinds change nothing |
| CmdGamSolvers.AccelErrors | CmdCameraTrackSolver/GAMCameraTrackSolver.cs:87-89 | an accelerometer event before any rotation is a NullReference; otherwise it fails iff its time is taken (DuplicateKey); on success it stores a zero-position frame at its time |
| CmdGamSolvers.AccelRotationFollowsField | CmdCameraTrackSolver/GAMCameraTrackSolver.cs:242-257 | a strong field sets the rotation to the attitude; a weak one keeps it, or zeroes a new array |
| CmdGamSolvers.ConsumeKeys | CmdCameraTrackSolver/GAMCameraTrackSolver.cs:79-101 | the stored times only grow, come from accelerometer events, and on success are exactly those events' times |
| CmdGamSolvers.SortedEventsNeverCollide | CmdCameraTrackSolver/GAMCameraTrackSolver.cs:89 | on the parser's strictly sorted events Add never meets a present key, so the only possible error is the NullReference |
| CmdGamSolvers.IgnoredChangeNothing | CmdCameraTrackSolver/GAMCameraTrackSolver.cs:91-96 | events that are neither accelerometer nor magnetometer change nothing |
| CmdGamSolvers.AccelBeforeMagnetFails | CmdCameraTrackSolver/GAMCameraTrackSolver.cs:150-155 | an accelerometer event before any magnetometer event fails the solve with a NullReference |
| CmdGamSolvers.GridTime | CmdCameraTrackSolver/GAMCameraTrackSolver.cs:145 | grid time 0 is 0; the k-th is within 0.5 of k times the frame length, or absent on overflow |
| CmdGamSolvers.WindowEnd | CmdCameraTrackSolver/GAMCameraTrackSolver.cs:121 | the window ends within 0.5 of t plus half a frame length |
| CmdGamSolvers.Lookup | CmdCameraTrackSolver/GAMCameraTrackSolver.cs:114-133 | an exact hit wins; otherwise the smallest key in (t, window end); none iff the window is empty; an overflowing window end is an Overflow |
| CmdGamSolvers.CmdRunShape | CmdCameraTrackSolver/GAMCameraTrackSolver.cs:112-147 | the loop extends the frames emitted so far, passes the last key or stops with Overflow or UnresolvedFrame of the next number |
| CmdGamSolvers.CmdRunEnds | CmdCameraTrackSolver/GAMCameraTrackSolver.cs:112-147 | the loop ends; it passes the last key or fails with Overflow or UnresolvedFrame of the next number |
| CmdGamSolvers.CmdRunEmits | CmdCameraTrackSolver/GAMCameraTrackSolver.cs:112-147 | each emitted frame copies the frame found at its grid time |
| CmdGamSolvers.EmittedFacts | CmdCameraTrackSolver/GAMCameraTrackSolver.cs:141 | frame j is numbered j + 1, below the last key, carries the solver's rotation and the position of a frame at or just after its grid time |
| CmdGamSolvers.CounterFitsUint | CmdCameraTrackSolver/GAMCameraTrackSolver.cs:105-145 | with fewer than 2^32 grid points below the last key, the uint frame counter and every frame number stay below 2^32, so the counter never wraps |
| CmdGamSolvers.CmdResampleFacts | CmdCameraTrackSolver/GAMCameraTrackSolver.cs:103-148 | an empty list fails on Last(); otherwise the frames follow the grid and the error is Overflow or UnresolvedFrame of the next number |
| CmdGamSolvers.EveryFrameShowsLastRotation | CmdCameraTrackSolver/GAMCameraTrackSolver.cs:141 | every emitted chan frame has a zero position and the rotation array's final contents |
| CmdGamSolvers.ZeroFpsStopsAtOnce | CmdCameraTrackSolver/GAMCameraTrackSolver.cs:145 | at 0 fps, when the last key is above 0, the second grid time overflows: at most frame 1 is emitted, then Overflow |
| CmdGamSolvers.CmdSolveSpec | CmdCameraTrackSolver/GAMCameraTrackSolver.cs:71-77 | Solve consumes every event; an exception ends it; otherwise the resampler runs on the final list and rotation |
| CmdGamSolvers.FindFrame | CmdCameraTrackSolver/GAMCameraTrackSolver.cs:114-133 | the lookup loop returns exactly the specified key or error |
| CmdGamSolvers.CmdGamSolver.constructor | CmdCameraTrackSolver/GAMCameraTrackSolver.cs:50-56 | a new solver holds the kept events, the rate, the frame length and the first timestamp, in the initial state |
| CmdGamSolvers.CmdGamSolver.Create | CmdCameraTrackSolver/GAMCameraTrackSolver.cs:36-57 | a solver is built only for a GAM track that keeps some event after the first half second, over exactly the kept events |
| CmdGamSolvers.CmdGamSolver.HandleAccelEvent | CmdCameraTrackSolver/GAMCameraTrackSolver.cs:150-350 | only the rotation array changes, as specified; it is kept or freshly allocated from null |
| CmdGamSolvers.CmdGamSolver.ConsumeSensorEvent | CmdCameraTrackSolver/GAMCameraTrackSolver.cs:85-97 | one loop turn matches the handler specification |
| CmdGamSolvers.CmdGamSolver.ConsumeSensorData | CmdCameraTrackSolver/GAMCameraTrackSolver.cs:79-101 | the loop computes the fold of the handler, stopping at the first exception |
| CmdGamSolvers.CmdGamSolver.SolveFromSolverData | CmdCameraTrackSolver/GAMCameraTrackSolver.cs:103-148 | the resampler's frames are the specified ones and are added to the chan-frame set |
| CmdGamSolvers.CmdGamSolver.WalkGrid | CmdCameraTrackSolver/GAMCameraTrackSolver.cs:112-147 | the grid loop emits exactly the specified frames and adds them to the set in order |
| CmdGamSolvers.CmdGamSolver.AddChanFrame | CmdCameraTrackSolver/GAMCameraTrackSolver.cs:141 | SortedSet.Add keeps the set ordered by number |
| CmdGamSolvers.CmdGamSolver.Solve | CmdCameraTrackSolver/GAMCameraTrackSolver.cs:71-77 | Solve's state, added frames and error are those of the solve specification; solved iff it succeeded |
| CmdGamSolvers.CmdGamSolver.WriteTrackFile | CmdCameraTrackSolver/GAMCameraTrackSolver.cs:59-68 | a chan file for the path receives every chan frame, solved or not |

## Left out

- Writing files: `ChanFile.WriteFile`, the library `WriteChanFile` and `WriteSensorDataFiles`, and the file reads. The model stops at the text to be written; a parser is given the file's lines.
- Floating point: doubles are exact reals. NaN is modelled only where the code tests for it (the rotation-vector beta). Rounding in sums, products and the degree conversion is not modelled.
- Trigonometry and square roots: the tilt-compensated attitude and the rotation-vector Euler angles are parameters. The model shows where and on what they are applied, not what they compute.
- Number parsing and `double.ToString`: these are parameters; their culture rules are not modelled.
- Vectors: every vector has three components. Arrays of other lengths are not modelled.
- TrackSolvers.Resample: the grid time is a `ulong`. The model requires the time one step past the last frame to stay within 2^64, so `currentTimestamp += nsPerFrame` never wraps; a wrapped grid time would restart the walk near 0 with the counter still running, and that is not modelled. With a step of 0 (above 1e9 fps) the model excludes only the input on which the C# loop never ends: a frame stored at time 0 with a later last frame (`TrackSolvers.GridAdvances`). The step-0 outcomes that do end are proved (`TrackSolvers.StandingGrid`, `TrackSolvers.AboveGigaFps`). The `uint` frame counter wraps as in the C# (`Numeric.CounterSucc`).
- TrackSolvers.SolveFrames: requires `GridFits`, the `Resample` condition above on the rate's grid.
- TrackSolvers.SolveFramesFacts: requires `GridFits`; see the `TrackSolvers.Resample` line.
- TrackSolvers.ResampleFacts: requires the `Resample` condition; see the `TrackSolvers.Resample` line.
- TrackSolvers.ResampleShowsTimeline: requires the `Resample` condition; see the `TrackSolvers.Resample` line.
- CmdGamSolvers.CmdRun: the C# frame counter is a `uint`; the model counts with an unbounded integer. When the loop resolves 2^32 grid points below the last stored time, the C# numbers the last of them 0, wraps the counter to 0, restarts the grid at time 0 and loops forever, re-adding frames the `SortedSet` rejects. The model instead numbers frames past 2^32 and ends. With fewer than 2^32 grid points below the last key the two agree (`CmdGamSolvers.CounterFitsUint`).
- CmdGamSolvers.CmdRunShape: proves that the loop ends, which the C# loop does not once its `uint` counter wraps; see the `CmdRun` line.
- CmdGamSolvers.CmdRunEnds: proves termination, which the C# lacks once 2^32 grid points below the last key resolve; see the `CmdRun` line.
- CmdGamSolvers.EmittedFacts: numbers frame j as j + 1 with no 32-bit wrap, where the C# `frameCounter + 1` wraps to 0 at j = 2^32 - 1; see the `CmdRun` line.
- CmdGamSolvers.CmdResampleFacts: its end conditions leave out the endless loop that the counter wrap causes; see the `CmdRun` line.
- CmdGamSolvers.CmdGamSolver.WalkGrid: its counter is a `nat` bounded by `GridBound`, so it ends where the C# `uint` loop wraps and never ends; see the `CmdRun` line.
- GamSolvers.SolveSpec: requires `SolveFits`, which is `GridFits` on the timeline the events leave; see the `TrackSolvers.Resample` line.
- GamSolvers.GamSolver.Solve: requires `SolveFits`; see the `TrackSolvers.Resample` line.
- RlSolvers.SolveSpec: requires `SolveFits`, which is `GridFits` on the timeline the events leave; see the `TrackSolvers.Resample` line.
- RlSolvers.SolveFrameNumbers: requires `SolveFits`; see the `TrackSolvers.Resample` line.
- RlSolvers.RlSolver.Solve: requires `SolveFits`; see the `TrackSolvers.Resample` line.
- The fusion step (`HandleFusion` in both GAM solvers): it is commented out at every call site and is never run.
- The command-line GAM solver's gyroscope handler: it is commented out and never run, so the gyroscope fields are not modelled.
- The command-line RL solver: it is a stub with no solving logic.
- The library RL solver's rotation-matrix helpers: they are never called.
- The library `Files/ChanFile.cs`: it serves only as context for the command-line `ChanFile`.
- The order of the library solvers' chan-frame `HashSet`: a `HashSet` has no defined order, so its frames are kept as a sequence in insertion order.
- Lazy `Where` re-evaluation: the command-line solver's event filter is evaluated once, which matches every later enumeration because the parser's set no longer changes.
- The `DenseOfArray` null case: MathNet is not part of this model. Binding a null rotation array is modelled as the `NullReferenceException` it leads to.
- The library `WriteChanFile` for an unsolved track: it creates an exception without throwing it, so no error is produced.
