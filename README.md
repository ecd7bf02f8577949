# WPF CNC Simulator — G-code interpreter and internal CAM engine in Dafny

This project models two service components of the WPF CNC Simulator.

**The G-code interpreter (`InterpretadorGCode`).**
- The per-line parser `ParsearLinea` / `ExtraerParametro` works as follows:
  - it trims and upper-cases the line;
  - blank lines and whole-line comments give no command;
  - a trailing `;` comment is cut off;
  - a leading `G`/`M` token gives the command;
  - each of X, Y, Z and F is read from its first occurrence followed by a number.
- The whole-program parser `ParsearCodigoCompleto` numbers the commands by their line.
- The motion state machine `EjecutarComando` / `ProcesarMovimiento` / `Resetear` handles the codes G0, G1, G28, G90 and G91. Its state is the position, the absolute or relative mode and the feed rate.
- Modules: `GCodeParsing` (gcode_parsing.dfy) and `GCodeInterpreter` (gcode_interpreter.dfy). The interpreter is a class whose fields the methods update. Its methods are proved against the step function `Step`.

**The internal CAM engine of `SlicerService.cs`.**
- `StlLoader` (`StlLoading`, stl_loading.dfy):
  - detects the binary form;
  - reads 50-byte binary records;
  - collects ASCII `vertex` lines three at a time.
- `Mesh` queries (`CamGeometry`, cam_geometry.dfy):
  - the bounding box;
  - the cut by a horizontal plane;
  - the sorted and paired crossings of a horizontal or vertical scanline.
- `Geometry.ChainSegmentsToPolylines` (`CamChaining`, cam_chaining.dfy) chains the cut segments into polylines. It marks used segments in a `bool` array, as the source does.
- `CamEngine.GenerateGcode` (`CamEmitter`, cam_emitter.dfy) writes the fixed preamble, one block per toolpath and the postamble. `Program` specifies the program line by line, and `Text` gives the string that `AppendLine` builds from those lines.

`DotNetText` (text.dfy) gives the .NET string operations these components rely on: `Trim`, upper-casing, `IndexOf`, `Split` with `RemoveEmptyEntries`, `StringReader.ReadLine`, and `int` formatting. `Options` (options.dfy) holds the `Option` type used for null references and nullable values.

`double` becomes `real`. Several conversions become function parameters:
- `double.Parse` of a numeral;
- `BitConverter.ToSingle`;
- the `:F3` / `:F1` / default number formatting;
- the clock reading.

The square root in a move's duration is kept symbolic (`Travel(displacement, feed)`).

Three details of the code that the model keeps as written:
- **Cut lines per toolpath.** `Block` writes one `G1` per point, the first included, after the plunge (SlicerService.cs:621-625).
- **STL size test.** `IsBinary` computes `84 + 50 * count` in 32 bits (SlicerService.cs:893); see Findings.
- **Vertex accumulation.** `LoadAscii` treats a vertex at the origin as an empty slot (SlicerService.cs:951-956); see Findings.

## Model

| member | source | states |
|---|---|---|
| DotNetText.Trim | WPF_CNC_Simulator/Services/InterpretadorGCode.cs:40 | the result is empty exactly when the line is blank, and otherwise starts and ends with a non-white-space character |
| DotNetText.TrimStart | WPF_CNC_Simulator/Services/InterpretadorGCode.cs:40 | the result is a suffix of the input; what it drops is white space; it does not start with white space |
| DotNetText.TrimEnd | WPF_CNC_Simulator/Services/InterpretadorGCode.cs:40 | the result is a prefix of the input; what it drops is white space; it does not end with white space |
| DotNetText.ToUpper | WPF_CNC_Simulator/Services/InterpretadorGCode.cs:40 | same length; each character is the upper-case form of the input's |
| DotNetText.TrimToUpper | WPF_CNC_Simulator/Services/InterpretadorGCode.cs:40 | trimming and upper-casing commute |
| DotNetText.ToUpperIdempotent | WPF_CNC_Simulator/Services/InterpretadorGCode.cs:40 | upper-casing twice is upper-casing once |
| DotNetText.IndexOf | WPF_CNC_Simulator/Services/InterpretadorGCode.cs:47 | -1 exactly when the character is absent; otherwise the position of its first occurrence |
| DotNetText.Split | WPF_CNC_Simulator/Services/InterpretadorGCode.cs:227 | no part is empty and no part holds a separator |
| DotNetText.SplitKeepsText | WPF_CNC_Simulator/Services/InterpretadorGCode.cs:227 | the parts, joined, are the input without its separators |
| DotNetText.ReadLines | WPF_CNC_Simulator/Services/SlicerService.cs:936-940 | no line returned by `ReadLine` holds a line break |
| DotNetText.ReadLinesKeepsText | WPF_CNC_Simulator/Services/SlicerService.cs:936-940 | the lines, joined, are the text without its line breaks |
| DotNetText.ReadLinesFirstCrLf | WPF_CNC_Simulator/Services/SlicerService.cs:936-940 | a line ended by "\r\n" is read back as itself, followed by the lines of the rest |
| DotNetText.NatToString | WPF_CNC_Simulator/Services/SlicerService.cs:605 | decimal digits without a leading zero |
| DotNetText.NatToStringRoundTrip | WPF_CNC_Simulator/Services/SlicerService.cs:605 | reading the digits back gives the number |
| GCodeParsing.DigitRun | WPF_CNC_Simulator/Services/InterpretadorGCode.cs:60 | `\d+` is greedy: the run stops at the end or at a non-digit |
| GCodeParsing.DigitRunDigits | WPF_CNC_Simulator/Services/InterpretadorGCode.cs:60 | every character of the run is a digit |
| GCodeParsing.NumeralLength | WPF_CNC_Simulator/Services/InterpretadorGCode.cs:81 | a numeral `[-+]?\d+\.?\d*` starts at the position exactly when its length is positive |
| GCodeParsing.NumeralSlice | WPF_CNC_Simulator/Services/InterpretadorGCode.cs:81 | a slice is a numeral exactly when it matches the pattern at that span |
| GCodeParsing.NumeralMatches | WPF_CNC_Simulator/Services/InterpretadorGCode.cs:81 | the computed length spans a match of the pattern |
| GCodeParsing.NumeralIsLongest | WPF_CNC_Simulator/Services/InterpretadorGCode.cs:81 | no longer span matches: the regex match is greedy |
| GCodeParsing.CommandToken | WPF_CNC_Simulator/Services/InterpretadorGCode.cs:60-65 | a token exists exactly when the line starts with G or M followed by a digit; the letter is G exactly when the line starts with G; the number is the decimal value of the whole (greedy) digit run after the letter |
| GCodeParsing.CommandTokenRoundTrip | WPF_CNC_Simulator/Services/InterpretadorGCode.cs:60-65 | a letter followed by the digits of n and then a non-digit (or nothing) parses back as that letter and n |
| GCodeParsing.FindParameter | WPF_CNC_Simulator/Services/InterpretadorGCode.cs:81-84 | finds an occurrence of the letter followed by a numeral, and no earlier one exists (first match wins) |
| GCodeParsing.ParameterText | WPF_CNC_Simulator/Services/InterpretadorGCode.cs:81-86 | present exactly when some occurrence of the letter is followed by a numeral; the captured text is a numeral, namely the greedy match after the first such occurrence |
| GCodeParsing.ExtractParameter | WPF_CNC_Simulator/Services/InterpretadorGCode.cs:79-90 | present exactly when the letter is followed by a signed number somewhere; the value is the parse of the greedy numeral after the first such occurrence |
| GCodeParsing.NumeralLengthOfSpan | WPF_CNC_Simulator/Services/InterpretadorGCode.cs:81 | a numeral not followed by a digit or a '.' is exactly the greedy match |
| GCodeParsing.WordParameter | WPF_CNC_Simulator/Services/InterpretadorGCode.cs:79-90 | after text without the letter, the word letter + numeral followed by a space or the end reads back as that numeral and its value |
| GCodeParsing.CodeText | WPF_CNC_Simulator/Services/InterpretadorGCode.cs:40-52 | the kept text has no ';', is upper case, is trimmed at both ends, and is empty when blank |
| GCodeParsing.ParseLine | WPF_CNC_Simulator/Services/InterpretadorGCode.cs:34-74 | a parsed command carries no line number yet |
| GCodeParsing.ParseLineOrNull | WPF_CNC_Simulator/Services/InterpretadorGCode.cs:34-37 | a null line gives no command; any other line gives `ParseLine`'s result |
| GCodeParsing.ParseLineMeaning | WPF_CNC_Simulator/Services/InterpretadorGCode.cs:34-74 | blank lines and ';'/'(' comment lines give none; otherwise a command exactly when code remains before the comment; its letter and number are those of `CommandToken` on the kept text (number 0 without a token) and X/Y/Z/F those of `ExtractParameter` |
| GCodeParsing.TrailingCommentIgnored | WPF_CNC_Simulator/Services/InterpretadorGCode.cs:46-52 | appending a ';' comment to a line does not change what it parses to |
| GCodeParsing.CommentCut | WPF_CNC_Simulator/Services/InterpretadorGCode.cs:46-49 | a trailing comment changes neither the comment-line test nor the kept text |
| GCodeParsing.BlankBeforeComment | WPF_CNC_Simulator/Services/InterpretadorGCode.cs:43 | white space followed by ';' is a comment line |
| GCodeParsing.SameParse | WPF_CNC_Simulator/Services/InterpretadorGCode.cs:34-74 | the parse depends only on blankness, the comment test and the kept text |
| GCodeInterpreter.Move | WPF_CNC_Simulator/Services/InterpretadorGCode.cs:153-219 | the specification of a G0/G1: the mode never changes; the result is a movement exactly when the command has an axis word, and without one the position stays; an F word sets the feed rate, otherwise it is kept (`MoveAxes`, `MoveResult` give the axes and the result) |
| GCodeInterpreter.Step | WPF_CNC_Simulator/Services/InterpretadorGCode.cs:95-148 | the specification of one present command: a command that is not a G code leaves the state alone with an idle result; only G90/G91 change the mode, only G0/G1 the feed rate, only G0/G1/G28 the position or report a movement; the result carries the line number |
| GCodeInterpreter.MoveAxes | WPF_CNC_Simulator/Services/InterpretadorGCode.cs:162-183 | for G0/G1 each present axis is set (absolute mode) or offset (relative mode); absent axes keep their value |
| GCodeInterpreter.MoveResult | WPF_CNC_Simulator/Services/InterpretadorGCode.cs:155-216 | movement is required exactly when an axis is present; then start = old position, end = new position, rapid iff G0, duration from the displacement and the feed; otherwise position unchanged and an idle result |
| GCodeInterpreter.DisplacementZero | WPF_CNC_Simulator/Services/InterpretadorGCode.cs:193-197 | the displacement is zero exactly when start and end coincide |
| GCodeInterpreter.FeedUpdate | WPF_CNC_Simulator/Services/InterpretadorGCode.cs:185-188 | the feed changes only on a G0/G1 with an F word, to that value, with or without axes |
| GCodeInterpreter.ModeUpdate | WPF_CNC_Simulator/Services/InterpretadorGCode.cs:126-134 | G90 sets absolute mode, G91 relative mode; nothing else changes the mode |
| GCodeInterpreter.HomeCommand | WPF_CNC_Simulator/Services/InterpretadorGCode.cs:116-124 | G28 moves the position to the origin, keeps mode and feed, and reports a move ending at the origin |
| GCodeInterpreter.NonMovingCommands | WPF_CNC_Simulator/Services/InterpretadorGCode.cs:126-145 | other commands neither move nor require movement; M codes and letterless lines change nothing |
| GCodeInterpreter.AbsoluteIdempotent | WPF_CNC_Simulator/Services/InterpretadorGCode.cs:162-183 | in absolute mode, executing the same command twice leaves the state of executing it once |
| GCodeInterpreter.RelativeMovesAccumulate | WPF_CNC_Simulator/Services/InterpretadorGCode.cs:169-181 | in relative mode a run of moves ends at the start translated by the sum of the offsets |
| GCodeInterpreter.RelativeInverse | WPF_CNC_Simulator/Services/InterpretadorGCode.cs:169-181 | in relative mode a move followed by its negation returns to the start |
| GCodeInterpreter.RunResults | WPF_CNC_Simulator/Services/InterpretadorGCode.cs:100-104 | one result per command, carrying that command and its line number |
| GCodeInterpreter.Interpreter.constructor | WPF_CNC_Simulator/Services/InterpretadorGCode.cs:14-29 | starts at the origin, in absolute mode, with feed 1500 |
| GCodeInterpreter.Interpreter.Execute | WPF_CNC_Simulator/Services/InterpretadorGCode.cs:95-148 | a null command gives null and changes nothing; otherwise the result and the new fields are those of `Step` |
| GCodeInterpreter.Interpreter.ProcessMove | WPF_CNC_Simulator/Services/InterpretadorGCode.cs:153-219 | the new fields and the result are those of `Move` |
| GCodeInterpreter.Interpreter.Reset | WPF_CNC_Simulator/Services/InterpretadorGCode.cs:246-253 | restores the origin, absolute mode and feed 1500 |
| GCodeInterpreter.Interpreter.ParseProgram | WPF_CNC_Simulator/Services/InterpretadorGCode.cs:224-241 | the commands are the parsed non-empty lines, numbered by their position among them |
| GCodeInterpreter.ParseAll | WPF_CNC_Simulator/Services/InterpretadorGCode.cs:229-232 | one parse per line, in order |
| GCodeInterpreter.NumberedSound | WPF_CNC_Simulator/Services/InterpretadorGCode.cs:229-238 | line numbers lie in 1..number of lines, strictly increase, and each command is the parse of its own line |
| GCodeInterpreter.NumberedComplete | WPF_CNC_Simulator/Services/InterpretadorGCode.cs:233-237 | every line that parses appears with its line number |
| CamGeometry.Sub | WPF_CNC_Simulator/Services/SlicerService.cs:814 | adding the difference back to `b` gives `a` |
| CamGeometry.CrossOrthogonal | WPF_CNC_Simulator/Services/SlicerService.cs:815 | the cross product is orthogonal to both factors |
| CamGeometry.CrossAntiCommutes | WPF_CNC_Simulator/Services/SlicerService.cs:815 | swapping the factors negates the cross product |
| CamGeometry.SubComponent | WPF_CNC_Simulator/Services/SlicerService.cs:814-816 | the indexer of a difference is the difference of the indexers |
| CamGeometry.Coords | WPF_CNC_Simulator/Services/SlicerService.cs:660-666 | three coordinates per triangle |
| CamGeometry.CoordsAt | WPF_CNC_Simulator/Services/SlicerService.cs:663-665 | entries 3i, 3i+1, 3i+2 are the coordinates of corners A, B, C of triangle i |
| CamGeometry.CoordsAreVertexCoords | WPF_CNC_Simulator/Services/SlicerService.cs:660-666 | every collected value is a coordinate of some corner |
| CamGeometry.Min | WPF_CNC_Simulator/Services/SlicerService.cs:667 | an element of the list no larger than any element |
| CamGeometry.Max | WPF_CNC_Simulator/Services/SlicerService.cs:667 | an element of the list no smaller than any element |
| CamGeometry.BoxOf | WPF_CNC_Simulator/Services/SlicerService.cs:657-668 | the box of `GetBounds`: all zeros for no triangles, and each minimum at most its maximum (`BoxContains`, `BoxTight` show it is the smallest box holding every vertex) |
| CamGeometry.BoxContains | WPF_CNC_Simulator/Services/SlicerService.cs:657-668 | every corner lies in the box and min <= max on each axis (also for the empty mesh's zero box) |
| CamGeometry.BoxTight | WPF_CNC_Simulator/Services/SlicerService.cs:660-667 | for a non-empty mesh every bound is attained by a corner |
| CamGeometry.GetBounds | WPF_CNC_Simulator/Services/SlicerService.cs:657-668 | the loop returns `BoxOf` of the triangles (all zeros when empty) |
| CamGeometry.EdgeParamInUnit | WPF_CNC_Simulator/Services/SlicerService.cs:698-700 | on an edge that straddles the level the parameter t is in [0, 1] and interpolates exactly to the level |
| CamGeometry.PlaneCrossing | WPF_CNC_Simulator/Services/SlicerService.cs:694-704 | an edge adds a point exactly when its z-delta is at least 1e-12 and it does not lie strictly on one side of the plane |
| CamGeometry.PlaneCrossingOnEdge | WPF_CNC_Simulator/Services/SlicerService.cs:699-703 | the added point is the XY of a point of the edge at height z0 |
| CamGeometry.TryEdgeIntersect | WPF_CNC_Simulator/Services/SlicerService.cs:694-704 | appends the edge's crossing, if any, to the list |
| CamGeometry.Present | WPF_CNC_Simulator/Services/SlicerService.cs:703 | an absent value adds nothing, a present one adds itself |
| CamGeometry.TriangleCrossings | WPF_CNC_Simulator/Services/SlicerService.cs:681-684 | at most one point per edge |
| CamGeometry.TriangleCut | WPF_CNC_Simulator/Services/SlicerService.cs:676-689 | a triangle adds a segment only when it is not wholly above or below the plane and its edges cross the plane at least twice (`TriangleCutMeaning`, `TriangleCutOnEdges` give the segment) |
| CamGeometry.Cuts | WPF_CNC_Simulator/Services/SlicerService.cs:671-692 | the cut of a mesh, in triangle order: at most one segment per triangle (`CutsInTriangleOrder`, `CutsComplete` relate each segment to its triangle) |
| CamGeometry.TriangleCutMeaning | WPF_CNC_Simulator/Services/SlicerService.cs:676-689 | a triangle wholly above or below gives nothing; it gives a segment exactly when two or more edges cross, and the segment is the first two points |
| CamGeometry.TriangleCutOnEdges | WPF_CNC_Simulator/Services/SlicerService.cs:682-688 | both ends of a segment lie on edges of the triangle at height z0 |
| CamGeometry.CutTriangle | WPF_CNC_Simulator/Services/SlicerService.cs:676-689 | one triangle gives its `TriangleCut`: nothing when wholly above or below, else the first two edge crossings if there are two |
| CamGeometry.CutsInTriangleOrder | WPF_CNC_Simulator/Services/SlicerService.cs:671-692 | at most one segment per triangle, each the cut of its triangle, in strictly increasing triangle order |
| CamGeometry.CutSourcesIncreasing | WPF_CNC_Simulator/Services/SlicerService.cs:674-689 | the triangles that add a segment are visited once each, in increasing index order |
| CamGeometry.CutsComplete | WPF_CNC_Simulator/Services/SlicerService.cs:686-689 | every triangle with a cut contributes its segment |
| CamGeometry.IntersectPlaneZ | WPF_CNC_Simulator/Services/SlicerService.cs:671-692 | the loop returns `Cuts` of the triangles |
| CamGeometry.LineCrossing | WPF_CNC_Simulator/Services/SlicerService.cs:723-731 | an edge gives a crossing exactly when its delta across the scanline is at least 1e-12 and it does not lie strictly on one side |
| CamGeometry.LineCrossingOnEdge | WPF_CNC_Simulator/Services/SlicerService.cs:749-757 | the crossing is the other coordinate of a point of the edge on the scanline |
| CamGeometry.TryEdgeIntersectLine | WPF_CNC_Simulator/Services/SlicerService.cs:723-731 | appends the edge's crossing, if any |
| CamGeometry.Crossings | WPF_CNC_Simulator/Services/SlicerService.cs:709-715 | at most three crossings per triangle |
| CamGeometry.InsertElements | WPF_CNC_Simulator/Services/SlicerService.cs:716 | insertion adds exactly the new element |
| CamGeometry.InsertSorted | WPF_CNC_Simulator/Services/SlicerService.cs:716 | insertion into a sorted list keeps it sorted |
| CamGeometry.Sort | WPF_CNC_Simulator/Services/SlicerService.cs:716 | `xs.Sort()` as a value: the result has as many elements as the input (`SortCorrect` proves it ascending and a permutation) |
| CamGeometry.SortCorrect | WPF_CNC_Simulator/Services/SlicerService.cs:716 | the sorted list is ordered and a permutation of the input |
| CamGeometry.Pairs | WPF_CNC_Simulator/Services/SlicerService.cs:717-719 | floor(k/2) intervals, interval i is (x[2i], x[2i+1]) |
| CamGeometry.PairsOfSorted | WPF_CNC_Simulator/Services/SlicerService.cs:716-719 | from a sorted list each interval has lo <= hi and the intervals ascend without overlap |
| CamGeometry.ScanIntervalsOrdered | WPF_CNC_Simulator/Services/SlicerService.cs:716-719 | for any crossings: floor(k/2) intervals, each lo <= hi, ascending |
| CamGeometry.ScanlineIntervals | WPF_CNC_Simulator/Services/SlicerService.cs:707-721 | the method returns the pairs of the sorted crossings |
| CamGeometry.PairUp | WPF_CNC_Simulator/Services/SlicerService.cs:717-719 | the stepping-by-two loop returns `Pairs` |
| CamGeometry.IntersectHorizontalLineY | WPF_CNC_Simulator/Services/SlicerService.cs:707-721 | pairs of the sorted X crossings of the line y = y0 |
| CamGeometry.IntersectVerticalLineX | WPF_CNC_Simulator/Services/SlicerService.cs:733-747 | pairs of the sorted Y crossings of the line x = x0 |
| CamChaining.Near | WPF_CNC_Simulator/Services/SlicerService.cs:869-873 | `Distance(a, b) < tolerance` with the square root removed: two points are near only for a positive tolerance |
| CamChaining.NearSymmetric | WPF_CNC_Simulator/Services/SlicerService.cs:869-873 | nearness does not depend on the order of the two points |
| CamChaining.NearEnds | WPF_CNC_Simulator/Services/SlicerService.cs:846-861 | the four end tests of the inner loop: they can hold only for a non-empty polyline and a positive tolerance |
| CamChaining.NearEndsReversed | WPF_CNC_Simulator/Services/SlicerService.cs:846-861 | the four tests cover both orientations of a segment: reversing it does not change whether it can join |
| CamChaining.JoinAt | WPF_CNC_Simulator/Services/SlicerService.cs:846-861 | the polyline after a join, by the first of the four tests that holds: with none it is unchanged, otherwise it has one point more, the old polyline stays whole at its front or its back, and the new point is an end of the segment |
| CamChaining.InfixJoin | WPF_CNC_Simulator/Services/SlicerService.cs:846-861 | a join adds a point only at one end, so every run of consecutive points of the polyline survives it |
| CamChaining.CountFalseMark | WPF_CNC_Simulator/Services/SlicerService.cs:848 | marking an unused segment lowers the number of unused segments by one |
| CamChaining.TotalPointsAtLeast | WPF_CNC_Simulator/Services/SlicerService.cs:837 | polylines of at least two points hold at least twice as many points as there are polylines |
| CamChaining.FlattenDistinct | WPF_CNC_Simulator/Services/SlicerService.cs:834-835 | a segment used once belongs to one polyline only |
| CamChaining.FollowsAppend | WPF_CNC_Simulator/Services/SlicerService.cs:846-853 | appending the far end of a segment that touches the last point keeps the polyline chained |
| CamChaining.FollowsPrepend | WPF_CNC_Simulator/Services/SlicerService.cs:854-861 | inserting the far end of a segment that touches the first point keeps the polyline chained |
| CamChaining.Take | WPF_CNC_Simulator/Services/SlicerService.cs:844-861 | taking a segment at either end keeps the polyline chained and the marks consistent, and lowers the unused count |
| CamChaining.TryJoin | WPF_CNC_Simulator/Services/SlicerService.cs:844-861 | one candidate segment: it joins exactly when one of the four end tests holds (`NearEnds`), and the new polyline is `JoinAt` of the old one, so the first test that holds decides which end grows and which end of the segment is added; a join marks exactly that segment and keeps the polyline chained, otherwise the polyline, its links and the marks are unchanged |
| CamChaining.ExtendPass | WPF_CNC_Simulator/Services/SlicerService.cs:841-862 | one pass keeps the polyline chained, never unmarks and keeps the old polyline as a run of consecutive points of the new one; it reports an extension only when it marked a segment, and a pass with none leaves the polyline and marks unchanged with no unused segment near either end |
| CamChaining.GrowPolyline | WPF_CNC_Simulator/Services/SlicerService.cs:834-863 | the grown polyline is chained through unused segments, including the starting one, whose two points stay next to each other in it; on return no unused segment is near its first or last point |
| CamChaining.ChainedDone | WPF_CNC_Simulator/Services/SlicerService.cs:864-866 | once every segment is used: each polyline has >= 2 points, total points = segments + polylines, polylines <= segments |
| CamChaining.ChainFrom | WPF_CNC_Simulator/Services/SlicerService.cs:832-865 | one turn of the outer loop: a used segment leaves the polylines and marks unchanged; a free one appends exactly one polyline, which contains it and holds its two points next to each other; all segments up to it end up used and the polylines stay apart |
| CamChaining.ApartAdd | WPF_CNC_Simulator/Services/SlicerService.cs:832-865 | a polyline grown until no unused segment is near its ends, from segments unused before, keeps all finished polylines unextendable |
| CamChaining.ChainedAll | WPF_CNC_Simulator/Services/SlicerService.cs:832-866 | once every segment is marked, the links of all polylines are the segment indices, each exactly once, and each polyline follows its links |
| CamChaining.ChainSegmentsToPolylines | WPF_CNC_Simulator/Services/SlicerService.cs:827-867 | every segment joins consecutive points of exactly one polyline; each polyline has >= 2 points; total points = segments + polylines; polylines <= segments; no segments gives no polylines; no segment of a later polyline is near an end of an earlier one, so no finished polyline could have been extended |
| StlLoading.UInt32At | WPF_CNC_Simulator/Services/SlicerService.cs:892 | the little-endian value is below 2^32 |
| StlLoading.UInt32RoundTrip | WPF_CNC_Simulator/Services/SlicerService.cs:892 | reading the four bytes of a count gives the count back |
| StlLoading.UInt32BytesRoundTrip | WPF_CNC_Simulator/Services/SlicerService.cs:892 | writing the value read from four bytes gives the bytes back |
| StlLoading.IsBinary | WPF_CNC_Simulator/Services/SlicerService.cs:885-897 | the binary test as written, with `triCount * 50` wrapping in 32 bits: a file under 84 bytes is never binary, and a file with a "solid" header passes only when its length is below 2^32 |
| StlLoading.IsBinaryIntended | WPF_CNC_Simulator/Services/SlicerService.cs:885-897 | the binary test with the expected size computed without wrap-around: a file under 84 bytes is never binary, and a passing "solid" file holds a whole number of 50-byte records after its 84-byte start |
| StlLoading.IsBinaryBelowWrap | WPF_CNC_Simulator/Services/SlicerService.cs:885-897 | while 84 + 50 * count fits in 32 bits, the test as written and the exact test agree |
| StlLoading.IsBinaryIntendedStricter | WPF_CNC_Simulator/Services/SlicerService.cs:892-894 | every file under 4 GiB that passes the exact test passes the test as written |
| StlLoading.ShortFileIsAscii | WPF_CNC_Simulator/Services/SlicerService.cs:887 | fewer than 84 bytes is never binary |
| StlLoading.SizeCheckWraps | WPF_CNC_Simulator/Services/SlicerService.cs:892-894 | a 124-byte "solid" text is taken for binary by the test as written but not by the exact test |
| StlLoading.SolidBinaryIsComplete | WPF_CNC_Simulator/Services/SlicerService.cs:890-894 | with the exact test, a "solid" file is binary exactly when the reader reads every announced record and nothing is left over |
| StlLoading.WrapExampleHoldsNoRecord | WPF_CNC_Simulator/Services/SlicerService.cs:903-905 | the wrapped example announces records but holds none |
| StlLoading.Records | WPF_CNC_Simulator/Services/SlicerService.cs:905-929 | n records; record k is read from offset 84 + 50k |
| StlLoading.RecordCount | WPF_CNC_Simulator/Services/SlicerService.cs:905 | min(count, floor((length - 84) / 50)): never more than the count, never past the buffer, and short only when the next record would not fit |
| StlLoading.RecordCountStep | WPF_CNC_Simulator/Services/SlicerService.cs:905 | a loop turn whose guard holds stays within the number of records read |
| StlLoading.RecordCountExit | WPF_CNC_Simulator/Services/SlicerService.cs:905 | when the guard fails, exactly `RecordCount` records have been read |
| StlLoading.RecordsSnoc | WPF_CNC_Simulator/Services/SlicerService.cs:905-929 | one more loop turn appends the record at offset 84 + 50i |
| StlLoading.ReadRecord | WPF_CNC_Simulator/Services/SlicerService.cs:907-921 | skips the 12-byte normal, reads nine floats as three vertices and the 2 attribute bytes: 50 bytes, the triangle `RecordAt` |
| StlLoading.BinaryTriangles | WPF_CNC_Simulator/Services/SlicerService.cs:899-931 | the triangles `LoadBinary` reads: none for a file under 84 bytes, otherwise at most the declared count, all of whose records lie inside the file (`BinaryRoundTrip` reads back the written triangles) |
| StlLoading.LoadBinary | WPF_CNC_Simulator/Services/SlicerService.cs:899-931 | the offset-advancing loop returns `BinaryTriangles` (empty below 84 bytes) |
| StlLoading.VertexRoundTrip | WPF_CNC_Simulator/Services/SlicerService.cs:909-919 | the three floats written for a vertex are read back as that vertex |
| StlLoading.RecordRoundTrip | WPF_CNC_Simulator/Services/SlicerService.cs:907-928 | the normal is skipped and the three vertices are read back |
| StlLoading.EncodeRecordsLength | WPF_CNC_Simulator/Services/SlicerService.cs:905 | 50 bytes per record |
| StlLoading.EncodeRecordsLayout | WPF_CNC_Simulator/Services/SlicerService.cs:905-921 | record k occupies bytes 50k..50k+50 |
| StlLoading.BinaryRoundTrip | WPF_CNC_Simulator/Services/SlicerService.cs:885-931 | a file written with a header, a count and the records is detected as binary and read back as exactly those triangles |
| StlLoading.RecordRead | WPF_CNC_Simulator/Services/SlicerService.cs:907-928 | record k of a written file is read back as triangle k |
| StlLoading.BinaryCount | WPF_CNC_Simulator/Services/SlicerService.cs:892-905 | a file whose size matches its count is binary and yields exactly count records |
| StlLoading.VertexOfLine | WPF_CNC_Simulator/Services/SlicerService.cs:942-950 | the vertex one line gives: only a line at least as long as the keyword "vertex" gives one (`VertexLineReads` shows a written vertex line reads back its three coordinates) |
| StlLoading.Vertices | WPF_CNC_Simulator/Services/SlicerService.cs:940-950 | at most one vertex per line |
| StlLoading.WithoutOrigin | WPF_CNC_Simulator/Services/SlicerService.cs:951-953 | the origin never fills a slot; every other vertex is kept |
| StlLoading.WithoutOriginKeeps | WPF_CNC_Simulator/Services/SlicerService.cs:951-953 | with no vertex at the origin, nothing is dropped |
| StlLoading.Gather | WPF_CNC_Simulator/Services/SlicerService.cs:956-960 | fewer than three vertices wait in the slots |
| StlLoading.Group3 | WPF_CNC_Simulator/Services/SlicerService.cs:951-960 | consecutive vertices three at a time: n vertices make t triangles with 3t <= n < 3t + 3 (`Group3Layout` gives exactly n/3, triangle k from vertices 3k, 3k + 1, 3k + 2) |
| StlLoading.Group3Layout | WPF_CNC_Simulator/Services/SlicerService.cs:951-960 | floor(n/3) triangles, triangle k made of vertices 3k, 3k+1, 3k+2; the last n mod 3 vertices are left over |
| StlLoading.VerticesStep | WPF_CNC_Simulator/Services/SlicerService.cs:940-950 | one more line adds its vertex, if any |
| StlLoading.GatherStep | WPF_CNC_Simulator/Services/SlicerService.cs:951-960 | one more vertex fills a slot or commits a triangle |
| StlLoading.AsciiPush | WPF_CNC_Simulator/Services/SlicerService.cs:951-959 | the a/b/c slot update matches grouping the vertices three at a time |
| StlLoading.AsciiLine | WPF_CNC_Simulator/Services/SlicerService.cs:942-960 | one line updates the slots as if its vertex, unless at the origin, were grouped |
| StlLoading.LoadAscii | WPF_CNC_Simulator/Services/SlicerService.cs:933-965 | the triangles are the non-origin vertices of the lines, three at a time |
| StlLoading.AsciiLineIntended | WPF_CNC_Simulator/Services/SlicerService.cs:942-960 | with a fill counter instead of the origin test, every vertex is grouped |
| StlLoading.LoadAsciiIntended | WPF_CNC_Simulator/Services/SlicerService.cs:933-965 | the triangles are all vertices of the lines, three at a time |
| StlLoading.AsciiAgreesWithoutOrigin | WPF_CNC_Simulator/Services/SlicerService.cs:951-959 | without a vertex at the origin, both readers give the same triangles |
| StlLoading.AsciiTriangleCount | WPF_CNC_Simulator/Services/SlicerService.cs:936-960 | at most one triangle per three lines |
| StlLoading.AsciiNoOriginVertex | WPF_CNC_Simulator/Services/SlicerService.cs:951-959 | no triangle read as written has a corner at the origin |
| StlLoading.VertexLineReads | WPF_CNC_Simulator/Services/SlicerService.cs:942-950 | "vertex p q r" gives the vertex (p, q, r) |
| StlLoading.OriginVertexDropped | WPF_CNC_Simulator/Services/SlicerService.cs:951-959 | a one-facet file with a corner at the origin yields no triangle as written, one triangle as intended |
| StlLoading.OriginFacetDropped | WPF_CNC_Simulator/Services/SlicerService.cs:951-959 | the same with the digits 0 and 1 |
| StlLoading.Load | WPF_CNC_Simulator/Services/SlicerService.cs:878-883 | binary reading when the size test says binary, text reading otherwise |
| CamEmitter.LayerHeight | WPF_CNC_Simulator/Services/SlicerService.cs:217 | the larger of cutting depth and step resolution |
| CamEmitter.Stepover | WPF_CNC_Simulator/Services/SlicerService.cs:221 | the larger of 0.4 × tool diameter and step resolution |
| CamEmitter.SpindleSpeed | WPF_CNC_Simulator/Services/SlicerService.cs:605 | the smaller of working and maximum speed |
| CamEmitter.Preamble | WPF_CNC_Simulator/Services/SlicerService.cs:593-607 | fifteen lines |
| CamEmitter.PreambleShape | WPF_CNC_Simulator/Services/SlicerService.cs:593-607 | G21, G90, G17, G94, G28 and the safe-height retract in place; M3 at line 12 is the only M code; no feed move; no other retract |
| CamEmitter.Moves | WPF_CNC_Simulator/Services/SlicerService.cs:621-625 | one line per point |
| CamEmitter.MovesAt | WPF_CNC_Simulator/Services/SlicerService.cs:621-625 | line k is the cut to point k, Y negated |
| CamEmitter.MovesAreCuts | WPF_CNC_Simulator/Services/SlicerService.cs:621-625 | every point line is a cut |
| CamEmitter.Text | WPF_CNC_Simulator/Services/SlicerService.cs:591-636 | the text `AppendLine` builds: at least the two characters of CR LF per line (`TextSnoc`, `ReadBack` show that reading it back line by line gives the lines) |
| CamEmitter.TextSnoc | WPF_CNC_Simulator/Services/SlicerService.cs:591-637 | `AppendLine` adds the line and a line break |
| CamEmitter.ReadBack | WPF_CNC_Simulator/Services/SlicerService.cs:637 | reading the text line by line gives the lines back |
| CamEmitter.Cuts | WPF_CNC_Simulator/Services/SlicerService.cs:624 | a sub-list of the lines |
| CamEmitter.CutsAppend | WPF_CNC_Simulator/Services/SlicerService.cs:624 | the cuts of two parts are the cuts of each |
| CamEmitter.Block | WPF_CNC_Simulator/Services/SlicerService.cs:613-629 | the block of one toolpath: n + 6 lines for n points, starting with the comment line and ending with the retract to the safe height and a blank line |
| CamEmitter.BlockShape | WPF_CNC_Simulator/Services/SlicerService.cs:613-629 | a block holds no M code, every retract in it goes to the safe height, and its cuts are the point lines in order |
| CamEmitter.Kept | WPF_CNC_Simulator/Services/SlicerService.cs:611 | only toolpaths that are written |
| CamEmitter.KeptFrom | WPF_CNC_Simulator/Services/SlicerService.cs:611 | every kept toolpath comes from the input |
| CamEmitter.SkippedToolpaths | WPF_CNC_Simulator/Services/SlicerService.cs:611 | null toolpaths and toolpaths without points write nothing |
| CamEmitter.BlocksShape | WPF_CNC_Simulator/Services/SlicerService.cs:609-630 | the blocks have no M code, retract only to the safe height, and cut exactly the points of the written toolpaths in order |
| CamEmitter.Postamble | WPF_CNC_Simulator/Services/SlicerService.cs:632-635 | four lines, from spindle off (M5) to end of program (M2) |
| CamEmitter.Program | WPF_CNC_Simulator/Services/SlicerService.cs:587-637 | the whole program: the 15 preamble lines first, the blocks, and the 4 postamble lines last, ending with M2 |
| CamEmitter.PostambleShape | WPF_CNC_Simulator/Services/SlicerService.cs:632-635 | M5 first, M2 last, the only M codes; one retract, to `own`'s safe height; no feed move |
| CamEmitter.SpindleBracketsFeeds | WPF_CNC_Simulator/Services/SlicerService.cs:605-635 | one M3, one M5 and one M2; every feed move lies after the M3 and before the M5 |
| CamEmitter.ProgramCuts | WPF_CNC_Simulator/Services/SlicerService.cs:587-637 | the program's cuts are the points of the written toolpaths, in order |
| CamEmitter.ProgramLength | WPF_CNC_Simulator/Services/SlicerService.cs:587-637 | 19 lines plus n + 6 per written toolpath |
| CamEmitter.NothingToCut | WPF_CNC_Simulator/Services/SlicerService.cs:609-611 | with nothing to write, the program is the preamble and the postamble |
| CamEmitter.Retracts | WPF_CNC_Simulator/Services/SlicerService.cs:603-633 | the final retract uses the engine's settings; every other retract uses the effective settings |
| CamEmitter.SafeLinesDiffer | WPF_CNC_Simulator/Services/SlicerService.cs:603 | different formatted heights give different retract lines |
| CamEmitter.FinalRetractIgnoresSettings | WPF_CNC_Simulator/Services/SlicerService.cs:589-633 | with a custom safe height on a default engine the final retract is not to that height |
| CamEmitter.RetractsToSafeHeight | WPF_CNC_Simulator/Services/SlicerService.cs:603-633 | when the postamble uses the effective settings every retract goes to their safe height |
| CamEmitter.CamEngine.constructor | WPF_CNC_Simulator/Services/SlicerService.cs:451-454 | the settings given, or the defaults for null |
| CamEmitter.CamEngine.GenerateGcode | WPF_CNC_Simulator/Services/SlicerService.cs:587-638 | the text of `Program` with the argument (or own) settings in the body and the engine's own settings in the postamble |
| CamEmitter.CamEngine.GenerateGcodeIntended | WPF_CNC_Simulator/Services/SlicerService.cs:587-638 | the text of `Program` with the effective settings throughout |
| CamEmitter.WritePreamble | WPF_CNC_Simulator/Services/SlicerService.cs:593-607 | the appended lines are `Preamble` |
| CamEmitter.WriteToolpaths | WPF_CNC_Simulator/Services/SlicerService.cs:609-630 | the loop appends `Blocks` of the toolpaths |
| CamEmitter.WrittenSnoc | WPF_CNC_Simulator/Services/SlicerService.cs:609-630 | one more toolpath appends its block to the blocks written so far |
| CamEmitter.WriteToolpath | WPF_CNC_Simulator/Services/SlicerService.cs:611-630 | one toolpath appends its block or nothing |
| CamEmitter.WriteBlock | WPF_CNC_Simulator/Services/SlicerService.cs:613-629 | appends `Block` |
| CamEmitter.WriteMoves | WPF_CNC_Simulator/Services/SlicerService.cs:621-625 | the point loop appends `Moves` |
| CamEmitter.WritePostamble | WPF_CNC_Simulator/Services/SlicerService.cs:632-635 | appends `Postamble` |

## Left out

- Culture-sensitive behaviour is not modelled. `double.Parse` is the parameter `num`. Upper-casing is the ASCII mapping (`ToUpperChar`); the culture-aware mapping of other letters is not modelled. The invariant-culture, case-insensitive `StartsWith` is modelled as ASCII case folding.
- DotNetText.IsDigit: .NET's `\d` matches every Unicode decimal digit, but the model recognises only '0'-'9'. On a line such as "G" or "X" followed by an Arabic-Indic digit the source's `int.Parse` or `double.Parse` throws `FormatException`; the model instead gives a command without a letter or without that parameter. Exceptions are not modelled.
- Null arguments other than the line of `ParsearLinea` (`GCodeParsing.ParseLineOrNull`) are not modelled: `ParsearCodigoCompleto(null)`, `GenerateGcode(null, …)` and a null `PathPoint` inside a toolpath's `Segments` (SlicerService.cs:615, 624) throw `NullReferenceException` in the source; a null `Toolpath.Comment` is written as `; ` (SlicerService.cs:614). The model's strings, lists and points are never null, so neither case arises.
- The `int.Parse` of a command number does not model the overflow exception for more than nine or ten digits; the number is unbounded.
- GCodeInterpreter.MoveResult: `Math.Sqrt`, `Math.Pow` and the division in `DuracionSegundos` are not computed. The duration is given as the displacement and the feed (`Travel`), so a zero or negative feed is not distinguished.
- GCodeInterpreter: the `LineaOriginal` and `NumeroLinea` properties are modelled. The class-typed `ComandoGCode` and `ResultadoEjecucion` are values, and the aliasing of a command object between the list and a result is not modelled.
- Floating point is not modelled: `double` and `float` are `real`, with no rounding, NaN, infinities or negative zero. `BitConverter.ToSingle` is the parameter `decode`. The float-to-double widening is part of `decode`.
- `File.ReadAllBytes`, `File.ReadAllText` (and its decoding of the bytes), `File.WriteAllText` and `File.Exists` are I/O. `StlLoading.Load` takes the bytes and the decoded text as parameters.
- `StlLoading.Load` uses the exact size test and the intended ASCII reader. The source's `IsBinary` and `LoadAscii` are modelled as written beside them, and the Findings below relate the two.
- `Mesh` is a value: the loader fills its triangle list once and nothing updates it afterwards.
- `SampleZAtXY`, `RayIntersectsTriangleVertical` and `PointInTriangle` are not modelled. They are barycentric tests whose meaning rests on floating-point tolerances.
- `GenerateWaterlineRoughingAsync` and `GenerateParallelFinishingAsync` are not modelled. Their `double` stepping loops (`z -= layerHeight`, `x += stepover`) terminate only through floating-point behaviour, and they run on `Task.Run`. Their parameter rules are modelled as LayerHeight and Stepover.
- `SliceSTLAsync`, `SliceWithCustomSettings`, `RunExternalSlicer` and `PostProcessGCodeForCNC` are not modelled. They are asynchronous file handling, process spawning, and a regular-expression rewrite on the external-slicer path. `SlicingResult` and `CNCMillingSettings.ToIniFormat` belong to that path and are not modelled.
- `List.Sort` in place in the scanline methods is modelled by a pure insertion sort (`Sort`). Its order is fixed and its result proved sorted and a permutation. The in-place update is not modelled.
- The `StringBuilder` of `GenerateGcode` is modelled as the list of appended lines. `Text` gives the string `ToString` returns, with "\r\n" as the line ending (Windows `Environment.NewLine`).
- `:F3`, `:F1` and the default number formatting are the parameters in `Formats`. `DateTime.Now` is the parameter `stamp`.
- Toolpath `IsRapid` is carried but not read, as in the source.
- Replaying the emitted program through the interpreter is not proved, because the number formatting is a parameter. CamEmitter.ReadBack proves that the emitted text splits back into its lines. CamEmitter.ProgramCuts proves that the cut lines are exactly the points of the toolpaths.
- CamChaining.ChainSegmentsToPolylines compares squared distances with the squared tolerance. The tolerance is always passed in; the default argument value 1e-3 of the source is not modelled, as no modelled caller relies on it. Maximality is stated as "no segment of a later polyline is near an end of an earlier one". Which end a segment joins, when several tests hold, is stated per candidate by `TryJoin` through `JoinAt`; the top-level contract does not restate the order in which the points of each polyline were added.
- UI code (`MainWindow`, the view model, the widgets) and the commented-out `SlicerServiceOld.cs` are not part of this model.

## Findings

| source | as written | input that shows it | evidently intended | confidence | as-written member | corrected member |
|---|---|---|---|---|---|---|
| WPF_CNC_Simulator/Services/SlicerService.cs:892-894 | `84 + triCount * 50` is computed in `uint` and wraps modulo 2^32 before it is compared with the length | a 124-byte text file: "solid", 75 spaces, "4333" at bytes 80-83 (count 858993460), 40 spaces; 84 + 50 × 858993460 wraps to 124, so it is taken for binary | the exact size 84 + 50 × count compared with the length | high; not executed | StlLoading.SizeCheckWraps | StlLoading.SolidBinaryIsComplete |
| WPF_CNC_Simulator/Services/SlicerService.cs:951-959 | a slot holding `default(Vector3)` counts as empty, so a vertex at (0,0,0) never fills a slot | one facet with the vertices (0,0,0), (1,0,0), (0,1,0) gives no triangle | every vertex fills the next slot; three vertices make a triangle | high; not executed | StlLoading.OriginVertexDropped | StlLoading.LoadAsciiIntended |
| WPF_CNC_Simulator/Services/SlicerService.cs:633-634 | the postamble's retract and return use the engine's `_settings`, not the settings passed in (the engine is built with defaults at SlicerService.cs:35 and :52 and called with custom settings at :229) | custom settings with safe height 80: every retract goes to Z80.000 except the final one, which goes to Z50.000 | the postamble uses the same settings as the rest of the program, so every retract goes to the chosen safe height (CamEmitter.RetractsToSafeHeight) | medium; not executed | CamEmitter.FinalRetractIgnoresSettings | CamEmitter.CamEngine.GenerateGcodeIntended |
