/**
  The G-code writer of the internal CAM engine (`CamEngine.GenerateGcode`), the toolpath
  types it consumes (`Toolpath`, `PathPoint`) and the milling settings it reads
  (`CNCMillingSettings`).

  The program text is specified line by line: `Program` gives the lines (a fixed preamble, one
  block per toolpath that has points, a fixed postamble) and `Text` the string a
  `StringBuilder` holds after `AppendLine` of each of them. The number formats `:F3`, `:F1`,
  the default formatting of a `double` and the clock reading are parameters.
*/
module CamEmitter {
  import opened Options
  import opened DotNetText

  /** `Environment.NewLine` on Windows, which `AppendLine` writes after each line. */
  const NewLine: string := "\r\n"

  /** `CNCMillingSettings`. */
  datatype MillingSettings = MillingSettings(
    workAreaX: real, workAreaY: real, workAreaZ: real,
    stepResolution: real,
    toolDiameter: real,
    maxSpindleSpeed: int, workingSpindleSpeed: int,
    cuttingDepth: real,
    cuttingFeedrate: real, plungeFeedrate: real, rapidFeedrate: real,
    perimeters: int, fillDensity: int, fillPattern: string,
    safeHeight: real,
    material: string)

  /** The property initialisers of `CNCMillingSettings`. */
  const DefaultSettings := MillingSettings(
    300.0, 300.0, 100.0, 0.1, 5.0, 10000, 8000, 1.0, 1500.0, 500.0, 3000.0,
    2, 50, "concentric", 50.0, "Madera")

  /** The layer height of the waterline pass with custom settings: the larger of depth and resolution. */
  function LayerHeight(s: MillingSettings): (h: real)
    ensures h >= s.cuttingDepth && h >= s.stepResolution
    ensures h == s.cuttingDepth || h == s.stepResolution
  {
    if s.cuttingDepth >= s.stepResolution then s.cuttingDepth else s.stepResolution
  }

  /** The finishing stepover with custom settings: at least 40% of the tool diameter and the resolution. */
  function Stepover(s: MillingSettings): (w: real)
    ensures w >= 4.0 / 10.0 * s.toolDiameter && w >= s.stepResolution
    ensures w == 4.0 / 10.0 * s.toolDiameter || w == s.stepResolution
  {
    var share := 4.0 / 10.0 * s.toolDiameter;
    if share >= s.stepResolution then share else s.stepResolution
  }

  /** `PathPoint`. */
  datatype PathPoint = PathPoint(x: real, y: real, z: real)

  /** `Toolpath`; `segments` is `None` for a `null` list. */
  datatype Toolpath = Toolpath(segments: Option<seq<PathPoint>>, feedRate: real, isRapid: bool, comment: string)

  /** A `new Toolpath()`: an empty list, feed 1500, not rapid, no comment. */
  const NewToolpath := Toolpath(Some([]), 1500.0, false, "")

  /**
    The text conversions the writer relies on: `:F3`, `:F1` and the default formatting of a
    `double` in an interpolated string, all culture dependent.
  */
  datatype Formats = Formats(f3: real -> string, f1: real -> string, general: real -> string)

  /** `Math.Min(WorkingSpindleSpeed, MaxSpindleSpeed)`. */
  function SpindleSpeed(cfg: MillingSettings): (rpm: int)
    ensures rpm <= cfg.workingSpindleSpeed && rpm <= cfg.maxSpindleSpeed
    ensures rpm == cfg.workingSpindleSpeed || rpm == cfg.maxSpindleSpeed
  {
    if cfg.workingSpindleSpeed <= cfg.maxSpindleSpeed then cfg.workingSpindleSpeed else cfg.maxSpindleSpeed
  }

  /** The rapid move up to the safe height. */
  function SafeLine(cfg: MillingSettings, fmt: Formats): string {
    "G0 Z" + fmt.f3(cfg.safeHeight) + " F" + fmt.f1(cfg.rapidFeedrate)
  }

  function SpindleLine(cfg: MillingSettings): string {
    "M3 S" + IntToString(SpindleSpeed(cfg))
  }

  /** The three comment lines that open the program. */
  function Banner(cfg: MillingSettings, fmt: Formats, stamp: string): seq<string> {
    ["; " + "G-code generado por SlicerService (Motor CAM interno)",
     "; Area: " + fmt.general(cfg.workAreaX) + "x" + fmt.general(cfg.workAreaY) + "x" + fmt.general(cfg.workAreaZ)
       + " mm | Tool: Ø" + fmt.general(cfg.toolDiameter) + " mm",
     "; Fecha: " + stamp]
  }

  /** Millimetres, absolute positioning, XY plane, feed per minute. */
  const Modes: seq<string> := ["", "G21", "G90", "G17", "G94", ""]

  /** Everything before the first toolpath; `stamp` is the formatted clock reading. */
  function Preamble(cfg: MillingSettings, fmt: Formats, stamp: string): (lines: seq<string>)
    ensures |lines| == 15
  {
    Banner(cfg, fmt, stamp) + Modes + ["G28", SafeLine(cfg, fmt), "", SpindleLine(cfg), "G4 P1", ""]
  }

  /** The feed move to one point, with the Y axis inverted. */
  function MoveLine(p: PathPoint, feed: real, fmt: Formats): string {
    "G1 X" + fmt.f3(p.x) + " Y" + fmt.f3(-p.y) + " Z" + fmt.f3(p.z) + " F" + fmt.f1(feed)
  }

  /** One feed move per point, in order. */
  function Moves(points: seq<PathPoint>, feed: real, fmt: Formats): (lines: seq<string>)
    ensures |lines| == |points|
  {
    if points == [] then [] else Moves(points[..|points| - 1], feed, fmt) + [MoveLine(points[|points| - 1], feed, fmt)]
  }

  /** The four lines that bring the tool down at the first point. */
  function Approach(comment: string, first: PathPoint, cfg: MillingSettings, fmt: Formats): seq<string> {
    ["; " + comment,
     "G0 X" + fmt.f3(first.x) + " Y" + fmt.f3(-first.y) + " F" + fmt.f1(cfg.rapidFeedrate),
     SafeLine(cfg, fmt),
     "G1 Z" + fmt.f3(first.z) + " F" + fmt.f1(cfg.plungeFeedrate)]
  }

  /** A toolpath is written only when it and its point list are present and the list is not empty. */
  predicate Emits(tp: Option<Toolpath>) {
    tp.Some? && tp.value.segments.Some? && |tp.value.segments.value| > 0
  }

  /** The block of one toolpath that is written. */
  function Block(tp: Toolpath, cfg: MillingSettings, fmt: Formats): (lines: seq<string>)
    requires tp.segments.Some? && |tp.segments.value| > 0
    ensures |lines| == |tp.segments.value| + 6
    ensures lines[0] == "; " + tp.comment && lines[|lines| - 2] == SafeLine(cfg, fmt) && lines[|lines| - 1] == ""
  {
    var points := tp.segments.value;
    Approach(tp.comment, points[0], cfg, fmt) + Moves(points, tp.feedRate, fmt) + [SafeLine(cfg, fmt), ""]
  }

  /** The lines one toolpath adds: its block, or nothing. */
  function Emitted(tp: Option<Toolpath>, cfg: MillingSettings, fmt: Formats): seq<string> {
    if Emits(tp) then Block(tp.value, cfg, fmt) else []
  }

  /** The blocks of the toolpaths, in order. */
  function Blocks(tps: seq<Option<Toolpath>>, cfg: MillingSettings, fmt: Formats): seq<string> {
    if tps == [] then [] else Blocks(tps[..|tps| - 1], cfg, fmt) + Emitted(tps[|tps| - 1], cfg, fmt)
  }

  /** Spindle off, retract, return over the origin, end of program; read from `own`. */
  function Postamble(own: MillingSettings, fmt: Formats): (lines: seq<string>)
    ensures |lines| == 4 && lines[0] == "M5" && lines[3] == "M2"
  {
    ["M5", SafeLine(own, fmt), "G0 X0 Y0 F" + fmt.f1(own.rapidFeedrate), "M2"]
  }

  /**
    The program as written: the preamble and blocks use `cfg` (the argument, or the engine's
    settings when it is null); the postamble uses `own`, the engine's settings.
  */
  function Program(tps: seq<Option<Toolpath>>, cfg: MillingSettings, own: MillingSettings, fmt: Formats, stamp: string): (lines: seq<string>)
    ensures |lines| == 19 + |Blocks(tps, cfg, fmt)|
    ensures lines[..15] == Preamble(cfg, fmt, stamp) && lines[|lines| - 4..] == Postamble(own, fmt)
    ensures lines[|lines| - 1] == "M2"
  {
    Preamble(cfg, fmt, stamp) + Blocks(tps, cfg, fmt) + Postamble(own, fmt)
  }

  /** The text of `lines` appended one by one with `AppendLine`. */
  function Text(lines: seq<string>): (text: string)
    ensures |text| >= 2 * |lines|
  {
    if lines == [] then "" else Text(lines[..|lines| - 1]) + lines[|lines| - 1] + NewLine
  }

  lemma TextSnoc(lines: seq<string>, line: string)
    ensures Text(lines + [line]) == Text(lines) + line + NewLine
  {
    assert (lines + [line])[..|lines|] == lines;
  }

  lemma {:induction false} TextCons(line: string, lines: seq<string>)
    ensures Text([line] + lines) == line + NewLine + Text(lines)
    decreases |lines|
  {
    if lines == [] {
      assert [line] + lines == [line];
      assert [line][..0] == [];
    } else {
      var init, last := lines[..|lines| - 1], lines[|lines| - 1];
      assert lines == init + [last];
      assert [line] + lines == ([line] + init) + [last];
      TextSnoc([line] + init, last);
      TextCons(line, init);
      TextSnoc(init, last);
    }
  }

  predicate NoBreaks(lines: seq<string>) {
    forall k, i :: 0 <= k < |lines| && 0 <= i < |lines[k]| ==> lines[k][i] !in LineBreaks
  }

  /** Reading the written text back line by line gives the lines, when none holds a line break. */
  lemma {:induction false} ReadBack(lines: seq<string>)
    requires NoBreaks(lines)
    ensures ReadLines(Text(lines)) == lines
    decreases |lines|
  {
    if lines != [] {
      var rest := lines[1..];
      assert lines == [lines[0]] + rest;
      TextCons(lines[0], rest);
      assert forall i :: 0 <= i < |lines[0]| ==> lines[0][i] !in LineBreaks;
      ReadLinesFirstCrLf(lines[0], Text(rest));
      assert NoBreaks(rest) by {
        forall k, i | 0 <= k < |rest| && 0 <= i < |rest[k]| ensures rest[k][i] !in LineBreaks {
          assert rest[k] == lines[k + 1];
        }
      }
      ReadBack(rest);
    }
  }

  /** A feed move `G1 ...`: the plunge or a cut. */
  predicate IsFeed(line: string) {
    |line| >= 3 && line[0] == 'G' && line[1] == '1' && line[2] == ' '
  }

  /** A cut to a point: `G1 X...`. */
  predicate IsCut(line: string) {
    IsFeed(line) && |line| >= 4 && line[3] == 'X'
  }

  /** A rapid move along Z only: `G0 Z...`. */
  predicate IsRetract(line: string) {
    |line| >= 4 && line[0] == 'G' && line[1] == '0' && line[2] == ' ' && line[3] == 'Z'
  }

  /** A machine (M) code line. */
  predicate IsMCode(line: string) {
    |line| >= 1 && line[0] == 'M'
  }

  /** The cut lines of `lines`, in order. */
  function Cuts(lines: seq<string>): (cuts: seq<string>)
    ensures |cuts| <= |lines|
  {
    if lines == [] then []
    else Cuts(lines[..|lines| - 1]) + (if IsCut(lines[|lines| - 1]) then [lines[|lines| - 1]] else [])
  }

  lemma {:induction false} CutsAppend(a: seq<string>, b: seq<string>)
    ensures Cuts(a + b) == Cuts(a) + Cuts(b)
    decreases |b|
  {
    if b == [] {
      assert a + b == a;
    } else {
      var init := b[..|b| - 1];
      assert (a + b)[..|a + b| - 1] == a + init;
      CutsAppend(a, init);
    }
  }

  lemma CutsNone(lines: seq<string>)
    requires forall k :: 0 <= k < |lines| ==> !IsCut(lines[k])
    ensures Cuts(lines) == []
  {
    if lines != [] {
      CutsNone(lines[..|lines| - 1]);
    }
  }

  /** The k-th move is the move to the k-th point. */
  lemma {:induction false} MovesAt(points: seq<PathPoint>, feed: real, fmt: Formats)
    ensures forall k :: 0 <= k < |points| ==> Moves(points, feed, fmt)[k] == MoveLine(points[k], feed, fmt)
    decreases |points|
  {
    if points != [] {
      var init := points[..|points| - 1];
      MovesAt(init, feed, fmt);
      assert forall k :: 0 <= k < |init| ==> points[k] == init[k];
    }
  }

  lemma MoveLineIsCut(p: PathPoint, feed: real, fmt: Formats)
    ensures IsCut(MoveLine(p, feed, fmt))
  {
    var rest := fmt.f3(p.x) + " Y" + fmt.f3(-p.y) + " Z" + fmt.f3(p.z) + " F" + fmt.f1(feed);
    assert MoveLine(p, feed, fmt) == "G1 X" + rest;
  }

  lemma CutsSingle(line: string)
    requires IsCut(line)
    ensures Cuts([line]) == [line]
  {
    assert [line][..0] == [];
  }

  lemma {:induction false} MovesAreCuts(points: seq<PathPoint>, feed: real, fmt: Formats)
    ensures Cuts(Moves(points, feed, fmt)) == Moves(points, feed, fmt)
    decreases |points|
  {
    if points != [] {
      var init := points[..|points| - 1];
      var line := MoveLine(points[|points| - 1], feed, fmt);
      MovesAreCuts(init, feed, fmt);
      CutsAppend(Moves(init, feed, fmt), [line]);
      MoveLineIsCut(points[|points| - 1], feed, fmt);
      CutsSingle(line);
    }
  }

  /** Line by line, a block holds no M code, and its only retract is to the safe height. */
  lemma BlockLineKinds(tp: Toolpath, cfg: MillingSettings, fmt: Formats)
    requires tp.segments.Some? && |tp.segments.value| > 0
    ensures forall k :: 0 <= k < |Block(tp, cfg, fmt)| ==> !IsMCode(Block(tp, cfg, fmt)[k])
    ensures forall k :: 0 <= k < |Block(tp, cfg, fmt)| && IsRetract(Block(tp, cfg, fmt)[k]) ==> Block(tp, cfg, fmt)[k] == SafeLine(cfg, fmt)
  {
    var points := tp.segments.value;
    var head := Approach(tp.comment, points[0], cfg, fmt);
    var moves := Moves(points, tp.feedRate, fmt);
    var tail := [SafeLine(cfg, fmt), ""];
    var b := Block(tp, cfg, fmt);
    assert b == head + moves + tail;
    MovesAt(points, tp.feedRate, fmt);
    forall k | 0 <= k < |b|
      ensures !IsMCode(b[k]) && (IsRetract(b[k]) ==> b[k] == SafeLine(cfg, fmt))
    {
      if k < 4 {
        assert b[k] == head[k];
      } else if k < 4 + |moves| {
        assert b[k] == moves[k - 4] == MoveLine(points[k - 4], tp.feedRate, fmt);
      } else {
        assert b[k] == tail[k - 4 - |moves|];
      }
    }
  }

  /** What a block holds: no M code, a retract only to the safe height, and the moves as its cuts. */
  lemma BlockShape(tp: Toolpath, cfg: MillingSettings, fmt: Formats)
    requires tp.segments.Some? && |tp.segments.value| > 0
    ensures forall k :: 0 <= k < |Block(tp, cfg, fmt)| ==> !IsMCode(Block(tp, cfg, fmt)[k])
    ensures forall k :: 0 <= k < |Block(tp, cfg, fmt)| && IsRetract(Block(tp, cfg, fmt)[k]) ==> Block(tp, cfg, fmt)[k] == SafeLine(cfg, fmt)
    ensures Cuts(Block(tp, cfg, fmt)) == Moves(tp.segments.value, tp.feedRate, fmt)
  {
    BlockLineKinds(tp, cfg, fmt);
    BlockCuts(tp, cfg, fmt);
  }

  /** The cuts of a block are its move lines: the approach and the retract hold none. */
  lemma BlockCuts(tp: Toolpath, cfg: MillingSettings, fmt: Formats)
    requires tp.segments.Some? && |tp.segments.value| > 0
    ensures Cuts(Block(tp, cfg, fmt)) == Moves(tp.segments.value, tp.feedRate, fmt)
  {
    var points := tp.segments.value;
    var head := Approach(tp.comment, points[0], cfg, fmt);
    var moves := Moves(points, tp.feedRate, fmt);
    var tail := [SafeLine(cfg, fmt), ""];
    assert Block(tp, cfg, fmt) == head + moves + tail;
    CutsNone(head);
    CutsNone(tail);
    CutsAppend(head, moves);
    CutsAppend(head + moves, tail);
    MovesAreCuts(points, tp.feedRate, fmt);
    assert [] + moves + [] == moves;
  }

  /** The moves of the toolpaths that are written, toolpath by toolpath, point by point. */
  function Cutting(tps: seq<Option<Toolpath>>, fmt: Formats): seq<string> {
    if tps == [] then []
    else
      var tp := tps[|tps| - 1];
      Cutting(tps[..|tps| - 1], fmt) + (if Emits(tp) then Moves(tp.value.segments.value, tp.value.feedRate, fmt) else [])
  }

  /** Six lines per written toolpath, plus one per point. */
  function BlockLines(tps: seq<Option<Toolpath>>): nat {
    if tps == [] then 0
    else
      var tp := tps[|tps| - 1];
      BlockLines(tps[..|tps| - 1]) + (if Emits(tp) then |tp.value.segments.value| + 6 else 0)
  }

  /** The toolpaths that are written, in order. */
  function Kept(tps: seq<Option<Toolpath>>): (kept: seq<Option<Toolpath>>)
    ensures |kept| <= |tps|
    ensures forall k :: 0 <= k < |kept| ==> Emits(kept[k])
  {
    if tps == [] then []
    else Kept(tps[..|tps| - 1]) + (if Emits(tps[|tps| - 1]) then [tps[|tps| - 1]] else [])
  }

  lemma {:induction false} BlocksShape(tps: seq<Option<Toolpath>>, cfg: MillingSettings, fmt: Formats)
    ensures |Blocks(tps, cfg, fmt)| == BlockLines(tps)
    ensures forall k :: 0 <= k < |Blocks(tps, cfg, fmt)| ==> !IsMCode(Blocks(tps, cfg, fmt)[k])
    ensures forall k :: 0 <= k < |Blocks(tps, cfg, fmt)| && IsRetract(Blocks(tps, cfg, fmt)[k]) ==> Blocks(tps, cfg, fmt)[k] == SafeLine(cfg, fmt)
    ensures Cuts(Blocks(tps, cfg, fmt)) == Cutting(tps, fmt)
    decreases |tps|
  {
    if tps != [] {
      var init, tp := tps[..|tps| - 1], tps[|tps| - 1];
      var a, b := Blocks(init, cfg, fmt), Emitted(tp, cfg, fmt);
      BlocksShape(init, cfg, fmt);
      if Emits(tp) {
        BlockShape(tp.value, cfg, fmt);
      }
      CutsAppend(a, b);
      forall k | 0 <= k < |a + b|
        ensures !IsMCode((a + b)[k]) && (IsRetract((a + b)[k]) ==> (a + b)[k] == SafeLine(cfg, fmt))
      {
        if k >= |a| {
          assert (a + b)[k] == b[k - |a|];
        }
      }
    }
  }

  /**
    Before any toolpath: the unit, positioning, plane and feed modes, homing, the retract to the
    safe height, and the M3 spindle start as line 12 and the only M code; no feed move.
  */
  lemma PreambleShape(cfg: MillingSettings, fmt: Formats, stamp: string)
    ensures Preamble(cfg, fmt, stamp)[4..8] == ["G21", "G90", "G17", "G94"]
    ensures Preamble(cfg, fmt, stamp)[9] == "G28" && Preamble(cfg, fmt, stamp)[10] == SafeLine(cfg, fmt)
    ensures Preamble(cfg, fmt, stamp)[12] == SpindleLine(cfg)
    ensures forall k :: 0 <= k < 15 ==> (IsMCode(Preamble(cfg, fmt, stamp)[k]) <==> k == 12)
    ensures forall k :: 0 <= k < 15 ==> !IsFeed(Preamble(cfg, fmt, stamp)[k])
    ensures forall k :: 0 <= k < 15 && IsRetract(Preamble(cfg, fmt, stamp)[k]) ==> k == 10 && Preamble(cfg, fmt, stamp)[k] == SafeLine(cfg, fmt)
  {
    var p := Preamble(cfg, fmt, stamp);
    var banner := Banner(cfg, fmt, stamp);
    var area := "; Area: " + fmt.general(cfg.workAreaX);
    assert area[0] == ';';
    var tool := area + "x" + fmt.general(cfg.workAreaY) + "x" + fmt.general(cfg.workAreaZ) + " mm | Tool: Ø";
    assert tool[0] == ';';
    assert banner[1] == tool + fmt.general(cfg.toolDiameter) + " mm";
    assert banner[0][0] == ';';
    assert banner[1][0] == ';';
    assert banner[2][0] == ';';
    var safe := "G0 Z" + fmt.f3(cfg.safeHeight) + " F" + fmt.f1(cfg.rapidFeedrate);
    assert SafeLine(cfg, fmt) == safe && safe[1] == '0';
    var spin := "M3 S" + IntToString(SpindleSpeed(cfg));
    assert SpindleLine(cfg) == spin && spin[0] == 'M' && spin[1] == '3';
    forall k | 0 <= k < 15
      ensures (IsMCode(p[k]) <==> k == 12) && !IsFeed(p[k]) && (IsRetract(p[k]) ==> k == 10 && p[k] == SafeLine(cfg, fmt))
    {
      if k < 3 {
        assert p[k] == banner[k];
      } else if k < 9 {
        assert p[k] == Modes[k - 3];
      }
    }
  }

  /** After the last toolpath: M5, a retract, the return over the origin, M2. */
  lemma PostambleShape(own: MillingSettings, fmt: Formats)
    ensures Postamble(own, fmt)[0] == "M5" && Postamble(own, fmt)[3] == "M2"
    ensures forall k :: 0 <= k < 4 ==> (IsMCode(Postamble(own, fmt)[k]) <==> k == 0 || k == 3)
    ensures forall k :: 0 <= k < 4 ==> !IsFeed(Postamble(own, fmt)[k])
    ensures forall k :: 0 <= k < 4 && IsRetract(Postamble(own, fmt)[k]) ==> k == 1 && Postamble(own, fmt)[k] == SafeLine(own, fmt)
  {
    var safe := "G0 Z" + fmt.f3(own.safeHeight) + " F" + fmt.f1(own.rapidFeedrate);
    assert SafeLine(own, fmt) == safe && safe[0] == 'G' && safe[1] == '0';
    var home := "G0 X0 Y0 F" + fmt.f1(own.rapidFeedrate);
    assert home[0] == 'G' && home[1] == '0' && home[3] == 'X';
  }

  /**
    The spindle brackets the cutting: the only M codes are the single M3 at line 12, before
    every G1 line, and the closing M5 and M2, after every G1 line.
  */
  lemma SpindleBracketsFeeds(tps: seq<Option<Toolpath>>, cfg: MillingSettings, own: MillingSettings, fmt: Formats, stamp: string)
    ensures var p := Program(tps, cfg, own, fmt, stamp);
      p[12] == SpindleLine(cfg) && p[|p| - 4] == "M5" && p[|p| - 1] == "M2"
    ensures var p := Program(tps, cfg, own, fmt, stamp);
      forall k :: 0 <= k < |p| && IsFeed(p[k]) ==> 12 < k < |p| - 4
    ensures var p := Program(tps, cfg, own, fmt, stamp);
      forall k :: 0 <= k < |p| && IsMCode(p[k]) ==> k == 12 || k == |p| - 4 || k == |p| - 1
  {
    var pre, body, post := Preamble(cfg, fmt, stamp), Blocks(tps, cfg, fmt), Postamble(own, fmt);
    var p := Program(tps, cfg, own, fmt, stamp);
    PreambleShape(cfg, fmt, stamp);
    BlocksShape(tps, cfg, fmt);
    PostambleShape(own, fmt);
    assert p == pre + body + post;
    forall k | 0 <= k < |p|
      ensures (IsFeed(p[k]) ==> 12 < k < |p| - 4) && (IsMCode(p[k]) ==> k == 12 || k == |p| - 4 || k == |p| - 1)
    {
      if k < 15 {
        assert p[k] == pre[k];
      } else if k < 15 + |body| {
        assert p[k] == body[k - 15];
      } else {
        assert p[k] == post[k - 15 - |body|];
      }
    }
    assert p[12] == pre[12];
    assert p[|p| - 4] == post[0] && p[|p| - 1] == post[3];
  }

  /** The cuts of the program are the moves to the points of the written toolpaths, in order. */
  lemma ProgramCuts(tps: seq<Option<Toolpath>>, cfg: MillingSettings, own: MillingSettings, fmt: Formats, stamp: string)
    ensures Cuts(Program(tps, cfg, own, fmt, stamp)) == Cutting(tps, fmt)
  {
    var pre, body, post := Preamble(cfg, fmt, stamp), Blocks(tps, cfg, fmt), Postamble(own, fmt);
    PreambleShape(cfg, fmt, stamp);
    PostambleShape(own, fmt);
    BlocksShape(tps, cfg, fmt);
    CutsNone(pre);
    CutsNone(post);
    CutsAppend(pre, body);
    CutsAppend(pre + body, post);
    assert [] + Cutting(tps, fmt) + [] == Cutting(tps, fmt);
  }

  /** Fifteen lines before, four after, and the blocks between. */
  lemma ProgramLength(tps: seq<Option<Toolpath>>, cfg: MillingSettings, own: MillingSettings, fmt: Formats, stamp: string)
    ensures |Program(tps, cfg, own, fmt, stamp)| == 19 + BlockLines(tps)
  {
    BlocksShape(tps, cfg, fmt);
  }

  /** Toolpaths that are null or have no points are passed over: only the others are written. */
  lemma {:induction false} SkippedToolpaths(tps: seq<Option<Toolpath>>, cfg: MillingSettings, fmt: Formats)
    ensures Blocks(tps, cfg, fmt) == Blocks(Kept(tps), cfg, fmt)
    decreases |tps|
  {
    if tps != [] {
      var init, tp := tps[..|tps| - 1], tps[|tps| - 1];
      SkippedToolpaths(init, cfg, fmt);
      if Emits(tp) {
        var kept := Kept(init) + [tp];
        assert kept[..|kept| - 1] == Kept(init);
      } else {
        assert Kept(tps) == Kept(init) + [];
        assert Kept(init) + [] == Kept(init);
        assert Blocks(init, cfg, fmt) + [] == Blocks(init, cfg, fmt);
      }
    }
  }

  /** With nothing to cut, the program is the preamble and the postamble alone. */
  lemma NothingToCut(tps: seq<Option<Toolpath>>, cfg: MillingSettings, own: MillingSettings, fmt: Formats, stamp: string)
    requires forall k :: 0 <= k < |tps| ==> !Emits(tps[k])
    ensures Program(tps, cfg, own, fmt, stamp) == Preamble(cfg, fmt, stamp) + Postamble(own, fmt)
  {
    SkippedToolpaths(tps, cfg, fmt);
    assert Kept(tps) == [] by {
      if Kept(tps) != [] {
        KeptFrom(tps, 0);
      }
    }
    assert Preamble(cfg, fmt, stamp) + [] == Preamble(cfg, fmt, stamp);
  }

  /** Every kept toolpath is one of the inputs. */
  lemma {:induction false} KeptFrom(tps: seq<Option<Toolpath>>, k: nat)
    requires k < |Kept(tps)|
    ensures exists i :: 0 <= i < |tps| && tps[i] == Kept(tps)[k]
    decreases |tps|
  {
    var init := tps[..|tps| - 1];
    if k < |Kept(init)| {
      KeptFrom(init, k);
      var i :| 0 <= i < |init| && init[i] == Kept(init)[k];
      assert tps[i] == Kept(tps)[k];
    } else {
      assert Kept(tps)[k] == tps[|tps| - 1];
    }
  }

  /**
    Every `G0 Z` line of the program rises to the safe height of `cfg`, except the one after
    the M5, which rises to the safe height of `own`.
  */
  lemma Retracts(tps: seq<Option<Toolpath>>, cfg: MillingSettings, own: MillingSettings, fmt: Formats, stamp: string)
    ensures var p := Program(tps, cfg, own, fmt, stamp);
      IsRetract(p[|p| - 3]) && p[|p| - 3] == SafeLine(own, fmt) && p[10] == SafeLine(cfg, fmt)
    ensures var p := Program(tps, cfg, own, fmt, stamp);
      forall k :: 0 <= k < |p| && k != |p| - 3 && IsRetract(p[k]) ==> p[k] == SafeLine(cfg, fmt)
  {
    var pre, body, post := Preamble(cfg, fmt, stamp), Blocks(tps, cfg, fmt), Postamble(own, fmt);
    var p := Program(tps, cfg, own, fmt, stamp);
    PreambleShape(cfg, fmt, stamp);
    BlocksShape(tps, cfg, fmt);
    PostambleShape(own, fmt);
    assert p == pre + body + post;
    forall k | 0 <= k < |p| && k != |p| - 3 && IsRetract(p[k])
      ensures p[k] == SafeLine(cfg, fmt)
    {
      if k < 15 {
        assert p[k] == pre[k];
      } else if k < 15 + |body| {
        assert p[k] == body[k - 15];
      } else {
        assert false;
      }
    }
    var safe := "G0 Z" + fmt.f3(own.safeHeight) + " F" + fmt.f1(own.rapidFeedrate);
    assert SafeLine(own, fmt) == safe && safe[0] == 'G' && safe[1] == '0' && safe[3] == 'Z';
    assert p[|p| - 3] == post[1] && p[10] == pre[10];
  }

  /** Two safe-height lines differ when the heights print differently with the same width. */
  lemma SafeLinesDiffer(a: MillingSettings, b: MillingSettings, fmt: Formats)
    requires fmt.f3(a.safeHeight) != fmt.f3(b.safeHeight) && |fmt.f3(a.safeHeight)| == |fmt.f3(b.safeHeight)|
    ensures SafeLine(a, fmt) != SafeLine(b, fmt)
  {
    var n := |fmt.f3(a.safeHeight)|;
    var la := "G0 Z" + fmt.f3(a.safeHeight) + " F" + fmt.f1(a.rapidFeedrate);
    var lb := "G0 Z" + fmt.f3(b.safeHeight) + " F" + fmt.f1(b.rapidFeedrate);
    assert la[4..4 + n] == fmt.f3(a.safeHeight);
    assert lb[4..4 + n] == fmt.f3(b.safeHeight);
  }

  /**
    The program as written with custom settings whose safe height is `h`, on an engine built
    without settings (as the slicing service builds it): it rises to `h` before cutting, but
    its final retract goes to the default 50 mm instead. With `:F3`, any `h` other than 50
    whose integer part has two digits prints with the width of "50.000".
  */
  lemma FinalRetractIgnoresSettings(tps: seq<Option<Toolpath>>, h: real, fmt: Formats, stamp: string)
    requires fmt.f3(h) != fmt.f3(50.0) && |fmt.f3(h)| == |fmt.f3(50.0)|
    ensures var cfg := DefaultSettings.(safeHeight := h);
      var p := Program(tps, cfg, DefaultSettings, fmt, stamp);
      p[10] == SafeLine(cfg, fmt) && IsRetract(p[|p| - 3]) && p[|p| - 3] != SafeLine(cfg, fmt)
  {
    var cfg := DefaultSettings.(safeHeight := h);
    Retracts(tps, cfg, DefaultSettings, fmt, stamp);
    SafeLinesDiffer(cfg, DefaultSettings, fmt);
  }

  /** With the argument's settings used for the closing lines too, every retract reaches its safe height. */
  lemma RetractsToSafeHeight(tps: seq<Option<Toolpath>>, cfg: MillingSettings, fmt: Formats, stamp: string)
    ensures var p := Program(tps, cfg, cfg, fmt, stamp);
      forall k :: 0 <= k < |p| && IsRetract(p[k]) ==> p[k] == SafeLine(cfg, fmt)
  {
    Retracts(tps, cfg, cfg, fmt, stamp);
  }

  /** `CamEngine`: the settings fixed at construction. */
  class CamEngine {
    const settings: MillingSettings

    /** `settings ?? new CNCMillingSettings()`. */
    constructor(settings: Option<MillingSettings>)
      ensures this.settings == settings.GetOr(DefaultSettings)
    {
      this.settings := settings.GetOr(DefaultSettings);
    }

    /**
      `GenerateGcode`: the program text for the toolpaths. `custom` is the settings argument
      (`None` for `null`); `stamp` is the clock reading as `yyyy-MM-dd HH:mm:ss`.
    */
    method GenerateGcode(toolpaths: seq<Option<Toolpath>>, custom: Option<MillingSettings>, fmt: Formats, stamp: string)
      returns (gcode: string)
      ensures gcode == Text(Program(toolpaths, custom.GetOr(settings), settings, fmt, stamp))
    {
      var cfg := custom.GetOr(settings);
      var sb := WritePreamble(cfg, fmt, stamp);
      sb := WriteToolpaths(sb, toolpaths, cfg, fmt);
      sb := WritePostamble(sb, settings, fmt);
      gcode := Text(sb);
    }

    /** `GenerateGcode` with the closing retract and return read from the same settings as the rest. */
    method GenerateGcodeIntended(toolpaths: seq<Option<Toolpath>>, custom: Option<MillingSettings>, fmt: Formats, stamp: string)
      returns (gcode: string)
      ensures gcode == Text(Program(toolpaths, custom.GetOr(settings), custom.GetOr(settings), fmt, stamp))
    {
      var cfg := custom.GetOr(settings);
      var sb := WritePreamble(cfg, fmt, stamp);
      sb := WriteToolpaths(sb, toolpaths, cfg, fmt);
      sb := WritePostamble(sb, cfg, fmt);
      gcode := Text(sb);
    }
  }

  /*
    The writers below hold the `StringBuilder` as the lines appended to it so far;
    `AppendLine(line)` is `sb + [line]` and `ToString()` is `Text(sb)`.
  */

  method WritePreamble(cfg: MillingSettings, fmt: Formats, stamp: string) returns (sb: seq<string>)
    ensures sb == Preamble(cfg, fmt, stamp)
  {
    sb := [];
    sb := sb + ["; " + "G-code generado por SlicerService (Motor CAM interno)"];
    sb := sb + ["; Area: " + fmt.general(cfg.workAreaX) + "x" + fmt.general(cfg.workAreaY) + "x"
      + fmt.general(cfg.workAreaZ) + " mm | Tool: Ø" + fmt.general(cfg.toolDiameter) + " mm"];
    sb := sb + ["; Fecha: " + stamp];
    assert sb == Banner(cfg, fmt, stamp);
    sb := sb + [""];
    sb := sb + ["G21"];
    sb := sb + ["G90"];
    sb := sb + ["G17"];
    sb := sb + ["G94"];
    sb := sb + [""];
    assert sb == Banner(cfg, fmt, stamp) + Modes;
    sb := sb + ["G28"];
    sb := sb + ["G0 Z" + fmt.f3(cfg.safeHeight) + " F" + fmt.f1(cfg.rapidFeedrate)];
    sb := sb + [""];
    sb := sb + ["M3 S" + IntToString(SpindleSpeed(cfg))];
    sb := sb + ["G4 P1"];
    sb := sb + [""];
  }

  lemma BlocksSnoc(tps: seq<Option<Toolpath>>, i: nat, cfg: MillingSettings, fmt: Formats)
    requires i < |tps|
    ensures Blocks(tps[..i + 1], cfg, fmt) == Blocks(tps[..i], cfg, fmt) + Emitted(tps[i], cfg, fmt)
  {
    assert tps[..i + 1][..i] == tps[..i];
  }

  /** One turn of the outer loop keeps the builder equal to the blocks written so far. */
  lemma WrittenSnoc(sb: seq<string>, before: seq<string>, after: seq<string>,
                    tps: seq<Option<Toolpath>>, i: nat, cfg: MillingSettings, fmt: Formats)
    requires i < |tps| && before == sb + Blocks(tps[..i], cfg, fmt)
    requires after == before + Emitted(tps[i], cfg, fmt)
    ensures after == sb + Blocks(tps[..i + 1], cfg, fmt)
  {
    Regroup(sb, Blocks(tps[..i], cfg, fmt), Emitted(tps[i], cfg, fmt), before, after);
    BlocksSnoc(tps, i, cfg, fmt);
  }

  lemma Regroup(sb: seq<string>, done: seq<string>, next: seq<string>, before: seq<string>, after: seq<string>)
    requires before == sb + done && after == before + next
    ensures after == sb + (done + next)
  {
  }

  /** The outer loop: the toolpaths in order; those without points are passed over. */
  method WriteToolpaths(sb: seq<string>, toolpaths: seq<Option<Toolpath>>, cfg: MillingSettings, fmt: Formats)
    returns (sb': seq<string>)
    ensures sb' == sb + Blocks(toolpaths, cfg, fmt)
  {
    sb' := sb;
    assert toolpaths[..0] == [] && sb + [] == sb;
    var i := 0;
    while i < |toolpaths|
      invariant i <= |toolpaths|
      invariant sb' == sb + Blocks(toolpaths[..i], cfg, fmt)
    {
      ghost var before := sb';
      sb' := WriteToolpath(sb', toolpaths[i], cfg, fmt);
      WrittenSnoc(sb, before, sb', toolpaths, i, cfg, fmt);
      i := i + 1;
    }
    assert toolpaths[..i] == toolpaths;
  }

  /** One toolpath: its block when it and its points are present and there are points, nothing otherwise. */
  method WriteToolpath(sb: seq<string>, tp: Option<Toolpath>, cfg: MillingSettings, fmt: Formats) returns (sb': seq<string>)
    ensures sb' == sb + Emitted(tp, cfg, fmt)
  {
    if !Emits(tp) {
      assert sb + [] == sb;
      return sb;
    }
    sb' := WriteBlock(sb, tp.value, cfg, fmt);
  }

  /** The block of one toolpath with points: the approach, one move per point, the retract. */
  method WriteBlock(sb: seq<string>, tp: Toolpath, cfg: MillingSettings, fmt: Formats) returns (sb': seq<string>)
    requires tp.segments.Some? && |tp.segments.value| > 0
    ensures sb' == sb + Block(tp, cfg, fmt)
  {
    var points := tp.segments.value;
    var first := points[0];
    sb' := sb + ["; " + tp.comment];
    var y0 := -first.y;
    sb' := sb' + ["G0 X" + fmt.f3(first.x) + " Y" + fmt.f3(y0) + " F" + fmt.f1(cfg.rapidFeedrate)];
    sb' := sb' + ["G0 Z" + fmt.f3(cfg.safeHeight) + " F" + fmt.f1(cfg.rapidFeedrate)];
    sb' := sb' + ["G1 Z" + fmt.f3(first.z) + " F" + fmt.f1(cfg.plungeFeedrate)];
    assert sb' == sb + Approach(tp.comment, first, cfg, fmt);
    sb' := WriteMoves(sb', points, tp.feedRate, fmt);
    sb' := sb' + ["G0 Z" + fmt.f3(cfg.safeHeight) + " F" + fmt.f1(cfg.rapidFeedrate)];
    sb' := sb' + [""];
  }

  /** The inner loop: one feed move per point, Y inverted. */
  method WriteMoves(sb: seq<string>, points: seq<PathPoint>, feed: real, fmt: Formats) returns (sb': seq<string>)
    ensures sb' == sb + Moves(points, feed, fmt)
  {
    sb' := sb;
    assert points[..0] == [] && sb + [] == sb;
    var j := 0;
    while j < |points|
      invariant j <= |points|
      invariant sb' == sb + Moves(points[..j], feed, fmt)
    {
      var p := points[j];
      var yInv := -p.y;
      sb' := sb' + ["G1 X" + fmt.f3(p.x) + " Y" + fmt.f3(yInv) + " Z" + fmt.f3(p.z) + " F" + fmt.f1(feed)];
      assert points[..j + 1][..j] == points[..j];
      j := j + 1;
    }
    assert points[..j] == points;
  }

  /** Spindle off, retract, return over the origin, end; from the settings `own`. */
  method WritePostamble(sb: seq<string>, own: MillingSettings, fmt: Formats) returns (sb': seq<string>)
    ensures sb' == sb + Postamble(own, fmt)
  {
    sb' := sb + ["M5"];
    sb' := sb' + ["G0 Z" + fmt.f3(own.safeHeight) + " F" + fmt.f1(own.rapidFeedrate)];
    sb' := sb' + ["G0 X0 Y0 F" + fmt.f1(own.rapidFeedrate)];
    sb' := sb' + ["M2"];
  }
}
