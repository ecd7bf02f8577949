/**
  The motion state machine of `InterpretadorGCode`: the machine position, the absolute or
  relative positioning mode and the current feed rate, the effect of each parsed command on
  them (`EjecutarComando`, `ProcesarMovimiento`, `Resetear`), and the whole-program parser
  `ParsearCodigoCompleto` that numbers the commands by line.

  `Step` and `Move` are the specification: they give the new machine state and the execution
  result of one command. The class `Interpreter` holds the state in fields, as the source does,
  and its methods are proved to follow `Step` and `Move`.
*/
module GCodeInterpreter {
  import opened Options
  import opened DotNetText
  import opened GCodeParsing

  datatype Position = Position(x: real, y: real, z: real)

  const Origin := Position(0.0, 0.0, 0.0)

  /** The feed rate (mm/min) the interpreter starts with and returns to on reset. */
  const DefaultFeed: real := 1500.0

  /**
    `DuracionSegundos`. A move along `delta` at feed rate `feed` (mm/min) lasts
    `sqrt(delta.x^2 + delta.y^2 + delta.z^2) / feed * 60` seconds; that arithmetic is kept
    symbolic, so a move's duration is given by its displacement and its feed rate.
    A result that is not a move has duration 0.
  */
  datatype Duration = NoTime | Travel(delta: Position, feed: real)

  /** `ResultadoEjecucion`. */
  datatype ExecResult = ExecResult(
    command: Command,
    requiresMovement: bool,  // RequiereMovimiento
    rapid: bool,             // EsMovimientoRapido
    start: Position,         // PosicionInicialX/Y/Z
    end: Position,           // PosicionFinalX/Y/Z
    duration: Duration,
    lineNumber: int)

  /** The interpreter's fields: position, `modoAbsoluto`, `velocidadAvance`. */
  datatype MachineState = MachineState(pos: Position, absolute: bool, feed: real)

  const InitialState := MachineState(Origin, true, DefaultFeed)

  /** The result a command starts with: no movement, every coordinate 0, no duration. */
  function Idle(c: Command): ExecResult {
    ExecResult(c, false, false, Origin, Origin, NoTime, c.lineNumber)
  }

  /** The new value of one axis: kept when the word is absent, set or offset when present. */
  function AxisTarget(current: real, word: Option<real>, absolute: bool): real {
    match word
    case None => current
    case Some(v) => if absolute then v else current + v
  }

  predicate HasAxis(c: Command) {
    c.x.Some? || c.y.Some? || c.z.Some?
  }

  function MoveTarget(s: MachineState, c: Command): Position {
    Position(
      AxisTarget(s.pos.x, c.x, s.absolute),
      AxisTarget(s.pos.y, c.y, s.absolute),
      AxisTarget(s.pos.z, c.z, s.absolute))
  }

  /** The displacement of a move from `a` to `b`, axis by axis. */
  function Displacement(a: Position, b: Position): Position {
    Position(b.x - a.x, b.y - a.y, b.z - a.z)
  }

  /** `ProcesarMovimiento` (G0 and G1): the new state and the result. */
  function Move(s: MachineState, c: Command): (r: (MachineState, ExecResult))
    ensures r.0.absolute == s.absolute && r.1.command == c && r.1.lineNumber == c.lineNumber
    ensures r.1.requiresMovement <==> HasAxis(c)
    ensures !HasAxis(c) ==> r.0.pos == s.pos
    ensures c.f.None? ==> r.0.feed == s.feed
    ensures c.f.Some? ==> r.0.feed == c.f.value
  {
    var feed := if c.f.Some? then c.f.value else s.feed;
    if HasAxis(c) then
      var target := MoveTarget(s, c);
      (MachineState(target, s.absolute, feed),
       ExecResult(c, true, c.number == 0, s.pos, target,
                  Travel(Displacement(s.pos, target), feed), c.lineNumber))
    else
      (MachineState(s.pos, s.absolute, feed), Idle(c))
  }

  /** `EjecutarComando` for a present command: the new state and the result. */
  function Step(s: MachineState, c: Command): (r: (MachineState, ExecResult))
    ensures r.1.lineNumber == c.lineNumber
    ensures c.letter != Some(G) ==> r == (s, Idle(c))
    ensures r.0.absolute != s.absolute ==> c.letter == Some(G) && (c.number == 90 || c.number == 91)
    ensures r.0.feed != s.feed ==> IsMove(c)
    ensures r.0.pos != s.pos ==> IsMove(c) || (c.letter == Some(G) && c.number == 28)
    ensures r.1.requiresMovement ==> IsMove(c) || (c.letter == Some(G) && c.number == 28)
  {
    if c.letter == Some(G) then
      if c.number == 0 || c.number == 1 then Move(s, c)
      else if c.number == 28 then
        (s.(pos := Origin), Idle(c).(requiresMovement := true))
      else if c.number == 90 then (s.(absolute := true), Idle(c))
      else if c.number == 91 then (s.(absolute := false), Idle(c))
      else (s, Idle(c))
    else (s, Idle(c))
  }

  /** Executing a sequence of commands in order: the final state and every result. */
  function Run(s: MachineState, cs: seq<Command>): (MachineState, seq<ExecResult>)
    decreases |cs|
  {
    if cs == [] then (s, [])
    else
      var (s1, r) := Step(s, cs[0]);
      var (s2, rs) := Run(s1, cs[1..]);
      (s2, [r] + rs)
  }

  /** A G0 or G1 command: the two commands `ProcesarMovimiento` handles. */
  predicate IsMove(c: Command) {
    c.letter == Some(G) && (c.number == 0 || c.number == 1)
  }

  /** Each axis word sets (absolute mode) or offsets (relative mode) its axis; absent words keep it. */
  lemma MoveAxes(s: MachineState, c: Command)
    requires IsMove(c)
    ensures var p := Step(s, c).0.pos;
      && (c.x.None? ==> p.x == s.pos.x)
      && (c.x.Some? && s.absolute ==> p.x == c.x.value)
      && (c.x.Some? && !s.absolute ==> p.x == s.pos.x + c.x.value)
      && (c.y.None? ==> p.y == s.pos.y)
      && (c.y.Some? && s.absolute ==> p.y == c.y.value)
      && (c.y.Some? && !s.absolute ==> p.y == s.pos.y + c.y.value)
      && (c.z.None? ==> p.z == s.pos.z)
      && (c.z.Some? && s.absolute ==> p.z == c.z.value)
      && (c.z.Some? && !s.absolute ==> p.z == s.pos.z + c.z.value)
  {
  }

  /**
    A G0/G1 result is a movement exactly when the command has an axis word; a movement runs from
    the old position to the new one, is rapid exactly for G0, and takes its duration from the
    displacement and the feed rate in force after the command. Without an axis word the
    position stays and the result is idle.
  */
  lemma MoveResult(s: MachineState, c: Command)
    requires IsMove(c)
    ensures var (s1, r) := Step(s, c);
      && (r.requiresMovement <==> HasAxis(c))
      && (r.requiresMovement ==> r.start == s.pos && r.end == s1.pos)
      && (r.requiresMovement ==> (r.rapid <==> c.number == 0))
      && (r.requiresMovement ==> r.duration == Travel(Displacement(s.pos, s1.pos), s1.feed))
      && (!r.requiresMovement ==> s1.pos == s.pos && r == Idle(c))
      && r.lineNumber == c.lineNumber
  {
  }

  /** A move has no displacement exactly when it ends where it starts. */
  lemma DisplacementZero(a: Position, b: Position)
    ensures Displacement(a, b) == Origin <==> a == b
  {
  }

  /** The feed rate changes only through the F word of a G0/G1 command. */
  lemma FeedUpdate(s: MachineState, c: Command)
    ensures Step(s, c).0.feed == if IsMove(c) && c.f.Some? then c.f.value else s.feed
  {
  }

  /** The positioning mode changes only through G90 (absolute) and G91 (relative). */
  lemma ModeUpdate(s: MachineState, c: Command)
    ensures Step(s, c).0.absolute ==
      if c.letter == Some(G) && c.number == 90 then true
      else if c.letter == Some(G) && c.number == 91 then false
      else s.absolute
  {
  }

  /** G28 sends the machine home and reports a movement ending at the origin. */
  lemma HomeCommand(s: MachineState, c: Command)
    requires c.letter == Some(G) && c.number == 28
    ensures var (s1, r) := Step(s, c);
      s1 == s.(pos := Origin) && r.requiresMovement && r.end == Origin && !r.rapid
  {
  }

  /**
    Only G0, G1 and G28 move the machine, and only G commands change the state at all: M commands,
    lines without a command letter and unknown G numbers leave it as it was and report no movement.
  */
  lemma NonMovingCommands(s: MachineState, c: Command)
    requires !IsMove(c) && !(c.letter == Some(G) && c.number == 28)
    ensures Step(s, c).0.pos == s.pos && !Step(s, c).1.requiresMovement
    ensures c.letter != Some(G) ==> Step(s, c).0 == s
  {
  }

  /** In absolute mode, executing the same command twice leaves the machine as executing it once. */
  lemma AbsoluteIdempotent(s: MachineState, c: Command)
    requires s.absolute
    ensures Step(Step(s, c).0, c).0 == Step(s, c).0
  {
  }

  /** The offset a move adds in relative mode: each axis word, 0 for an absent one. */
  function Offset(c: Command): Position {
    Position(c.x.GetOr(0.0), c.y.GetOr(0.0), c.z.GetOr(0.0))
  }

  function Translate(p: Position, d: Position): Position {
    Position(p.x + d.x, p.y + d.y, p.z + d.z)
  }

  function TotalOffset(cs: seq<Command>): Position
    decreases |cs|
  {
    if cs == [] then Origin else Translate(Offset(cs[0]), TotalOffset(cs[1..]))
  }

  /** In relative mode a run of G0/G1 commands ends at the start position plus the sum of their words. */
  lemma {:induction false} RelativeMovesAccumulate(s: MachineState, cs: seq<Command>)
    requires !s.absolute
    requires forall k :: 0 <= k < |cs| ==> IsMove(cs[k])
    ensures Run(s, cs).0.pos == Translate(s.pos, TotalOffset(cs))
    ensures !Run(s, cs).0.absolute
    decreases |cs|
  {
    if cs != [] {
      assert IsMove(cs[0]);
      var s1 := Step(s, cs[0]).0;
      assert s1.pos == Translate(s.pos, Offset(cs[0])) && !s1.absolute;
      RelativeMovesAccumulate(s1, cs[1..]);
      assert Run(s, cs).0 == Run(s1, cs[1..]).0;
      assert TotalOffset(cs) == Translate(Offset(cs[0]), TotalOffset(cs[1..]));
    } else {
      assert Run(s, cs).0 == s && TotalOffset(cs) == Origin;
    }
  }

  /** The command with every axis word negated. */
  function Reversed(c: Command): Command {
    c.(x := Negate(c.x), y := Negate(c.y), z := Negate(c.z))
  }

  function Negate(w: Option<real>): Option<real> {
    match w
    case None => None
    case Some(v) => Some(-v)
  }

  /** In relative mode, a move followed by its reversal returns the machine to where it was. */
  lemma RelativeInverse(s: MachineState, c: Command)
    requires !s.absolute && IsMove(c)
    ensures Step(Step(s, c).0, Reversed(c)).0.pos == s.pos
  {
  }

  /** Every command of a run yields one result, carrying that command's line number. */
  lemma {:induction false} RunResults(s: MachineState, cs: seq<Command>)
    ensures |Run(s, cs).1| == |cs|
    ensures forall k :: 0 <= k < |cs| ==> Run(s, cs).1[k].command == cs[k]
    ensures forall k :: 0 <= k < |cs| ==> Run(s, cs).1[k].lineNumber == cs[k].lineNumber
    decreases |cs|
  {
    if cs != [] {
      var (s1, r) := Step(s, cs[0]);
      RunResults(s1, cs[1..]);
      var rs := Run(s1, cs[1..]).1;
      assert Run(s, cs).1 == [r] + rs;
      forall k | 1 <= k < |cs|
        ensures Run(s, cs).1[k] == rs[k - 1] && cs[k] == cs[1..][k - 1]
      {
      }
    }
  }

  class Interpreter {
    var x: real
    var y: real
    var z: real
    var absolute: bool
    var feed: real

    function State(): MachineState
      reads this
    {
      MachineState(Position(x, y, z), absolute, feed)
    }

    constructor()
      ensures State() == InitialState
    {
      x, y, z := 0.0, 0.0, 0.0;
      absolute := true;
      feed := DefaultFeed;
    }

    /** `EjecutarComando`: no result and no change for a missing command, otherwise one `Step`. */
    method Execute(c: Option<Command>) returns (r: Option<ExecResult>)
      modifies this
      ensures c.None? ==> r.None? && State() == old(State())
      ensures c.Some? ==> r == Some(Step(old(State()), c.value).1)
      ensures c.Some? ==> State() == Step(old(State()), c.value).0
    {
      if c.None? {
        return None;
      }
      var command := c.value;
      var result := Idle(command);
      if command.letter == Some(G) {
        if command.number == 0 || command.number == 1 {
          result := ProcessMove(command);
        } else if command.number == 28 {
          x, y, z := 0.0, 0.0, 0.0;
          result := result.(requiresMovement := true, end := Origin);
        } else if command.number == 90 {
          absolute := true;
        } else if command.number == 91 {
          absolute := false;
        }
      }
      return Some(result);
    }

    /** `ProcesarMovimiento`. */
    method ProcessMove(c: Command) returns (r: ExecResult)
      modifies this
      ensures (State(), r) == Move(old(State()), c)
    {
      r := Idle(c);
      var nx, ny, nz := x, y, z;
      if c.x.Some? {
        nx := if absolute then c.x.value else x + c.x.value;
        r := r.(requiresMovement := true);
      }
      if c.y.Some? {
        ny := if absolute then c.y.value else y + c.y.value;
        r := r.(requiresMovement := true);
      }
      if c.z.Some? {
        nz := if absolute then c.z.value else z + c.z.value;
        r := r.(requiresMovement := true);
      }
      if c.f.Some? {
        feed := c.f.value;
      }
      if r.requiresMovement {
        var start := Position(x, y, z);
        var target := Position(nx, ny, nz);
        r := r.(duration := Travel(Displacement(start, target), feed), start := start, end := target);
        x, y, z := nx, ny, nz;
        r := r.(rapid := c.number == 0);
      }
    }

    /** `Resetear`. */
    method Reset()
      modifies this
      ensures State() == InitialState
    {
      x, y, z := 0.0, 0.0, 0.0;
      absolute := true;
      feed := DefaultFeed;
    }

    /**
      `ParsearCodigoCompleto`: the code is split at '\r' and '\n' with empty pieces dropped, and
      each piece that parses to a command is kept, numbered by its 1-based place among the pieces.
    */
    method ParseProgram(code: string, num: string -> real) returns (cmds: seq<Command>)
      ensures cmds == Numbered(ParseAll(Split(code, LineBreaks), num))
    {
      var lines := Split(code, LineBreaks);
      ghost var parsed := ParseAll(lines, num);
      cmds := [];
      var i := 0;
      while i < |lines|
        invariant 0 <= i <= |lines|
        invariant cmds == Numbered(parsed[..i])
      {
        var command := ParseLine(lines[i], num);
        assert parsed[..i + 1][..i] == parsed[..i];
        assert parsed[..i + 1][i] == command;
        if command.Some? {
          cmds := cmds + [command.value.(lineNumber := i + 1)];
        }
        i := i + 1;
      }
      assert parsed[..i] == parsed;
    }
  }

  /** The parse of every line, in order. */
  function ParseAll(lines: seq<string>, num: string -> real): (parsed: seq<Option<Command>>)
    ensures |parsed| == |lines|
    ensures forall i :: 0 <= i < |lines| ==> parsed[i] == ParseLine(lines[i], num)
  {
    seq(|lines|, i requires 0 <= i < |lines| => ParseLine(lines[i], num))
  }

  /** The present commands among the parsed lines, each numbered by its 1-based line. */
  function Numbered(parsed: seq<Option<Command>>): seq<Command>
  {
    if parsed == [] then []
    else
      var earlier := Numbered(parsed[..|parsed| - 1]);
      match parsed[|parsed| - 1]
      case None => earlier
      case Some(c) => earlier + [c.(lineNumber := |parsed|)]
  }

  /** Each numbered command is the parsed command of the line its number names, in line order. */
  lemma {:induction false} NumberedSound(parsed: seq<Option<Command>>)
    ensures forall k :: 0 <= k < |Numbered(parsed)| ==> 1 <= Numbered(parsed)[k].lineNumber <= |parsed|
    ensures forall k, m :: 0 <= k < m < |Numbered(parsed)| ==>
      Numbered(parsed)[k].lineNumber < Numbered(parsed)[m].lineNumber
    ensures forall k :: 0 <= k < |Numbered(parsed)| ==>
      var c := Numbered(parsed)[k];
      parsed[c.lineNumber - 1].Some? && parsed[c.lineNumber - 1].value.(lineNumber := c.lineNumber) == c
  {
    if parsed != [] {
      var n := |parsed|;
      var before := parsed[..n - 1];
      NumberedSound(before);
      var earlier := Numbered(before);
      match parsed[n - 1]
      case None =>
        assert Numbered(parsed) == earlier;
        forall k | 0 <= k < |earlier|
          ensures 1 <= earlier[k].lineNumber <= n - 1
          ensures parsed[earlier[k].lineNumber - 1] == before[earlier[k].lineNumber - 1]
        {
          assert 1 <= earlier[k].lineNumber <= |before|;
        }
      case Some(c) =>
        var cmds := earlier + [c.(lineNumber := n)];
        assert Numbered(parsed) == cmds;
        forall k | 0 <= k < |cmds|
          ensures 1 <= cmds[k].lineNumber <= n
          ensures parsed[cmds[k].lineNumber - 1].Some?
          ensures parsed[cmds[k].lineNumber - 1].value.(lineNumber := cmds[k].lineNumber) == cmds[k]
        {
          if k < |earlier| {
            assert cmds[k] == earlier[k];
            assert 1 <= earlier[k].lineNumber <= |before|;
            assert parsed[earlier[k].lineNumber - 1] == before[earlier[k].lineNumber - 1];
          }
        }
    }
  }

  /** Every line that parses to a command appears in the numbered program. */
  lemma {:induction false} NumberedComplete(parsed: seq<Option<Command>>, i: nat)
    requires i < |parsed| && parsed[i].Some?
    ensures exists k :: 0 <= k < |Numbered(parsed)| && Numbered(parsed)[k].lineNumber == i + 1
  {
    var n := |parsed|;
    var before := parsed[..n - 1];
    var earlier := Numbered(before);
    if i == n - 1 {
      var cmds := Numbered(parsed);
      assert cmds[|earlier|].lineNumber == n;
    } else {
      assert before[i] == parsed[i];
      NumberedComplete(before, i);
      var k :| 0 <= k < |earlier| && earlier[k].lineNumber == i + 1;
      assert Numbered(parsed)[k] == earlier[k];
    }
  }
}
