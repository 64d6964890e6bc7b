/**
 The motion commands excellon2mill.py writes for each hole, as data, and a
 reference semantics for them: where each command leaves the tool, and what
 material each cutting command removes.

 The semantics follows the usual RS-274 reading of the commands the script
 uses: G90/G91 switch between absolute and relative coordinates; G0 and G1 move
 along the axes they name; G2 with full turns ends where it starts, around the
 centre given by the incremental offsets I and J, while Z moves to its target;
 G83 pecks down to its Z word and ends at the higher of the starting height
 and its R plane; F sets the modal feed rate. The script starts every G83 on
 the surface, below its R plane, so that end height is the R plane under
 either retract mode, G98 or G99.
 */
module GCode {
  import opened Wrappers

  datatype Move =
    | RapidXY(x: real, y: real)                      // G0 X.. Y..
    | RapidZ(z: real)                                // G0 Z..
    | FeedZ(z: real, feed: Option<nat>)              // G1 Z.. [F..]
    | FeedY(y: real)                                 // G1 Y..
    | FeedXY(x: real, y: real)                       // G1 X.. Y..
    | PeckDrill(retract: real, peck: real, z: real)  // G83 R.. Q.. Z..
    | HelixCW(z: real, i: real, j: real, turns: int) // G2 Z.. I.. J.. P..
    | RelativeMode                                   // G91
    | AbsoluteMode                                   // G90
    | SetFeed(rate: nat)                             // F..

  /** Tool position, distance mode and modal feed rate. */
  datatype Machine = Machine(x: real, y: real, z: real, relative: bool, feed: nat)

  /** The material a command removes. */
  datatype Cut =
    | Drilled(x: real, y: real, bottom: real)
    | Bored(centreX: real, centreY: real, fromX: real, fromY: real, fromZ: real, toZ: real)

  /** The new value of one axis under the current distance mode. */
  function Axis(relative: bool, current: real, word: real): real
  {
    if relative then current + word else word
  }

  function Exec(m: Machine, mv: Move): Machine
  {
    match mv
    case RapidXY(x, y) => m.(x := Axis(m.relative, m.x, x), y := Axis(m.relative, m.y, y))
    case FeedXY(x, y) => m.(x := Axis(m.relative, m.x, x), y := Axis(m.relative, m.y, y))
    case RapidZ(z) => m.(z := Axis(m.relative, m.z, z))
    case FeedZ(z, f) => m.(z := Axis(m.relative, m.z, z), feed := if f.Some? then f.value else m.feed)
    case FeedY(y) => m.(y := Axis(m.relative, m.y, y))
    case PeckDrill(r, q, z) =>
      var plane := Axis(m.relative, m.z, r);
      m.(z := if m.z > plane then m.z else plane)
    case HelixCW(z, i, j, p) => m.(z := Axis(m.relative, m.z, z))
    case RelativeMode => m.(relative := true)
    case AbsoluteMode => m.(relative := false)
    case SetFeed(f) => m.(feed := f)
  }

  /** What one command cuts, started from `m`. */
  function CutOf(m: Machine, mv: Move): seq<Cut>
  {
    match mv
    case PeckDrill(r, q, z) =>
      var plane := Axis(m.relative, m.z, r);
      [Drilled(m.x, m.y, if m.relative then plane + z else z)]
    case HelixCW(z, i, j, p) => [Bored(m.x + i, m.y + j, m.x, m.y, m.z, Axis(m.relative, m.z, z))]
    case _ => []
  }

  /** The machine state after running `ms` from `m`. */
  function ExecAll(m: Machine, ms: seq<Move>): Machine
    decreases |ms|
  {
    if ms == [] then m else ExecAll(Exec(m, ms[0]), ms[1..])
  }

  /** Everything `ms` cuts, in order, when run from `m`. */
  function Cuts(m: Machine, ms: seq<Move>): seq<Cut>
    decreases |ms|
  {
    if ms == [] then [] else CutOf(m, ms[0]) + Cuts(Exec(m, ms[0]), ms[1..])
  }

  /** The machine state after each command of `ms`, run from `m`, in order. */
  function Trace(m: Machine, ms: seq<Move>): (t: seq<Machine>)
    ensures |t| == |ms|
    decreases |ms|
  {
    if ms == [] then [] else [Exec(m, ms[0])] + Trace(Exec(m, ms[0]), ms[1..])
  }

  /** The trace of two command sequences run one after the other. */
  lemma {:induction false} TraceAppend(m: Machine, a: seq<Move>, b: seq<Move>)
    ensures Trace(m, a + b) == Trace(m, a) + Trace(ExecAll(m, a), b)
    decreases |a|
  {
    if a == [] {
      assert a + b == b;
    } else {
      assert (a + b)[0] == a[0] && (a + b)[1..] == a[1..] + b;
      TraceAppend(Exec(m, a[0]), a[1..], b);
    }
  }

  lemma TraceCons(m: Machine, mv: Move, rest: seq<Move>)
    ensures Trace(m, [mv] + rest) == [Exec(m, mv)] + Trace(Exec(m, mv), rest)
  {
    assert ([mv] + rest)[0] == mv && ([mv] + rest)[1..] == rest;
  }

  /** Running two command sequences one after the other. */
  lemma {:induction false} RunAppend(m: Machine, a: seq<Move>, b: seq<Move>)
    ensures ExecAll(m, a + b) == ExecAll(ExecAll(m, a), b)
    ensures Cuts(m, a + b) == Cuts(m, a) + Cuts(ExecAll(m, a), b)
    decreases |a|
  {
    if a == [] {
      assert a + b == b;
    } else {
      assert (a + b)[0] == a[0] && (a + b)[1..] == a[1..] + b;
      RunAppend(Exec(m, a[0]), a[1..], b);
    }
  }

  /** Running one command, then the rest. */
  lemma RunCons(m: Machine, mv: Move, rest: seq<Move>)
    ensures ExecAll(m, [mv] + rest) == ExecAll(Exec(m, mv), rest)
    ensures Cuts(m, [mv] + rest) == CutOf(m, mv) + Cuts(Exec(m, mv), rest)
  {
    assert ([mv] + rest)[0] == mv && ([mv] + rest)[1..] == rest;
  }
}
