/**
 The whole of excellon2mill.py below its text output: scan the Excellon lines,
 sort the holes, and plan every hole's moves (lines 32-86).
 */
module Excellon2Mill {
  import opened Wrappers
  import opened Excellon
  import opened HoleOrder
  import opened GCode
  import opened Helix

  /** What the script writes for `lines`, as moves, or the exception that stops it. */
  function Conversion(s: Setup, lines: seq<Line>): Result<seq<Move>, ParseError>
    requires ValidSetup(s)
  {
    match Run(Start, lines)
    case Failure(e) => Failure(e)
    case Success(st) => Success(Program(s, Sort(ByX, Sort(ByY, st.holes))))
  }

  /** The script's main line: parse, sort in place, then generate hole by hole. */
  method Convert(s: Setup, lines: seq<Line>) returns (r: Result<seq<Move>, ParseError>)
    requires ValidSetup(s)
    ensures r == Conversion(s, lines)
  {
    var parsed := Interpret(lines);
    if parsed.Failure? {
      return Failure(parsed.error);
    }
    var holes := parsed.value.holes;
    var a := new Hole[|holes|](i requires 0 <= i < |holes| => holes[i]);
    assert a[..] == holes;
    OrderHoles(a);
    var moves := PlanHoles(s, a);
    r := Success(moves);
  }

  /**
   End to end: a successful run machines every parsed hole, each once, in order
   of x and then y, each with a diameter from the tool table, and cuts exactly
   what each hole's plan promises.
   */
  lemma ConversionMachinesEveryHole(s: Setup, lines: seq<Line>, m: Machine)
    requires ValidSetup(s) && !m.relative
    requires Run(Start, lines).Success?
    ensures var st := Run(Start, lines).value;
      var order := Sort(ByX, Sort(ByY, st.holes));
      && Conversion(s, lines) == Success(Program(s, order))
      && multiset(order) == multiset(st.holes)
      && XThenY(order)
      && (forall h :: h in order ==> h.diameter in st.tools)
      && Cuts(m, Program(s, order)) == ProgramCuts(s, order)
  {
    var st := Run(Start, lines).value;
    var order := Sort(ByX, Sort(ByY, st.holes));
    TwoPassOrder(st.holes);
    HoleSizesAreToolSizes(lines);
    forall h | h in order
      ensures h.diameter in st.tools
    {
      assert h in multiset(order);
    }
    ProgramEffect(s, order, m);
  }

  // ---------------------------------------------------------------------------
  // The script's own settings

  lemma DefaultsAreValid()
    ensures ValidSetup(Defaults)
    ensures Defaults.engagement == 0.24
  {
  }

  /** With the script's constants, in exact arithmetic, a hole is bored exactly when it is at least 0.88 mm wide. */
  lemma DefaultThreshold(h: Hole)
    ensures Eligible(Defaults, h) <==> h.diameter >= 0.88
  {
  }

  /** A 2 mm hole: `delta` is 0.6 mm, bored in ceil(2.5) = 3 passes of 0.2 mm. */
  lemma DefaultTwoMillimetreHole(x: real, y: real)
    ensures Eligible(Defaults, Hole(x, y, 2.0))
    ensures Excess(Defaults, Hole(x, y, 2.0)) == 0.6
    ensures PassCount(Defaults, Hole(x, y, 2.0)) == 3
    ensures PassStep(Defaults, Hole(x, y, 2.0)) == 0.2
    ensures Turns(Defaults) == 6
  {
    assert (-2.5).Floor == -3;
    assert (-(1.75 / 0.8)).Floor == -3;
  }

  /** The lines of a one-tool file with two holes at (1 in, 0) and (0, 0.5 in). */
  function SmallFile(): seq<Line>
  {
    [Percent, ToolLine(1, 0.032), Percent, ToolLine(1, 0.0), HoleLine(10000.0, 0.0), HoleLine(0.0, 5000.0)]
  }

  /**
   Scanning the small file: the tool `T01` of 0.032 in is 0.8128 mm, and both
   holes, converted from ten-thousandths of an inch, carry that size in file order.
   */
  lemma SmallFileParses()
    ensures Run(Start, SmallFile())
      == Success(ParseState(2, [0.8128], [Hole(25.4, 0.0, 0.8128), Hole(0.0, 12.7, 0.8128)], Some(0.8128)))
  {
    var lines := SmallFile();
    var st := ParseState(2, [0.8128], [Hole(25.4, 0.0, 0.8128), Hole(0.0, 12.7, 0.8128)], Some(0.8128));
    var s1 := ParseState(1, [], [], None);
    var s2 := s1.(tools := [0.8128]);
    var s3 := s2.(section := 2);
    SmallFileHoles();
    SmallFileTools();
    var holeLines := [HoleLine(10000.0, 0.0), HoleLine(0.0, 5000.0)];
    RunFirstStep(s3, ToolLine(1, 0.0), holeLines, st);
    RunFirstStep(s2, Percent, [ToolLine(1, 0.0)] + holeLines, st);
    RunFirstStep(s1, ToolLine(1, 0.032), [Percent] + ([ToolLine(1, 0.0)] + holeLines), st);
    RunFirstStep(Start, Percent, [ToolLine(1, 0.032)] + ([Percent] + ([ToolLine(1, 0.0)] + holeLines)), st);
    assert lines == [Percent] + ([ToolLine(1, 0.032)] + ([Percent] + ([ToolLine(1, 0.0)] + holeLines)));
  }

  /** The small file's tool lines: `T01` defined as 0.032 in, then selected. */
  lemma SmallFileTools()
    ensures Step(ParseState(1, [], [], None), ToolLine(1, 0.032)) == Success(ParseState(1, [0.8128], [], None))
    ensures Step(ParseState(2, [0.8128], [], None), ToolLine(1, 0.0)) == Success(ParseState(2, [0.8128], [], Some(0.8128)))
  {
    assert Padded([], 1) == [0.0];
    assert [0.0][0 := InchesToMm(0.032)] == [0.8128];
  }

  /** The small file's two hole lines, read once `T01` is selected. */
  lemma SmallFileHoles()
    ensures var s4 := ParseState(2, [0.8128], [], Some(0.8128));
      Run(s4, [HoleLine(10000.0, 0.0), HoleLine(0.0, 5000.0)])
        == Success(s4.(holes := [Hole(25.4, 0.0, 0.8128), Hole(0.0, 12.7, 0.8128)]))
  {
    var first, second := Hole(0.0, 12.7, 0.8128), Hole(25.4, 0.0, 0.8128);
    var s4 := ParseState(2, [0.8128], [], Some(0.8128));
    var s5 := s4.(holes := [second]);
    var st := s4.(holes := [second, first]);
    assert Step(s5, HoleLine(0.0, 5000.0)) == Success(st) by {
      assert CoordToMm(0.0) == 0.0 && CoordToMm(5000.0) == 12.7;
      assert [second] + [first] == [second, first];
    }
    assert Step(s4, HoleLine(10000.0, 0.0)) == Success(s5) by {
      assert CoordToMm(0.0) == 0.0 && CoordToMm(10000.0) == 25.4;
      assert [] + [second] == [second];
    }
    RunFirstStep(s5, HoleLine(0.0, 5000.0), [], st);
    RunFirstStep(s4, HoleLine(10000.0, 0.0), [HoleLine(0.0, 5000.0)], st);
  }

  /** One step of the scan followed by the rest. */
  lemma RunFirstStep(st: ParseState, line: Line, rest: seq<Line>, last: ParseState)
    requires Step(st, line).Success? && Run(Step(st, line).value, rest) == Success(last)
    ensures Run(st, [line] + rest) == Success(last)
  {
    assert ([line] + rest)[1..] == rest;
  }

  /** The two holes share y's order with the file, and sorting by x swaps them. */
  lemma SmallFileOrder(first: Hole, second: Hole)
    requires first == Hole(0.0, 12.7, 0.8128) && second == Hole(25.4, 0.0, 0.8128)
    ensures Sort(ByX, Sort(ByY, [second, first])) == [first, second]
  {
    assert [second, first][..1] == [second];
    assert Sort(ByY, [second]) == [second] by {
      assert [second][..0] == [];
    }
    assert Sort(ByY, [second, first]) == [second, first] by {
      assert InsertPos(ByY, [second], first) == 1;
      assert [second][..1] + [first] + [second][1..] == [second, first];
    }
    assert Sort(ByX, [second]) == [second] by {
      assert [second][..0] == [];
    }
    assert InsertPos(ByX, [second], first) == 0 by {
      assert [second][..0] == [];
    }
    assert [second][..0] + [first] + [second][0..] == [first, second];
  }

  /** Two holes too narrow to bore: each is drilled and left. */
  lemma SmallHolePlans(first: Hole, second: Hole)
    requires first.diameter < 0.88 && second.diameter < 0.88
    ensures Program(Defaults, [first, second])
      == PilotMoves(Defaults, first) + RetractMoves() + PilotMoves(Defaults, second) + RetractMoves()
  {
    DefaultsAreValid();
    DefaultThreshold(first);
    DefaultThreshold(second);
    assert [first, second][..1] == [first];
    assert [first][..0] == [];
    assert HolePlan(Defaults, first) == PilotMoves(Defaults, first) + RetractMoves();
    assert HolePlan(Defaults, second) == PilotMoves(Defaults, second) + RetractMoves();
    assert Program(Defaults, [first]) == HolePlan(Defaults, first);
  }

  /**
   Both holes of the small file are narrower than 0.88 mm, so each gets the
   pilot and the retract only, and they come out in order of x.
   */
  lemma SmallHolesArePilotOnly()
    ensures var first, second := Hole(0.0, 12.7, 0.8128), Hole(25.4, 0.0, 0.8128);
      Conversion(Defaults, SmallFile())
        == Success(PilotMoves(Defaults, first) + RetractMoves() + PilotMoves(Defaults, second) + RetractMoves())
  {
    var first, second := Hole(0.0, 12.7, 0.8128), Hole(25.4, 0.0, 0.8128);
    SmallFileParses();
    SmallFileOrder(first, second);
    SmallHolePlans(first, second);
  }
}
