/**
 The Excellon record interpreter of excellon2mill.py (lines 32-59).

 The script reads its input line by line and keeps four pieces of global state:
 the section counter `state`, the tool table `tools`, the hole list `holes` and
 `current_tool_size`. A `%` line advances the section. In section 1 a `T` line
 defines a tool; in section 2 a `T` line selects a tool and an `X..Y..` line
 records a hole. Lines are taken here as already split into their fields.
 */
module Excellon {
  import opened Wrappers

  /** One input line, classified by its first character. */
  datatype Line =
    | Percent                            // a line starting with '%'
    | ToolLine(number: nat, inches: real) // 'T', two digits, and (in a definition) the size after column 4
    | HoleLine(x: real, y: real)         // 'X<number>Y<number>', in ten-thousandths of an inch
    | OtherLine                          // any other first character
    | Blank                              // empty once stripped: `line[0]` has no character

  /** A recorded hole, in millimetres. */
  datatype Hole = Hole(x: real, y: real, diameter: real)

  /** The conditions under which the script stops with a Python exception. */
  datatype ParseError =
    | ToolIndexOutOfRange(number: nat)   // IndexError on `tools[...]`
    | NoToolSelected                     // NameError: `current_tool_size` never assigned
    | EmptyLine                          // IndexError on `line[0]` of a blank line

  /** The script's global state while it scans the input. */
  datatype ParseState = ParseState(section: nat, tools: seq<real>, holes: seq<Hole>, current: Option<real>)

  const Start := ParseState(0, [], [], None)

  const MillimetresPerInch: real := 25.4

  /** Inches to millimetres, as a tool definition converts its size. */
  function InchesToMm(inches: real): real { inches * MillimetresPerInch }

  /** A coordinate field in ten-thousandths of an inch, converted to millimetres. */
  function CoordToMm(field: real): real { field * MillimetresPerInch / 10000.0 }

  /**
   Python's list subscript `l[i]` on a list of length `len`: a negative `i`
   counts from the end; anything outside `-len .. len-1` raises IndexError.
   */
  function PyIndex(len: nat, i: int): (k: Option<nat>)
    ensures k.Some? <==> -(len as int) <= i < len
    ensures k.Some? ==> k.value < len && (if i >= 0 then k.value == i else k.value == len + i)
  {
    if 0 <= i < len then Some(i)
    else if -(len as int) <= i < 0 then Some(len + i)
    else None
  }

  /** The tool table after `while len(tools) < index: tools.append(0)`. */
  function Padded(tools: seq<real>, n: nat): (r: seq<real>)
    ensures |r| == if |tools| < n then n else |tools|
    ensures r[..|tools|] == tools
    ensures forall j :: |tools| <= j < |r| ==> r[j] == 0.0
    decreases n - |tools|
  {
    if |tools| >= n then tools else Padded(tools + [0.0], n)
  }

  /**
   A tool definition `T<number>` of size `mm`: pad the table with zeros up to
   `number` entries, then assign entry `number - 1` (Python index -1, the last
   entry, for `T00`).
   */
  function DefineTool(tools: seq<real>, number: nat, mm: real): (r: Result<seq<real>, ParseError>)
    ensures number >= 1 ==> r.Success?
    ensures number >= 1 ==>
      && |r.value| == (if |tools| < number then number else |tools|)
      && r.value[number - 1] == mm
      && (forall j :: 0 <= j < |tools| && j != number - 1 ==> r.value[j] == tools[j])
      && (forall j :: |tools| <= j < number - 1 ==> r.value[j] == 0.0)
    ensures number == 0 ==>
      r == if tools == [] then Failure(ToolIndexOutOfRange(0)) else Success(tools[|tools| - 1 := mm])
  {
    var padded := Padded(tools, number);
    match PyIndex(|padded|, number - 1)
    case None => Failure(ToolIndexOutOfRange(number))
    case Some(k) => Success(padded[k := mm])
  }

  /** A tool selection `T<number>` in section 2: `tools[number - 1]`. */
  function SelectTool(tools: seq<real>, number: nat): (r: Result<real, ParseError>)
    ensures 1 <= number <= |tools| ==> r == Success(tools[number - 1])
    ensures number > |tools| ==> r == Failure(ToolIndexOutOfRange(number))
    ensures number == 0 ==>
      r == if tools == [] then Failure(ToolIndexOutOfRange(0)) else Success(tools[|tools| - 1])
  {
    match PyIndex(|tools|, number - 1)
    case None => Failure(ToolIndexOutOfRange(number))
    case Some(k) => Success(tools[k])
  }

  /** One pass of the script's loop body over one input line. */
  function Step(st: ParseState, line: Line): Result<ParseState, ParseError>
  {
    if line.Blank? then Failure(EmptyLine) else
    var section := if line.Percent? then st.section + 1 else st.section;
    var st' := st.(section := section);
    if section == 1 && line.ToolLine? then
      match DefineTool(st.tools, line.number, InchesToMm(line.inches))
      case Failure(e) => Failure(e)
      case Success(tools) => Success(st'.(tools := tools))
    else if section == 2 && line.ToolLine? then
      match SelectTool(st.tools, line.number)
      case Failure(e) => Failure(e)
      case Success(size) => Success(st'.(current := Some(size)))
    else if section == 2 && line.HoleLine? then
      match st.current
      case None => Failure(NoToolSelected)
      case Some(size) => Success(st'.(holes := st.holes + [Hole(CoordToMm(line.x), CoordToMm(line.y), size)]))
    else
      Success(st')
  }

  /** The whole scan: the first failing line aborts the run. */
  function Run(st: ParseState, lines: seq<Line>): Result<ParseState, ParseError>
    decreases |lines|
  {
    if lines == [] then Success(st)
    else
      match Step(st, lines[0])
      case Failure(e) => Failure(e)
      case Success(st') => Run(st', lines[1..])
  }

  /** The script's parse loop (lines 37-59), on its four global variables. */
  method Interpret(lines: seq<Line>) returns (r: Result<ParseState, ParseError>)
    ensures r == Run(Start, lines)
  {
    var state: nat := 0;
    var tools: seq<real> := [];
    var holes: seq<Hole> := [];
    var currentToolSize: Option<real> := None;
    var i := 0;
    while i < |lines|
      invariant 0 <= i <= |lines|
      invariant Run(ParseState(state, tools, holes, currentToolSize), lines[i..]) == Run(Start, lines)
    {
      ghost var before := ParseState(state, tools, holes, currentToolSize);
      assert lines[i..][0] == lines[i] && lines[i..][1..] == lines[i + 1..];
      var line := lines[i];
      if line.Blank? {
        return Failure(EmptyLine);
      }
      if line.Percent? {
        state := state + 1;
      }
      if state == 1 {
        if line.ToolLine? {
          var index: int := line.number;
          while |tools| < index
            invariant Padded(tools, line.number) == Padded(before.tools, line.number)
            decreases index - |tools|
          {
            tools := tools + [0.0];
          }
          index := index - 1;
          if index < 0 {
            if |tools| == 0 {
              return Failure(ToolIndexOutOfRange(line.number));
            }
            index := |tools| + index;
          }
          tools := tools[index := InchesToMm(line.inches)];
        }
      } else if state == 2 {
        if line.ToolLine? {
          var index: int := line.number - 1;
          if index < -|tools| || index >= |tools| {
            return Failure(ToolIndexOutOfRange(line.number));
          }
          if index < 0 {
            index := |tools| + index;
          }
          currentToolSize := Some(tools[index]);
        } else if line.HoleLine? {
          if currentToolSize.None? {
            return Failure(NoToolSelected);
          }
          holes := holes + [Hole(CoordToMm(line.x), CoordToMm(line.y), currentToolSize.value)];
        }
      }
      assert Step(before, line) == Success(ParseState(state, tools, holes, currentToolSize));
      i := i + 1;
    }
    r := Success(ParseState(state, tools, holes, currentToolSize));
  }

  // ---------------------------------------------------------------------------
  // Properties of the scan

  /** The number of `%` lines in `lines`. */
  function CountPercent(lines: seq<Line>): nat
  {
    if lines == [] then 0 else (if lines[0].Percent? then 1 else 0) + CountPercent(lines[1..])
  }

  /** The section counter goes up by exactly one per `%` line, and by nothing else. */
  lemma {:induction false} RunCountsSections(st: ParseState, lines: seq<Line>)
    requires Run(st, lines).Success?
    ensures Run(st, lines).value.section == st.section + CountPercent(lines)
    decreases |lines|
  {
    if lines != [] {
      RunCountsSections(Step(st, lines[0]).value, lines[1..]);
    }
  }

  /** A run succeeds only on input without blank lines. */
  lemma {:induction false} RunRejectsBlankLines(st: ParseState, lines: seq<Line>)
    requires Run(st, lines).Success?
    ensures forall i :: 0 <= i < |lines| ==> !lines[i].Blank?
    decreases |lines|
  {
    if lines != [] {
      RunRejectsBlankLines(Step(st, lines[0]).value, lines[1..]);
      assert forall i :: 1 <= i < |lines| ==> lines[i] == lines[1..][i - 1];
    }
  }

  /** Once section 2 has begun, no line changes the tool table. */
  lemma {:induction false} RunKeepsToolsAfterDefinitions(st: ParseState, lines: seq<Line>)
    requires st.section >= 2
    requires Run(st, lines).Success?
    ensures Run(st, lines).value.tools == st.tools
    decreases |lines|
  {
    if lines != [] {
      RunKeepsToolsAfterDefinitions(Step(st, lines[0]).value, lines[1..]);
    }
  }

  /** Holes and tool selections are recorded only in section 2. */
  lemma StepOutsideSectionTwo(st: ParseState, line: Line)
    requires (if line.Percent? then st.section + 1 else st.section) != 2
    requires Step(st, line).Success?
    ensures Step(st, line).value.holes == st.holes
    ensures Step(st, line).value.current == st.current
  {
  }

  /** Tool definitions are recorded only in section 1. */
  lemma StepOutsideSectionOne(st: ParseState, line: Line)
    requires (if line.Percent? then st.section + 1 else st.section) != 1
    requires Step(st, line).Success?
    ensures Step(st, line).value.tools == st.tools
  {
  }

  /**
   An `X..Y..` line in section 2 appends exactly one hole, at the converted
   coordinates and with the size of the most recently selected tool; with no
   tool selected the script stops.
   */
  lemma StepRecordsHole(st: ParseState, x: real, y: real)
    requires st.section == 2
    ensures Step(st, HoleLine(x, y)).Success? <==> st.current.Some?
    ensures st.current.Some? ==>
      Step(st, HoleLine(x, y)).value.holes == st.holes + [Hole(x * 25.4 / 10000.0, y * 25.4 / 10000.0, st.current.value)]
  {
  }

  /** Every recorded hole, and the current selection, carries a size taken from the tool table. */
  ghost predicate SizesFromTable(st: ParseState)
  {
    && (st.section < 2 ==> st.holes == [] && st.current == None)
    && (st.current.Some? ==> st.current.value in st.tools)
    && (forall h :: h in st.holes ==> h.diameter in st.tools)
  }

  lemma {:induction false} RunKeepsSizesFromTable(st: ParseState, lines: seq<Line>)
    requires SizesFromTable(st)
    requires Run(st, lines).Success?
    ensures SizesFromTable(Run(st, lines).value)
    decreases |lines|
  {
    if lines != [] {
      var st' := Step(st, lines[0]).value;
      assert SizesFromTable(st');
      RunKeepsSizesFromTable(st', lines[1..]);
    }
  }

  /** From the initial state, every hole's diameter is an entry of the final tool table. */
  lemma HoleSizesAreToolSizes(lines: seq<Line>)
    requires Run(Start, lines).Success?
    ensures forall h :: h in Run(Start, lines).value.holes ==> h.diameter in Run(Start, lines).value.tools
  {
    RunKeepsSizesFromTable(Start, lines);
  }

  /** The (x, y) positions of a list of holes. */
  function Positions(holes: seq<Hole>): (ps: seq<(real, real)>)
    ensures |ps| == |holes|
    ensures forall i :: 0 <= i < |holes| ==> ps[i] == (holes[i].x, holes[i].y)
  {
    if holes == [] then [] else Positions(holes[..|holes| - 1]) + [(holes[|holes| - 1].x, holes[|holes| - 1].y)]
  }

  /**
   Reference definition: the positions, in millimetres, of the `X..Y..` lines
   that fall in section 2, when scanning starts in section `section`.
   */
  function SectionTwoPositions(section: nat, lines: seq<Line>): seq<(real, real)>
    decreases |lines|
  {
    if lines == [] then []
    else
      var section' := if lines[0].Percent? then section + 1 else section;
      (if section' == 2 && lines[0].HoleLine? then [(CoordToMm(lines[0].x), CoordToMm(lines[0].y))] else [])
      + SectionTwoPositions(section', lines[1..])
  }

  /** The holes the scan appends are exactly the section-2 hole lines, in input order. */
  lemma {:induction false} RunAppendsSectionTwoHoles(st: ParseState, lines: seq<Line>)
    requires Run(st, lines).Success?
    ensures Positions(Run(st, lines).value.holes) == Positions(st.holes) + SectionTwoPositions(st.section, lines)
    decreases |lines|
  {
    if lines != [] {
      StepAppendsPosition(st, lines[0]);
      RunAppendsSectionTwoHoles(Step(st, lines[0]).value, lines[1..]);
    }
  }

  lemma StepAppendsPosition(st: ParseState, line: Line)
    requires Step(st, line).Success?
    ensures var st' := Step(st, line).value;
      Positions(st'.holes) == Positions(st.holes)
      + (if st'.section == 2 && line.HoleLine? then [(CoordToMm(line.x), CoordToMm(line.y))] else [])
  {
    var st' := Step(st, line).value;
    if st'.section == 2 && line.HoleLine? {
      assert st'.holes[..|st'.holes| - 1] == st.holes;
    } else {
      assert st'.holes == st.holes;
    }
  }
}
