# excellon2mill in Dafny

excellon2mill.py turns an Excellon drill file into G-code for a CNC mill. A
hole wider than the mill is not drilled but milled out with helical passes.
This project models what the script computes:

- **Scanning the Excellon lines** (`Excellon`, excellon.dfy). A `%` line
  starts the next section. In section 1 a `T` line defines a tool, in inches,
  converted to millimetres. In section 2 a `T` line selects a tool and an
  `X..Y..` line records a hole of the selected tool's size, its coordinates in
  ten-thousandths of an inch converted to millimetres. The scan stops with an
  error wherever Python would raise one: an empty line, a tool index outside
  the table (Python's negative indexing included, so `T00` means the last
  tool), or a hole before any tool was selected.
- **Ordering the holes** (`HoleOrder`, hole_order.dfy). The hole list is
  sorted in place by y and then by x. Both sorts are stable, so the holes come
  out in order of x, and holes with equal x come out in order of y. When no
  two different holes share a position, the result does not depend on the
  order of the input.
- **Planning each hole** (`Helix`, helix.dfy, with the commands and their
  meaning in `GCode`, gcode.dfy). Every hole gets a pilot: rapid to the hole,
  down to the surface, a G83 peck cycle to full depth, back up to the surface.
  If `D - d >= a_e / 3`, the ring of width `delta = (D - d) / 2` is then bored
  in `ceil(delta / a_e)` passes of equal radial step, in relative
  coordinates, and the mill returns to the hole centre. Last, the mill is
  lifted to 5 mm and the feed rate is reset. Here `D` is the hole diameter,
  `d` the mill diameter and `a_e` the radial engagement.
- **The whole conversion** (`Excellon2Mill`, excellon2mill.dfy): scan, sort,
  plan.

The three constants of the script are fields of a `Setup` value, so every
property is proved for any positive mill diameter, depth and engagement.
`Helix.Defaults` holds the script's own values: 0.8 mm, 1.75 mm and
0.3 × 0.8 mm.

The output is a list of `GCode.Move` values, one per command the script
writes. `GCode.Exec` gives each command a reference meaning, following the
usual RS-274 reading:

- G90/G91 switch between absolute and relative coordinates.
- G0/G1 move the axes they name.
- A G2 of whole turns ends where it starts, around the centre given by I/J,
  with Z moving to its target.
- G83 ends at the higher of its start height and its R plane. The script
  starts every cycle on the surface, z 0, below its R plane of 0.5, so the
  cycle ends at 0.5 in either retract mode, G98 or G99.

`GCode.Cuts` lists the material that the drilling (G83) and helical (G2)
commands remove. Linear moves (G0, G1) are not recorded there. Instead,
`GCode.Trace` lists the position at which every command ends. The planner is
proved against both:

- each hole's pilot goes to full depth;
- its bore passes are centred on the hole and never cut beyond the hole's
  diameter;
- every position at which one of a hole's commands ends lies on the radius
  from the hole centre out to `delta`. The approach `G0 X Y` may start
  anywhere, but every G0 or G1 move after it runs in a straight line between
  two such positions. The path of each G2 is the `Bored` ring that
  `Helix.BoreGeometry` bounds.
These facts are about exact values (see "Left out" for rounding).

A few facts about excellon2mill.py that the model keeps:

- A tool size is read in inches and multiplied by 25.4 (line 47).
- Selecting a tool number past the end of the table raises IndexError. A tool
  number that falls inside the zero-padded table is accepted with size 0
  (line 50).
- The per-hole comment carries no hole index (line 65).
- The three settings are constants, not options (lines 6-8).

## Model

| member | source | states |
|---|---|---|
| Excellon.Interpret | excellon2mill.py:32-59 | The parse loop over the four global variables (`state`, `tools`, `holes`, `current_tool_size`) computes the scan `Run(Start, lines)`. That includes its error results: the first failing line aborts the scan. |
| Excellon.PyIndex | excellon2mill.py:47-50 | A Python list subscript succeeds exactly when `-len <= i < len`. It then yields `i`, or `len + i` for a negative `i`. |
| Excellon.Padded | excellon2mill.py:44-45 | The `while` loop of appends leaves the old entries as they were. It extends the table with zeros to exactly `index` entries when it was shorter, and otherwise changes nothing. |
| Excellon.DefineTool | excellon2mill.py:42-47 | A definition `T<n>` with n ≥ 1 always succeeds. It gives a table of length max(len, n), entry n-1 the new size, other old entries unchanged and new gaps zero. With `T00` it overwrites the last entry, or fails on an empty table. |
| Excellon.SelectTool | excellon2mill.py:49-50 | A selection `T<n>` yields entry n-1 for 1 ≤ n ≤ len. Past the end it is an IndexError. With `T00` it yields the last entry, or IndexError on an empty table. |
| Excellon.RunCountsSections | excellon2mill.py:39-40 | After a successful scan the section counter has risen by exactly the number of `%` lines. |
| Excellon.RunRejectsBlankLines | excellon2mill.py:38-39 | A scan that succeeds contains no empty line. `line[0]` on an empty line raises. |
| Excellon.RunKeepsToolsAfterDefinitions | excellon2mill.py:41-50 | Once section 2 has begun, no line changes the tool table. |
| Excellon.StepOutsideSectionTwo | excellon2mill.py:48-59 | Outside section 2 a line records no hole and selects no tool. |
| Excellon.StepOutsideSectionOne | excellon2mill.py:41-47 | Outside section 1 a line defines no tool. |
| Excellon.StepRecordsHole | excellon2mill.py:51-59 | In section 2 an `X..Y..` line succeeds exactly when a tool has been selected. It then appends one hole at `field * 25.4 / 10000` mm with the selected tool's size. |
| Excellon.RunKeepsSizesFromTable | excellon2mill.py:41-59 | Three facts survive every line: before section 2 nothing is recorded, the selected size is a table entry, and every hole's diameter is a table entry. |
| Excellon.HoleSizesAreToolSizes | excellon2mill.py:50-58 | From the start state, every parsed hole's diameter is an entry of the final tool table. |
| Excellon.Positions | excellon2mill.py:55-58 | The positions of a hole list are its holes' (x, y), index by index. |
| Excellon.RunAppendsSectionTwoHoles | excellon2mill.py:48-59 | The recorded hole positions are exactly those of the `X..Y..` lines that fall in section 2, in input order. |
| Excellon.StepAppendsPosition | excellon2mill.py:51-59 | One line adds a position exactly when it is a hole line in section 2. |
| HoleOrder.InsertPos | excellon2mill.py:61-62 | The insertion point lies after every element whose key is at most the new key, and before the larger ones. |
| HoleOrder.InsertInPlace | excellon2mill.py:61-62 | One round of the in-place insertion sort. It turns the array prefix into `Insert(prefix, a[i])` and leaves the rest of the array untouched. |
| HoleOrder.SortInPlace | excellon2mill.py:61-62 | `holes.sort(key=...)` on the array leaves it equal to `Sort(k, old)`: sorted by the key, a permutation of the input, and stable. |
| HoleOrder.OrderHoles | excellon2mill.py:61-62 | The two sorts leave the array a permutation of the input, sorted by x, with equal x in order of y. |
| HoleOrder.SortGuarantees | excellon2mill.py:61-62 | `Sort` is sorted, permutes its input and is stable. |
| HoleOrder.SortPermutes | excellon2mill.py:61-62 | Sorting does not add, drop or duplicate holes: the multiset of holes is unchanged. |
| HoleOrder.SortSorts | excellon2mill.py:61-62 | The result is in non-decreasing key order. |
| HoleOrder.SortStableFor | excellon2mill.py:61-62 | For every key value, the holes with that key keep their input order. |
| HoleOrder.SortIsStable | excellon2mill.py:61-62 | The sort is stable for all key values at once. |
| HoleOrder.StableSortIsUnique | excellon2mill.py:61-62 | Any sorted, stable rearrangement equals `Sort`. So the model fixes the result of Python's stable sort whatever algorithm Python uses. |
| HoleOrder.InsertByXKeepsXThenY | excellon2mill.py:62 | Inserting a hole whose y is at least every other y keeps a list ordered by x, then y. |
| HoleOrder.SortByXOfYOrdered | excellon2mill.py:61-62 | Sorting a y-ordered list stably by x orders it by x and then by y. |
| HoleOrder.TwoPassOrder | excellon2mill.py:61-62 | Sorting by y and then by x permutes the holes, sorts them by x, and orders equal x by y. |
| HoleOrder.XThenYUnique | excellon2mill.py:61-62 | Two x-then-y ordered lists of the same holes are equal when no two different holes share a position. |
| HoleOrder.OrderIgnoresInputOrder | excellon2mill.py:61-62 | When no two different holes share a position, any two arrangements of the same holes sort to the same list. |
| HoleOrder.SamePositionKeepsInputOrder | excellon2mill.py:61-62 | Two holes at one position with different sizes come out in the order they came in, so the condition above is needed. |
| Helix.Ceil | excellon2mill.py:76 | `math.ceil` gives the least integer not below its argument. |
| Helix.PassCountBounds | excellon2mill.py:73-76 | For an eligible hole, `delta` > 0 and `alpha_prime` ≥ 1. It is the least pass count whose passes of `a_e` cover `delta`: n·a_e ≥ delta > (n-1)·a_e. |
| Helix.PassStepBounds | excellon2mill.py:77 | The actual step `a_e_prime` is positive and at most `a_e`, and `alpha_prime` steps add up to exactly `delta`. |
| Helix.EmitPasses | excellon2mill.py:78-83 | The `for i in range(0, alpha_prime)` loop writes each pass's feed and helix, then a reposition after every pass but the last. |
| Helix.PlanHole | excellon2mill.py:65-86 | The moves written for one hole are the pilot, then the bore when `D - d >= a_e / 3`, then the retract. |
| Helix.PlanHoles | excellon2mill.py:64-86 | The hole loop writes each hole's plan, hole after hole, in array order. |
| Helix.PilotEffect | excellon2mill.py:66-71 | From any absolute-mode state, the pilot drills the hole centre to `-tiefe_max`. It ends on the surface above the centre at feed 60. |
| Helix.PassEffect | excellon2mill.py:79-83 | Pass i steps out to radius (i+1)·step and circles the hole centre down to `-tiefe_max`. It returns to the surface unless it is the last pass. |
| Helix.PassesEffect | excellon2mill.py:78-83 | The first k passes cut the first k rings and leave the mill at radius k·step. It is at full depth only after the last pass. |
| Helix.SpiralEffect | excellon2mill.py:74-84 | The bore cuts exactly its rings and returns to the hole centre at full depth in absolute mode. |
| Helix.HolePlanEffect | excellon2mill.py:64-86 | From any absolute-mode state, a hole's moves cut the pilot and, when eligible, the rings. They end 5 mm above the centre, in absolute mode, at feed 1000. |
| Helix.SpiralExactlyWhenEligible | excellon2mill.py:73 | A hole's moves contain a bore exactly when `D - d >= a_e / 3`. Otherwise they are the pilot and the retract only. |
| Helix.RingsGeometry | excellon2mill.py:78-83 | n rings of step `step` are centred, run from the surface to full depth, grow by `step` each, and end at radius `delta`. |
| Helix.BoreGeometry | excellon2mill.py:73-84 | Bore geometry for an eligible hole: `alpha_prime` centred rings from z 0 to `-tiefe_max`. The first is at radius `a_e_prime ≤ a_e` and each later one is `a_e_prime` wider. Every radius is at most `delta`, so the mill's edge stays within `D/2`, and the last reaches `delta` exactly. |
| Helix.TurnsBoundPlunge | excellon2mill.py:81 | The helix's `P` word, `ceil(tiefe_max / drill_diameter) * 2`, is at least 2 and high enough that each turn descends at most half the mill diameter. |
| Helix.PilotTrace | excellon2mill.py:66-71 | Every command of the pilot ends on the hole centre. |
| Helix.PassTrace | excellon2mill.py:79-83 | Every command of pass i, its `G1 Y` moves included, ends on the radius from the centre, between i·step and (i+1)·step. |
| Helix.PassesTrace | excellon2mill.py:78-83 | Every command of the first k passes ends on the radius from the centre, within k·step. |
| Helix.SpiralTrace | excellon2mill.py:74-84 | Every command of the bore ends on the radius from the centre out to `delta`. That includes the `G1 Y-a_e_prime` moves at full depth and the closing `G1 X Y` back to the centre. |
| Helix.HolePlanTrace | excellon2mill.py:64-86 | From any absolute-mode state, every command of a hole ends on the radius from the centre out to `delta`, or on the centre when the hole is not bored. For a bored hole the far end of that radius puts the mill's edge exactly on `D/2`. |
| Helix.ProgramEffect | excellon2mill.py:64-86 | Over a whole hole list, the program cuts each hole's material in list order and ends 5 mm above the last hole. |
| Excellon2Mill.Convert | excellon2mill.py:32-86 | The script's main line (parse, sort in place, plan every hole) computes `Conversion`, including its error results. |
| Excellon2Mill.ConversionMachinesEveryHole | excellon2mill.py:32-86 | A successful conversion machines every parsed hole once, in x-then-y order, each with a size from the tool table. It cuts exactly what each hole's plan promises. |
| Excellon2Mill.DefaultsAreValid | excellon2mill.py:6-8 | The script's constants are positive, and `a_e` is 0.24 mm. |
| Excellon2Mill.DefaultThreshold | excellon2mill.py:73 | With the script's constants, in exact arithmetic, a hole is bored exactly when it is at least 0.88 mm wide. |
| Excellon2Mill.DefaultTwoMillimetreHole | excellon2mill.py:73-81 | A 2 mm hole has `delta` 0.6 mm and is bored in 3 passes of 0.2 mm, with `P6` turns. |
| Excellon2Mill.SmallFileParses | excellon2mill.py:37-59 | A concrete file: tool `T01` of 0.032 in gives 0.8128 mm, and two hole lines give holes at (25.4, 0) and (0, 12.7) mm in file order. |
| Excellon2Mill.SmallFileTools | excellon2mill.py:41-50 | In that file, `T01` is defined as 0.8128 mm in section 1 and selected in section 2. |
| Excellon2Mill.SmallFileHoles | excellon2mill.py:51-59 | In that file, the two hole lines append holes at (25.4, 0) and (0, 12.7) mm with the selected size. |
| Excellon2Mill.SmallHolesArePilotOnly | excellon2mill.py:32-86 | For that file both holes are only drilled, in order of x. |

## Left out

- The text of the output is left out. That covers the fixed preamble and
  postamble (lines 10-30 and 88-92), the per-hole comment (line 65), and the
  `%.4f`, `%.2f` and `%d` formatting of each command. The model produces the
  commands as `GCode.Move` values with exact numbers. The printed commands
  round each `G1 Y` step and each `J` offset to four places separately. So
  the centring and the diameter bound of `Helix.BoreGeometry` hold for the
  exact values, not for the printed text, which can drift by 0.0001 mm per
  pass.
- Reading the input with `fileinput` and `strip()`, and slicing fields out of
  a line, are left out. Lines arrive already classified, with their fields as
  numbers (`Excellon.Line`). An empty line is kept, because `line[0]` raises on
  it.
- Malformed fields are left out. `int()` or `float()` would raise ValueError
  on such a line, and slicing fields at fixed columns would misread extra or
  missing digits. The model assumes the fields parse. Hole coordinates are
  reals, so a decimal field such as `X1.5Y2`, which `float()` accepts, is
  scaled like any other.
- Floating point is left out. The arithmetic is exact, over reals, so IEEE
  rounding is not modelled. That covers `* 25.4 / 10000`, `delta / a_e`
  before `ceil`, `delta / alpha_prime`, and the eligibility comparison of
  line 73. In doubles, `0.88 - 0.8` falls just below `a_e / 3`, so a 0.88 mm
  hole is not bored there. `Excellon2Mill.DefaultThreshold` holds in exact
  arithmetic only.
- Partial output before a failure is left out. The script has already written
  the preamble when a parse error stops it; the model only yields the error.
- The G-code meaning in `GCode.Exec` and `GCode.Cuts` is this model's
  reference reading (absolute and relative modes, G83 ending at the higher of
  its start and its R plane, whole turns for G2). It is not taken from a controller.
- `GCode.Cuts` records no material for linear moves (G0, G1), and
  `GCode.Trace` records only where each command ends, not the path between.
  `Helix.HolePlanTrace` bounds those end positions to the hole's radius, so
  every G0 or G1 after a hole's approach runs between two points of that
  radius. The approach `G0 X Y` itself starts wherever the previous hole
  left the mill.
- Holes at the same position with different sizes keep their input order
  (`HoleOrder.SamePositionKeepsInputOrder`: `Hole(0, 0, 1)` and
  `Hole(0, 0, 2)` come out in the order they came in). So
  `HoleOrder.OrderIgnoresInputOrder` needs no two different holes at one
  position.
- Calibration and re-registration transforms, board outlines and
  command-line options are left out. excellon2mill.py has none of them; its
  settings are the constants of lines 6-8, modelled as `Helix.Defaults`.
- Python's sorting algorithm (Timsort) is left out. The in-place sort is an
  insertion sort. `HoleOrder.StableSortIsUnique` shows that every stable sort
  gives the same result.
