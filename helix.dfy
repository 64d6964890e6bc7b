/**
 The per-hole toolpath generator of excellon2mill.py (lines 6-8 and 64-86).

 Every hole gets a pilot: rapid to the hole, down to the surface, a G83 peck
 cycle to full depth and back to the surface. When the hole is wider than the
 mill by at least a third of the radial engagement, the remaining ring of width
 `delta = (D - d) / 2` is bored in `passes = ceil(delta / a_e)` helical passes of
 equal radial step `delta / passes`, in relative coordinates; the tool then
 returns to the hole centre in absolute coordinates. Last, the tool is lifted
 to 5 mm and the feed rate restored.
 */
module Helix {
  import opened Wrappers
  import opened Excellon
  import opened GCode

  /** The three constants of the script: mill diameter, board depth, radial engagement. */
  datatype Setup = Setup(drill: real, depth: real, engagement: real)

  /** `drill_diameter = 0.8`, `tiefe_max = 1.75`, `a_e = 0.3 * drill_diameter`. */
  const Defaults := Setup(0.8, 1.75, 0.3 * 0.8)

  predicate ValidSetup(s: Setup)
  {
    s.drill > 0.0 && s.depth > 0.0 && s.engagement > 0.0
  }

  /** `math.ceil` on exact values. */
  function Ceil(x: real): (n: int)
    ensures n as real - 1.0 < x <= n as real
  {
    -((-x).Floor)
  }

  /** Line 73: is the hole wide enough for helical boring? */
  predicate Eligible(s: Setup, h: Hole)
  {
    h.diameter - s.drill >= s.engagement / 3.0
  }

  /** `delta`: the radial width of the ring left around the pilot hole. */
  function Excess(s: Setup, h: Hole): real
  {
    (h.diameter - s.drill) / 2.0
  }

  /** `alpha_prime`: the number of helical passes. */
  function PassCount(s: Setup, h: Hole): int
    requires ValidSetup(s)
  {
    Ceil(Excess(s, h) / s.engagement)
  }

  /**
   The pass count is the least number of passes of at most `a_e` each that
   cover `delta`, and it is at least one.
   */
  lemma PassCountBounds(s: Setup, h: Hole)
    requires ValidSetup(s) && Eligible(s, h)
    ensures Excess(s, h) > 0.0
    ensures PassCount(s, h) >= 1
    ensures PassCount(s, h) as real * s.engagement >= Excess(s, h)
    ensures (PassCount(s, h) - 1) as real * s.engagement < Excess(s, h)
  {
    var delta, ae, n := Excess(s, h), s.engagement, PassCount(s, h);
    var q := delta / ae;
    assert q * ae == delta;
    assert q > 0.0;
    assert n as real >= q;
    assert (n - 1) as real < q;
    MulMonotone(q, n as real, ae);
    var m: real := (n - 1) as real;
    assert m == n as real - 1.0;
    MulStrict(m, q, ae);
    assert m * ae < delta;
  }

  lemma MulMonotone(a: real, b: real, c: real)
    requires a <= b && c > 0.0
    ensures a * c <= b * c
  {
  }

  lemma MulStrict(a: real, b: real, c: real)
    requires a < b && c > 0.0
    ensures a * c < b * c
  {
  }

  /** `a_e_prime`: the radial step of one pass. */
  function PassStep(s: Setup, h: Hole): real
    requires ValidSetup(s) && Eligible(s, h)
  {
    PassCountBounds(s, h);
    Excess(s, h) / PassCount(s, h) as real
  }

  /** The actual step never exceeds `a_e`, and the passes cover `delta` exactly. */
  lemma PassStepBounds(s: Setup, h: Hole)
    requires ValidSetup(s) && Eligible(s, h)
    ensures 0.0 < PassStep(s, h) <= s.engagement
    ensures PassCount(s, h) as real * PassStep(s, h) == Excess(s, h)
  {
    PassCountBounds(s, h);
    var delta, n, step := Excess(s, h), PassCount(s, h) as real, PassStep(s, h);
    assert n * step == delta;
    if step > s.engagement {
      MulStrict(s.engagement, step, n);
      assert false;
    }
  }

  /** The `P` word of the helix: `math.ceil(tiefe_max / drill_diameter) * 2`. */
  function Turns(s: Setup): int
    requires ValidSetup(s)
  {
    Ceil(s.depth / s.drill) * 2
  }

  /**
   The helix makes at least two turns, and enough of them that each turn
   descends at most half the mill diameter.
   */
  lemma TurnsBoundPlunge(s: Setup)
    requires ValidSetup(s)
    ensures Turns(s) >= 2
    ensures s.depth <= Turns(s) as real * (s.drill / 2.0)
  {
    var q := s.depth / s.drill;
    assert q * s.drill == s.depth;
    MulMonotone(q, Ceil(q) as real, s.drill);
    assert Turns(s) as real * (s.drill / 2.0) == Ceil(q) as real * s.drill;
  }

  // ---------------------------------------------------------------------------
  // The moves of one hole

  /** Lines 66-71: the pilot hole. */
  function PilotMoves(s: Setup, h: Hole): seq<Move>
  {
    [RapidXY(h.x, h.y), RapidZ(1.0), FeedZ(0.0, Some(60)), PeckDrill(0.5, 0.25, -s.depth), FeedZ(0.0, None)]
  }

  /** Lines 79-83: pass `i` of `n`, in relative coordinates. */
  function PassMoves(s: Setup, step: real, i: nat, n: int): seq<Move>
    requires ValidSetup(s)
  {
    [FeedY(step), HelixCW(-s.depth, 0.0, -((i + 1) as real) * step, Turns(s))]
    + (if i != n - 1 then [FeedY(-step), RapidZ(s.depth), FeedY(step)] else [])
  }

  /** The first `k` passes of `n`. */
  function PassesUpTo(s: Setup, step: real, k: nat, n: int): seq<Move>
    requires ValidSetup(s)
  {
    if k == 0 then [] else PassesUpTo(s, step, k - 1, n) + PassMoves(s, step, k - 1, n)
  }

  /** Lines 74-84: the helical bore. */
  function SpiralMoves(s: Setup, h: Hole): seq<Move>
    requires ValidSetup(s) && Eligible(s, h)
  {
    PassCountBounds(s, h);
    var n := PassCount(s, h);
    [RelativeMode] + PassesUpTo(s, PassStep(s, h), n, n) + [AbsoluteMode, FeedXY(h.x, h.y)]
  }

  /** Line 86: lift the tool and restore the cutting feed. */
  function RetractMoves(): seq<Move>
  {
    [RapidZ(5.0), SetFeed(1000)]
  }

  /** Everything written for one hole. */
  function HolePlan(s: Setup, h: Hole): seq<Move>
    requires ValidSetup(s)
  {
    PilotMoves(s, h) + (if Eligible(s, h) then SpiralMoves(s, h) else []) + RetractMoves()
  }

  /** Everything written for a list of holes, in list order (line 64). */
  function Program(s: Setup, hs: seq<Hole>): seq<Move>
    requires ValidSetup(s)
  {
    if hs == [] then [] else Program(s, hs[..|hs| - 1]) + HolePlan(s, hs[|hs| - 1])
  }

  /** Lines 78-83: the `for i in range(0, alpha_prime)` loop of one bore. */
  method EmitPasses(s: Setup, aePrime: real, alphaPrime: int) returns (out: seq<Move>)
    requires ValidSetup(s) && alphaPrime >= 0
    ensures out == PassesUpTo(s, aePrime, alphaPrime, alphaPrime)
  {
    out := [];
    var i: nat := 0;
    while i < alphaPrime
      invariant i <= alphaPrime
      invariant out == PassesUpTo(s, aePrime, i, alphaPrime)
    {
      ghost var done := out;
      var helix := [FeedY(aePrime), HelixCW(-s.depth, 0.0, -((i + 1) as real) * aePrime, Turns(s))];
      out := out + helix;
      if i != alphaPrime - 1 {
        var reposition := [FeedY(-aePrime), RapidZ(s.depth), FeedY(aePrime)];
        assert PassMoves(s, aePrime, i, alphaPrime) == helix + reposition;
        out := out + reposition;
      } else {
        assert PassMoves(s, aePrime, i, alphaPrime) == helix + [];
      }
      assert out == done + PassMoves(s, aePrime, i, alphaPrime);
      i := i + 1;
    }
  }

  /** Lines 65-86 for one hole, emitting the moves in the script's order. */
  method PlanHole(s: Setup, h: Hole) returns (out: seq<Move>)
    requires ValidSetup(s)
    ensures out == HolePlan(s, h)
  {
    out := [RapidXY(h.x, h.y), RapidZ(1.0), FeedZ(0.0, Some(60)), PeckDrill(0.5, 0.25, -s.depth), FeedZ(0.0, None)];
    if h.diameter - s.drill >= s.engagement / 3.0 {
      out := out + [RelativeMode];
      var delta := (h.diameter - s.drill) / 2.0;
      var alphaPrime := Ceil(delta / s.engagement);
      PassCountBounds(s, h);
      var aePrime := delta / alphaPrime as real;
      var passes := EmitPasses(s, aePrime, alphaPrime);
      out := out + passes + [AbsoluteMode, FeedXY(h.x, h.y)];
    }
    out := out + [RapidZ(5.0), SetFeed(1000)];
  }

  /** Line 64: `for hole in holes`, over the sorted hole array. */
  method PlanHoles(s: Setup, holes: array<Hole>) returns (out: seq<Move>)
    requires ValidSetup(s)
    ensures out == Program(s, holes[..])
  {
    out := [];
    for i := 0 to holes.Length
      invariant out == Program(s, holes[..i])
    {
      var moves := PlanHole(s, holes[i]);
      assert holes[..i + 1][..i] == holes[..i];
      out := out + moves;
    }
    assert holes[..] == holes[..holes.Length];
  }

  // ---------------------------------------------------------------------------
  // What the moves do

  /** The rings of a bore: pass `i` (from 0) circles the centre at radius `(i + 1) * step`, from the surface to `-depth`. */
  function Rings(cx: real, cy: real, step: real, depth: real, k: nat): (r: seq<Cut>)
    ensures |r| == k
  {
    if k == 0 then [] else Rings(cx, cy, step, depth, k - 1) + [Bored(cx, cy, cx, cy + (k as real) * step, 0.0, -depth)]
  }

  /** The `k`-th ring comes last, at radius `k * step`. */
  lemma RingsLast(cx: real, cy: real, step: real, depth: real, k: nat)
    requires k >= 1
    ensures Rings(cx, cy, step, depth, k)
      == Rings(cx, cy, step, depth, k - 1) + [Bored(cx, cy, cx, cy + (k as real) * step, 0.0, -depth)]
  {
  }

  lemma {:induction false} RingAt(cx: real, cy: real, step: real, depth: real, k: nat, i: nat)
    requires i < k
    ensures Rings(cx, cy, step, depth, k)[i] == Bored(cx, cy, cx, cy + ((i + 1) as real) * step, 0.0, -depth)
  {
    if i < k - 1 {
      RingAt(cx, cy, step, depth, k - 1, i);
    }
  }

  /** The ring boring as designed, for an eligible hole. */
  function BoreCuts(s: Setup, h: Hole): seq<Cut>
    requires ValidSetup(s) && Eligible(s, h)
  {
    PassCountBounds(s, h);
    Rings(h.x, h.y, PassStep(s, h), s.depth, PassCount(s, h))
  }

  /** What a hole's moves should cut: the pilot to full depth, then the ring if the hole is wide enough. */
  function HoleCuts(s: Setup, h: Hole): seq<Cut>
    requires ValidSetup(s)
  {
    [Drilled(h.x, h.y, -s.depth)] + (if Eligible(s, h) then BoreCuts(s, h) else [])
  }

  lemma PilotEffect(s: Setup, h: Hole, m: Machine)
    requires !m.relative
    ensures ExecAll(m, PilotMoves(s, h)) == Machine(h.x, h.y, 0.0, false, 60)
    ensures Cuts(m, PilotMoves(s, h)) == [Drilled(h.x, h.y, -s.depth)]
  {
    var m1 := Machine(h.x, h.y, m.z, false, m.feed);
    var m2 := m1.(z := 1.0);
    var m3 := m2.(z := 0.0, feed := 60);
    var m4 := m3.(z := 0.5);
    var m5 := m4.(z := 0.0);
    var a, b, c, d, e := RapidXY(h.x, h.y), RapidZ(1.0), FeedZ(0.0, Some(60)), PeckDrill(0.5, 0.25, -s.depth), FeedZ(0.0, None);
    assert PilotMoves(s, h) == [a] + ([b] + ([c] + ([d] + ([e] + []))));
    assert Exec(m, a) == m1 && Exec(m1, b) == m2 && Exec(m2, c) == m3;
    assert Exec(m3, d) == m4 && Exec(m4, e) == m5;
    assert CutOf(m3, d) == [Drilled(h.x, h.y, -s.depth)];
    RunCons(m4, e, []);
    RunCons(m3, d, [e] + []);
    RunCons(m2, c, [d] + ([e] + []));
    RunCons(m1, b, [c] + ([d] + ([e] + [])));
    RunCons(m, a, [b] + ([c] + ([d] + ([e] + []))));
  }

  lemma RadiusStep(i: nat, step: real)
    ensures (i as real) * step + step == ((i + 1) as real) * step
    ensures -((i + 1) as real) * step == -(((i + 1) as real) * step)
  {
  }

  /** One pass, started at radius `i * step` on the surface, in relative mode. */
  lemma PassEffect(s: Setup, step: real, i: nat, n: int, cx: real, cy: real, f: nat)
    requires ValidSetup(s) && i < n
    ensures var m := Machine(cx, cy + (i as real) * step, 0.0, true, f);
      && ExecAll(m, PassMoves(s, step, i, n))
         == Machine(cx, cy + ((i + 1) as real) * step, if i == n - 1 then -s.depth else 0.0, true, f)
      && Cuts(m, PassMoves(s, step, i, n)) == [Bored(cx, cy, cx, cy + ((i + 1) as real) * step, 0.0, -s.depth)]
  {
    var ri, r := (i as real) * step, ((i + 1) as real) * step;
    RadiusStep(i, step);
    var m := Machine(cx, cy + ri, 0.0, true, f);
    var out := Machine(cx, cy + r, 0.0, true, f);
    var bottom := Machine(cx, cy + r, -s.depth, true, f);
    var feed, helix := FeedY(step), HelixCW(-s.depth, 0.0, -((i + 1) as real) * step, Turns(s));
    assert Exec(m, feed) == out;
    assert Exec(out, helix) == bottom;
    assert CutOf(out, helix) == [Bored(cx, cy, cx, cy + r, 0.0, -s.depth)];
    if i != n - 1 {
      var back, up, again := FeedY(-step), RapidZ(s.depth), FeedY(step);
      assert PassMoves(s, step, i, n) == [feed] + ([helix] + ([back] + ([up] + ([again] + []))));
      var m3 := Machine(cx, cy + r - step, -s.depth, true, f);
      var m4 := m3.(z := 0.0);
      assert Exec(m4, again) == out;
      RunCons(m4, again, []);
      RunCons(m3, up, [again] + []);
      RunCons(bottom, back, [up] + ([again] + []));
      RunCons(out, helix, [back] + ([up] + ([again] + [])));
      RunCons(m, feed, [helix] + ([back] + ([up] + ([again] + []))));
    } else {
      assert PassMoves(s, step, i, n) == [feed] + ([helix] + []);
      RunCons(out, helix, []);
      RunCons(m, feed, [helix] + []);
    }
  }

  /** The first `k` passes, started at the hole centre on the surface. */
  lemma {:induction false} PassesEffect(s: Setup, step: real, k: nat, n: int, cx: real, cy: real, f: nat)
    requires ValidSetup(s) && k <= n && n >= 1
    ensures ExecAll(Machine(cx, cy, 0.0, true, f), PassesUpTo(s, step, k, n))
         == Machine(cx, cy + (k as real) * step, if k == n then -s.depth else 0.0, true, f)
    ensures Cuts(Machine(cx, cy, 0.0, true, f), PassesUpTo(s, step, k, n)) == Rings(cx, cy, step, s.depth, k)
  {
    var m := Machine(cx, cy, 0.0, true, f);
    if k == 0 {
      assert cy + (k as real) * step == cy;
    } else {
      var j: nat := k - 1;
      var prefix, pass := PassesUpTo(s, step, j, n), PassMoves(s, step, j, n);
      var mid := Machine(cx, cy + (j as real) * step, 0.0, true, f);
      var end := Machine(cx, cy + (k as real) * step, if k == n then -s.depth else 0.0, true, f);
      var ring := Bored(cx, cy, cx, cy + (k as real) * step, 0.0, -s.depth);
      assert ExecAll(m, prefix) == mid && Cuts(m, prefix) == Rings(cx, cy, step, s.depth, j) by {
        PassesEffect(s, step, j, n, cx, cy, f);
      }
      assert ExecAll(mid, pass) == end && Cuts(mid, pass) == [ring] by {
        PassEffect(s, step, j, n, cx, cy, f);
        assert (j + 1) as real == k as real;
      }
      assert PassesUpTo(s, step, k, n) == prefix + pass;
      assert Rings(cx, cy, step, s.depth, k) == Rings(cx, cy, step, s.depth, j) + [ring] by {
        RingsLast(cx, cy, step, s.depth, k);
      }
      assert ExecAll(m, prefix + pass) == end && Cuts(m, prefix + pass) == Cuts(m, prefix) + [ring] by {
        RunAppend(m, prefix, pass);
      }
    }
  }

  /** The bore of an eligible hole, started on the surface at its centre, in absolute mode. */
  lemma SpiralEffect(s: Setup, h: Hole, f: nat)
    requires ValidSetup(s) && Eligible(s, h)
    ensures ExecAll(Machine(h.x, h.y, 0.0, false, f), SpiralMoves(s, h)) == Machine(h.x, h.y, -s.depth, false, f)
    ensures Cuts(Machine(h.x, h.y, 0.0, false, f), SpiralMoves(s, h)) == BoreCuts(s, h)
  {
    PassCountBounds(s, h);
    var n, step := PassCount(s, h), PassStep(s, h);
    var m := Machine(h.x, h.y, 0.0, false, f);
    var rel := m.(relative := true);
    var passes := PassesUpTo(s, step, n, n);
    PassesEffect(s, step, n, n, h.x, h.y, f);
    var outer := ExecAll(rel, passes);
    RunCons(outer.(relative := false), FeedXY(h.x, h.y), []);
    RunCons(outer, AbsoluteMode, [FeedXY(h.x, h.y)] + []);
    RunAppend(rel, passes, [AbsoluteMode, FeedXY(h.x, h.y)]);
    RunCons(m, RelativeMode, passes + [AbsoluteMode, FeedXY(h.x, h.y)]);
    assert SpiralMoves(s, h) == [RelativeMode] + (passes + [AbsoluteMode, FeedXY(h.x, h.y)]);
    assert [AbsoluteMode, FeedXY(h.x, h.y)] == [AbsoluteMode] + ([FeedXY(h.x, h.y)] + []);
  }

  /**
   For any starting point in absolute mode, the moves of one hole cut exactly
   `HoleCuts` and leave the tool 5 mm above the hole centre, in absolute mode,
   with the feed rate back at 1000.
   */
  lemma HolePlanEffect(s: Setup, h: Hole, m: Machine)
    requires ValidSetup(s) && !m.relative
    ensures ExecAll(m, HolePlan(s, h)) == Machine(h.x, h.y, 5.0, false, 1000)
    ensures Cuts(m, HolePlan(s, h)) == HoleCuts(s, h)
  {
    var pilot, retract := PilotMoves(s, h), RetractMoves();
    var middle := if Eligible(s, h) then SpiralMoves(s, h) else [];
    PilotEffect(s, h, m);
    var m1 := Machine(h.x, h.y, 0.0, false, 60);
    RunAppend(m, pilot + middle, retract);
    RunAppend(m, pilot, middle);
    var m2 := m1.(z := if Eligible(s, h) then -s.depth else 0.0);
    if Eligible(s, h) {
      SpiralEffect(s, h, 60);
    }
    assert ExecAll(m1, middle) == m2;
    assert Cuts(m1, middle) == if Eligible(s, h) then BoreCuts(s, h) else [];
    RunCons(m2.(z := 5.0), SetFeed(1000), []);
    RunCons(m2, RapidZ(5.0), [SetFeed(1000)] + []);
    assert retract == [RapidZ(5.0)] + ([SetFeed(1000)] + []);
  }

  /** A spiral is cut exactly when the hole is eligible; otherwise the hole gets the pilot and the retract only. */
  lemma SpiralExactlyWhenEligible(s: Setup, h: Hole, m: Machine)
    requires ValidSetup(s) && !m.relative
    ensures (exists c :: c in Cuts(m, HolePlan(s, h)) && c.Bored?) <==> h.diameter - s.drill >= s.engagement / 3.0
    ensures !Eligible(s, h) ==> HolePlan(s, h) == PilotMoves(s, h) + RetractMoves()
  {
    HolePlanEffect(s, h, m);
    if Eligible(s, h) {
      PassCountBounds(s, h);
      RingAt(h.x, h.y, PassStep(s, h), s.depth, PassCount(s, h), 0);
      assert HoleCuts(s, h)[1] == BoreCuts(s, h)[0];
      assert HoleCuts(s, h)[1] in Cuts(m, HolePlan(s, h));
    } else {
      assert HoleCuts(s, h) == [Drilled(h.x, h.y, -s.depth)];
      assert HolePlan(s, h) == PilotMoves(s, h) + [] + RetractMoves();
    }
  }

  lemma RingRadiusBounds(i: nat, n: nat, step: real, delta: real)
    requires i < n && step > 0.0 && n as real * step == delta
    ensures 0.0 < ((i + 1) as real) * step <= delta
  {
    MulMonotone((i + 1) as real, n as real, step);
    MulStrict(0.0, (i + 1) as real, step);
  }

  /** Each ring is `step` wider than the one before it. */
  lemma RingsWiden(cx: real, cy: real, step: real, depth: real, n: nat, i: nat)
    requires 0 < i < n
    ensures var cuts := Rings(cx, cy, step, depth, n);
      cuts[i].Bored? && cuts[i - 1].Bored? && cuts[i].fromY - cuts[i - 1].fromY == step
  {
    RingAt(cx, cy, step, depth, n, i);
    RingAt(cx, cy, step, depth, n, i - 1);
    RadiusStep(i - 1, step);
    assert (i - 1 + 1) as real == i as real;
  }

  /** The shape of `n` rings whose radii grow by `step` up to `delta`. */
  lemma RingsGeometry(cx: real, cy: real, step: real, depth: real, delta: real, n: nat)
    requires n >= 1 && step > 0.0 && n as real * step == delta
    ensures var cuts := Rings(cx, cy, step, depth, n);
      && (forall i :: 0 <= i < n ==>
            && cuts[i].Bored? && cuts[i].centreX == cx && cuts[i].centreY == cy && cuts[i].fromX == cx
            && cuts[i].fromZ == 0.0 && cuts[i].toZ == -depth
            && 0.0 < cuts[i].fromY - cy <= delta)
      && cuts[0].fromY - cy == step
      && (forall i :: 0 < i < n ==> cuts[i].fromY - cuts[i - 1].fromY == step)
      && cuts[n - 1].fromY - cy == delta
  {
    var cuts := Rings(cx, cy, step, depth, n);
    forall i | 0 <= i < n
      ensures && cuts[i].Bored? && cuts[i].centreX == cx && cuts[i].centreY == cy && cuts[i].fromX == cx
              && cuts[i].fromZ == 0.0 && cuts[i].toZ == -depth
              && 0.0 < cuts[i].fromY - cy <= delta
    {
      RingAt(cx, cy, step, depth, n, i);
      RingRadiusBounds(i, n, step, delta);
    }
    forall i | 0 < i < n
      ensures cuts[i].fromY - cuts[i - 1].fromY == step
    {
      RingsWiden(cx, cy, step, depth, n, i);
    }
    RingAt(cx, cy, step, depth, n, 0);
    RingAt(cx, cy, step, depth, n, n - 1);
    assert ((n - 1 + 1) as real) * step == delta;
  }

  /**
   The bore passes are centred on the hole and run from the surface to full
   depth; the first pass and each later one widen the cut by `PassStep <= a_e`;
   the last pass reaches radius `delta`, so the mill's edge ends exactly on the
   hole's diameter and never goes beyond it.
   */
  lemma BoreGeometry(s: Setup, h: Hole)
    requires ValidSetup(s) && Eligible(s, h)
    ensures var cuts := BoreCuts(s, h);
      && |cuts| == PassCount(s, h) >= 1
      && (forall i :: 0 <= i < |cuts| ==>
            && cuts[i].Bored? && cuts[i].centreX == h.x && cuts[i].centreY == h.y && cuts[i].fromX == h.x
            && cuts[i].fromZ == 0.0 && cuts[i].toZ == -s.depth
            && 0.0 < cuts[i].fromY - h.y <= Excess(s, h)
            && cuts[i].fromY - h.y + s.drill / 2.0 <= h.diameter / 2.0)
      && cuts[0].fromY - h.y == PassStep(s, h) <= s.engagement
      && (forall i :: 0 < i < |cuts| ==> cuts[i].fromY - cuts[i - 1].fromY == PassStep(s, h))
      && cuts[|cuts| - 1].fromY - h.y == Excess(s, h)
      && cuts[|cuts| - 1].fromY - h.y + s.drill / 2.0 == h.diameter / 2.0
  {
    PassCountBounds(s, h);
    PassStepBounds(s, h);
    RingsGeometry(h.x, h.y, PassStep(s, h), s.depth, Excess(s, h), PassCount(s, h));
  }

  // ---------------------------------------------------------------------------
  // Where the mill goes
  //
  // `Trace` holds the state at the end of each command, so the lemmas below
  // bound where the commands of a hole end. The approach `G0 X Y` may start
  // anywhere; every later G0 or G1 runs in a straight line between two such
  // end positions, and the path of each G2 is the `Bored` ring that
  // `BoreGeometry` bounds.

  /**
   The mill's axis lies on the radial segment from the hole centre `(cx, cy)`
   towards +y, between radii `lo` and `hi`.
   */
  predicate OnRadius(t: Machine, cx: real, cy: real, lo: real, hi: real)
  {
    t.x == cx && cy + lo <= t.y <= cy + hi
  }

  /** How far a hole's moves take the mill's axis from its centre: `delta` when it is bored, else 0. */
  function Reach(s: Setup, h: Hole): real
  {
    if Eligible(s, h) then Excess(s, h) else 0.0
  }

  /** Every command of the pilot ends on the hole centre. */
  lemma PilotTrace(s: Setup, h: Hole, m: Machine)
    requires !m.relative
    ensures forall t :: t in Trace(m, PilotMoves(s, h)) ==> OnRadius(t, h.x, h.y, 0.0, 0.0)
  {
    var m1 := Machine(h.x, h.y, m.z, false, m.feed);
    var m2 := m1.(z := 1.0);
    var m3 := m2.(z := 0.0, feed := 60);
    var m4 := m3.(z := 0.5);
    var m5 := m4.(z := 0.0);
    var a, b, c, d, e := RapidXY(h.x, h.y), RapidZ(1.0), FeedZ(0.0, Some(60)), PeckDrill(0.5, 0.25, -s.depth), FeedZ(0.0, None);
    assert PilotMoves(s, h) == [a] + ([b] + ([c] + ([d] + ([e] + []))));
    assert Exec(m, a) == m1 && Exec(m1, b) == m2 && Exec(m2, c) == m3;
    assert Exec(m3, d) == m4 && Exec(m4, e) == m5;
    TraceCons(m4, e, []);
    TraceCons(m3, d, [e] + []);
    TraceCons(m2, c, [d] + ([e] + []));
    TraceCons(m1, b, [c] + ([d] + ([e] + [])));
    TraceCons(m, a, [b] + ([c] + ([d] + ([e] + []))));
    assert Trace(m, PilotMoves(s, h)) == [m1, m2, m3, m4, m5];
  }

  /** Every command of pass `i` ends between radii `i * step` and `(i + 1) * step`. */
  lemma PassTrace(s: Setup, step: real, i: nat, n: int, cx: real, cy: real, f: nat)
    requires ValidSetup(s) && i < n && step > 0.0
    ensures var m, lo, hi := Machine(cx, cy + (i as real) * step, 0.0, true, f), (i as real) * step, ((i + 1) as real) * step;
      forall t :: t in Trace(m, PassMoves(s, step, i, n)) ==> OnRadius(t, cx, cy, lo, hi)
  {
    var ri, r := (i as real) * step, ((i + 1) as real) * step;
    RadiusStep(i, step);
    var m := Machine(cx, cy + ri, 0.0, true, f);
    var out := Machine(cx, cy + r, 0.0, true, f);
    var bottom := Machine(cx, cy + r, -s.depth, true, f);
    var feed, helix := FeedY(step), HelixCW(-s.depth, 0.0, -((i + 1) as real) * step, Turns(s));
    assert Exec(m, feed) == out;
    assert Exec(out, helix) == bottom;
    if i != n - 1 {
      var back, up, again := FeedY(-step), RapidZ(s.depth), FeedY(step);
      assert PassMoves(s, step, i, n) == [feed] + ([helix] + ([back] + ([up] + ([again] + []))));
      var m3 := Machine(cx, cy + r - step, -s.depth, true, f);
      var m4 := m3.(z := 0.0);
      assert Exec(bottom, back) == m3 && Exec(m3, up) == m4 && Exec(m4, again) == out;
      TraceCons(m4, again, []);
      TraceCons(m3, up, [again] + []);
      TraceCons(bottom, back, [up] + ([again] + []));
      TraceCons(out, helix, [back] + ([up] + ([again] + [])));
      TraceCons(m, feed, [helix] + ([back] + ([up] + ([again] + []))));
      assert Trace(m, PassMoves(s, step, i, n)) == [out, bottom, m3, m4, out];
    } else {
      assert PassMoves(s, step, i, n) == [feed] + ([helix] + []);
      TraceCons(out, helix, []);
      TraceCons(m, feed, [helix] + []);
      assert Trace(m, PassMoves(s, step, i, n)) == [out, bottom];
    }
  }

  /** Every command of the first `k` passes ends within radius `k * step` of the centre, on the +y side. */
  lemma {:induction false} PassesTrace(s: Setup, step: real, k: nat, n: int, cx: real, cy: real, f: nat)
    requires ValidSetup(s) && k <= n && n >= 1 && step > 0.0
    ensures var m := Machine(cx, cy, 0.0, true, f);
      forall t :: t in Trace(m, PassesUpTo(s, step, k, n)) ==> OnRadius(t, cx, cy, 0.0, (k as real) * step)
  {
    if k > 0 {
      var m := Machine(cx, cy, 0.0, true, f);
      var j: nat := k - 1;
      var prefix, pass := PassesUpTo(s, step, j, n), PassMoves(s, step, j, n);
      PassesTrace(s, step, j, n, cx, cy, f);
      PassesEffect(s, step, j, n, cx, cy, f);
      var mid := Machine(cx, cy + (j as real) * step, 0.0, true, f);
      assert ExecAll(m, prefix) == mid;
      TraceAppend(m, prefix, pass);
      PassTrace(s, step, j, n, cx, cy, f);
      RadiusStep(j, step);
      MulMonotone(0.0, j as real, step);
      assert PassesUpTo(s, step, k, n) == prefix + pass;
      assert (j + 1) as real == k as real;
      forall t | t in Trace(m, PassesUpTo(s, step, k, n))
        ensures OnRadius(t, cx, cy, 0.0, (k as real) * step)
      {
        if t !in Trace(m, prefix) {
          assert t in Trace(mid, pass);
        }
      }
    }
  }

  /** Every command of the bore ends with the mill's axis on the radius from the centre to `delta`. */
  lemma SpiralTrace(s: Setup, h: Hole, f: nat)
    requires ValidSetup(s) && Eligible(s, h)
    ensures var m := Machine(h.x, h.y, 0.0, false, f);
      forall t :: t in Trace(m, SpiralMoves(s, h)) ==> OnRadius(t, h.x, h.y, 0.0, Excess(s, h))
  {
    PassCountBounds(s, h);
    PassStepBounds(s, h);
    var n, step := PassCount(s, h), PassStep(s, h);
    var rel := Machine(h.x, h.y, 0.0, true, f);
    PassesTrace(s, step, n, n, h.x, h.y, f);
    PassesEffect(s, step, n, n, h.x, h.y, f);
    SpiralTraceParts(s, h, f);
    assert ExecAll(rel, PassesUpTo(s, step, n, n)) == Machine(h.x, h.y + Excess(s, h), -s.depth, true, f);
  }

  /** The states of the bore: relative mode, the passes, absolute mode, and the return to the centre. */
  lemma SpiralTraceParts(s: Setup, h: Hole, f: nat)
    requires ValidSetup(s) && Eligible(s, h)
    ensures var m := Machine(h.x, h.y, 0.0, false, f);
      var rel := m.(relative := true);
      var passes := PassesUpTo(s, PassStep(s, h), PassCount(s, h), PassCount(s, h));
      var outer := ExecAll(rel, passes);
      Trace(m, SpiralMoves(s, h))
        == [rel] + (Trace(rel, passes) + [outer.(relative := false), outer.(relative := false, x := h.x, y := h.y)])
  {
    var m := Machine(h.x, h.y, 0.0, false, f);
    var rel := m.(relative := true);
    var passes := PassesUpTo(s, PassStep(s, h), PassCount(s, h), PassCount(s, h));
    var outer := ExecAll(rel, passes);
    var tail := [AbsoluteMode, FeedXY(h.x, h.y)];
    assert tail == [AbsoluteMode] + ([FeedXY(h.x, h.y)] + []);
    assert SpiralMoves(s, h) == [RelativeMode] + (passes + tail);
    TraceCons(outer.(relative := false), FeedXY(h.x, h.y), []);
    TraceCons(outer, AbsoluteMode, [FeedXY(h.x, h.y)] + []);
    TraceAppend(rel, passes, tail);
    TraceCons(m, RelativeMode, passes + tail);
  }

  /**
   From any absolute-mode state, every command of a hole ends on the radius
   from the hole centre to `Reach`, and for a bored hole the far end of that
   radius puts the mill's edge exactly on the hole's diameter.
   */
  lemma HolePlanTrace(s: Setup, h: Hole, m: Machine)
    requires ValidSetup(s) && !m.relative
    ensures forall t :: t in Trace(m, HolePlan(s, h)) ==> OnRadius(t, h.x, h.y, 0.0, Reach(s, h))
    ensures Eligible(s, h) ==> Reach(s, h) > 0.0 && Reach(s, h) + s.drill / 2.0 == h.diameter / 2.0
  {
    var pilot, retract := PilotMoves(s, h), RetractMoves();
    var middle := if Eligible(s, h) then SpiralMoves(s, h) else [];
    PilotEffect(s, h, m);
    PilotTrace(s, h, m);
    var m1 := Machine(h.x, h.y, 0.0, false, 60);
    TraceAppend(m, pilot + middle, retract);
    TraceAppend(m, pilot, middle);
    RunAppend(m, pilot, middle);
    var m2 := m1.(z := if Eligible(s, h) then -s.depth else 0.0);
    if Eligible(s, h) {
      PassCountBounds(s, h);
      SpiralEffect(s, h, 60);
      SpiralTrace(s, h, 60);
    }
    assert ExecAll(m1, middle) == m2;
    assert retract == [RapidZ(5.0)] + ([SetFeed(1000)] + []);
    TraceCons(m2.(z := 5.0), SetFeed(1000), []);
    TraceCons(m2, RapidZ(5.0), [SetFeed(1000)] + []);
    assert Trace(m2, retract) == [m2.(z := 5.0), m2.(z := 5.0, feed := 1000)];
  }

  /** Everything the script should cut, hole after hole. */
  function ProgramCuts(s: Setup, hs: seq<Hole>): seq<Cut>
    requires ValidSetup(s)
  {
    if hs == [] then [] else ProgramCuts(s, hs[..|hs| - 1]) + HoleCuts(s, hs[|hs| - 1])
  }

  /**
   The whole hole loop cuts each hole's material in list order, whatever came
   before, and ends above the last hole.
   */
  lemma {:induction false} ProgramEffect(s: Setup, hs: seq<Hole>, m: Machine)
    requires ValidSetup(s) && !m.relative
    ensures Cuts(m, Program(s, hs)) == ProgramCuts(s, hs)
    ensures hs != [] ==> ExecAll(m, Program(s, hs)) == Machine(hs[|hs| - 1].x, hs[|hs| - 1].y, 5.0, false, 1000)
    ensures hs == [] ==> ExecAll(m, Program(s, hs)) == m
  {
    if hs != [] {
      var init, last := hs[..|hs| - 1], hs[|hs| - 1];
      ProgramEffect(s, init, m);
      var mid := ExecAll(m, Program(s, init));
      RunAppend(m, Program(s, init), HolePlan(s, last));
      HolePlanEffect(s, last, mid);
    }
  }
}
