/**
 Properties of the turtle walk over a symbol string: how many polylines and points
 it produces, stated by counting the dispatch of the string's characters alone;
 that runs of turns only add up angles; and that a bracketed branch returns the
 pen to where it was saved and opens a new polyline there.
 */
module WalkProperties {
  import opened TurtleGraphics
  import opened LSystems

  /** The number of `]` in `s` that find a saved state, starting at stack depth `depth`. */
  function SuccessfulPops(rules: Rules, depth: nat, s: string): nat
    decreases |s|
  {
    if s == [] then 0
    else
      (if PopsAt(rules, depth, s[0]) then 1 else 0)
      + SuccessfulPops(rules, DepthAfter(rules, depth, s[0]), s[1..])
  }

  /** The number of characters of `s` that draw a segment. */
  function Forwards(rules: Rules, s: string): nat
    decreases |s|
  {
    if s == [] then 0 else (if Classify(rules, s[0]) == Forward then 1 else 0) + Forwards(rules, s[1..])
  }

  /** The number of points over all polylines. */
  function TotalPoints(points: seq<seq<Vec2>>): nat
  {
    if points == [] then 0 else TotalPoints(points[..|points| - 1]) + |points[|points| - 1]|
  }

  /** Walking `a + b` is walking `a` and then `b`. */
  lemma {:induction false} RunAppend(pen: Pen, w: Walk, a: string, b: string)
    requires Polylines(w.points)
    ensures Run(pen, w, a + b) == Run(pen, Run(pen, w, a), b)
    decreases |a|
  {
    if a == [] {
      assert a + b == b;
    } else {
      assert (a + b)[0] == a[0];
      assert (a + b)[1..] == a[1..] + b;
      RunAppend(pen, Interpret(pen, w, a[0]), a[1..], b);
    }
  }

  /** Each `]` that finds a saved state opens one polyline; nothing else does. */
  lemma {:induction false} PolylineCount(pen: Pen, w: Walk, s: string)
    requires Polylines(w.points)
    ensures |Run(pen, w, s).points| == |w.points| + SuccessfulPops(pen.rules, |w.turtle.stack|, s)
    decreases |s|
  {
    if s != [] {
      PolylineCount(pen, Interpret(pen, w, s[0]), s[1..]);
    }
  }

  /** The drawing has one polyline plus one per `]` that finds a saved state. */
  lemma CalcPointsPolylineCount(sys: LSystem, input: string, scale: real, step: StepFn)
    ensures |CalcPoints(sys, input, scale, step)| == 1 + SuccessfulPops(sys.rules, 0, input)
  {
    PolylineCount(PenOf(sys, scale, step), StartWalk(), input);
  }

  /** Without a `]` command no pop can succeed. */
  lemma {:induction false} NoRestoreNoPops(rules: Rules, depth: nat, s: string)
    requires forall i :: 0 <= i < |s| ==> Classify(rules, s[i]) != Restore
    ensures SuccessfulPops(rules, depth, s) == 0
    decreases |s|
  {
    if s != [] {
      assert Classify(rules, s[0]) != Restore;
      NoRestoreNoPops(rules, DepthAfter(rules, depth, s[0]), s[1..]);
    }
  }

  /** An input with no `]` is drawn as exactly one polyline. */
  lemma NoCloseBracketOnePolyline(sys: LSystem, input: string, scale: real, step: StepFn)
    requires ']' !in input
    ensures |CalcPoints(sys, input, scale, step)| == 1
  {
    CalcPointsPolylineCount(sys, input, scale, step);
    NoRestoreNoPops(sys.rules, 0, input);
  }

  lemma TotalPointsAppendPolyline(points: seq<seq<Vec2>>, line: seq<Vec2>)
    ensures TotalPoints(points + [line]) == TotalPoints(points) + |line|
  {
    assert (points + [line])[..|points|] == points;
  }

  /** One character adds one point if it draws, one if it opens a polyline, else none. */
  lemma InterpretPointCount(pen: Pen, w: Walk, c: char)
    requires Polylines(w.points)
    ensures TotalPoints(Interpret(pen, w, c).points)
      == TotalPoints(w.points)
         + (if Classify(pen.rules, c) == Forward then 1 else 0)
         + (if PopsAt(pen.rules, |w.turtle.stack|, c) then 1 else 0)
  {
    var n := |w.points|;
    var r := Interpret(pen, w, c);
    if Classify(pen.rules, c) == Forward {
      var last := w.points[n - 1];
      TotalPointsAppendPolyline(w.points[..n - 1], last + [r.turtle.position]);
      TotalPointsAppendPolyline(w.points[..n - 1], last);
      assert w.points[..n - 1] + [last] == w.points;
    } else if PopsAt(pen.rules, |w.turtle.stack|, c) {
      TotalPointsAppendPolyline(w.points, [w.turtle.stack[|w.turtle.stack| - 1].pos]);
    }
  }

  /**
   Every drawing character appends exactly one point, and every polyline opened by a
   successful `]` starts with one point; nothing else adds points.
   */
  lemma {:induction false} PointCount(pen: Pen, w: Walk, s: string)
    requires Polylines(w.points)
    ensures TotalPoints(Run(pen, w, s).points)
      == TotalPoints(w.points) + Forwards(pen.rules, s) + SuccessfulPops(pen.rules, |w.turtle.stack|, s)
    decreases |s|
  {
    if s != [] {
      InterpretPointCount(pen, w, s[0]);
      PointCount(pen, Interpret(pen, w, s[0]), s[1..]);
    }
  }

  /** Over a whole input: the origin, one point per segment drawn, one per branch reopened. */
  lemma CalcPointsPointCount(sys: LSystem, input: string, scale: real, step: StepFn)
    ensures TotalPoints(CalcPoints(sys, input, scale, step))
      == 1 + Forwards(sys.rules, input) + SuccessfulPops(sys.rules, 0, input)
  {
    PointCount(PenOf(sys, scale, step), StartWalk(), input);
    TotalPointsAppendPolyline([], [Origin]);
  }

  /** A character with a rule draws, even `+`, `-`, `[` or `]`; only 'X' is exempt. */
  lemma RuledSymbolsDraw(pen: Pen, w: Walk, c: char)
    requires Polylines(w.points)
    requires c != 'X' && HasRule(pen.rules, c)
    ensures var r := Interpret(pen, w, c);
      && r.turtle == w.turtle.(position := pen.step(w.turtle.position, w.turtle.heading, pen.distance))
      && r.points == AppendToLast(w.points, r.turtle.position)
  {
  }

  /** 'X' is skipped whether or not it has a rule. */
  lemma MarkerSkipped(pen: Pen, w: Walk)
    requires Polylines(w.points)
    ensures Interpret(pen, w, 'X') == w
  {
  }

  /** The net number of left turns in `s`. */
  function NetTurns(rules: Rules, s: string): int
    decreases |s|
  {
    if s == [] then 0
    else
      (match Classify(rules, s[0])
       case TurnLeft => 1
       case TurnRight => -1
       case _ => 0)
      + NetTurns(rules, s[1..])
  }

  predicate IsTurn(cmd: Command)
  {
    cmd == TurnLeft || cmd == TurnRight
  }

  /** The sum of the signed turns of `s`, in radians. */
  function NetAngle(rules: Rules, angle: real, s: string): real
    decreases |s|
  {
    if s == [] then 0.0
    else
      (match Classify(rules, s[0])
       case TurnLeft => ToRadians(angle)
       case TurnRight => -ToRadians(angle)
       case _ => 0.0)
      + NetAngle(rules, angle, s[1..])
  }

  /** The signed turns add up to the net number of left turns times the angle. */
  lemma {:induction false} NetAngleCountsTurns(rules: Rules, angle: real, s: string)
    ensures NetAngle(rules, angle, s) == (NetTurns(rules, s) as real) * ToRadians(angle)
    decreases |s|
  {
    if s != [] {
      NetAngleCountsTurns(rules, angle, s[1..]);
      var n := NetTurns(rules, s[1..]) as real;
      Distribute(1.0, n, ToRadians(angle));
      Distribute(-1.0, n, ToRadians(angle));
    }
  }

  lemma Distribute(a: real, b: real, d: real)
    ensures a * d + b * d == (a + b) * d
  {
  }

  /** A run of turns only adds its net angle to the heading. */
  lemma {:induction false} TurnRun(pen: Pen, w: Walk, s: string)
    requires Polylines(w.points)
    requires forall i :: 0 <= i < |s| ==> IsTurn(Classify(pen.rules, s[i]))
    ensures Run(pen, w, s)
      == w.(turtle := w.turtle.(heading := w.turtle.heading + NetAngle(pen.rules, pen.angle, s)))
    decreases |s|
  {
    if s != [] {
      TurnRun(pen, Interpret(pen, w, s[0]), s[1..]);
    }
  }

  lemma {:induction false} NetAngleAppend(rules: Rules, angle: real, a: string, b: string)
    ensures NetAngle(rules, angle, a + b) == NetAngle(rules, angle, a) + NetAngle(rules, angle, b)
    decreases |a|
  {
    if a == [] {
      assert a + b == b;
    } else {
      assert (a + b)[0] == a[0];
      assert (a + b)[1..] == a[1..] + b;
      NetAngleAppend(rules, angle, a[1..], b);
    }
  }

  /** The order of the turns in a run of turns does not matter. */
  lemma TurnsCommute(pen: Pen, w: Walk, a: string, b: string)
    requires Polylines(w.points)
    requires forall i :: 0 <= i < |a| ==> IsTurn(Classify(pen.rules, a[i]))
    requires forall i :: 0 <= i < |b| ==> IsTurn(Classify(pen.rules, b[i]))
    ensures Run(pen, w, a + b) == Run(pen, w, b + a)
  {
    forall i | 0 <= i < |a + b|
      ensures IsTurn(Classify(pen.rules, (a + b)[i]))
    {
      if i >= |a| { assert (a + b)[i] == b[i - |a|]; }
    }
    forall i | 0 <= i < |b + a|
      ensures IsTurn(Classify(pen.rules, (b + a)[i]))
    {
      if i >= |b| { assert (b + a)[i] == a[i - |b|]; }
    }
    TurnRun(pen, w, a + b);
    TurnRun(pen, w, b + a);
    NetAngleAppend(pen.rules, pen.angle, a, b);
    NetAngleAppend(pen.rules, pen.angle, b, a);
  }

  /**
   Whether `s`, started `extra` saves above some base depth, never pops below that
   base.
   */
  predicate StaysAbove(rules: Rules, s: string, extra: nat)
    decreases |s|
  {
    s == [] ||
      (!(Classify(rules, s[0]) == Restore && extra == 0)
       && StaysAbove(rules, s[1..], DepthAfter(rules, extra, s[0])))
  }

  /** The depth reached after `s`, from depth `depth`. */
  function FinalDepth(rules: Rules, depth: nat, s: string): nat
    decreases |s|
  {
    if s == [] then depth else FinalDepth(rules, DepthAfter(rules, depth, s[0]), s[1..])
  }

  /** A branch body: its pops match its own saves. */
  predicate Balanced(rules: Rules, s: string)
  {
    StaysAbove(rules, s, 0) && FinalDepth(rules, 0, s) == 0
  }

  /** A walk that never pops below depth `base` leaves the bottom `base` saved states alone. */
  lemma {:induction false} StackBaseKept(pen: Pen, w: Walk, s: string, base: nat)
    requires Polylines(w.points)
    requires base <= |w.turtle.stack|
    requires StaysAbove(pen.rules, s, |w.turtle.stack| - base)
    ensures var r := Run(pen, w, s);
      && |r.turtle.stack| == base + FinalDepth(pen.rules, |w.turtle.stack| - base, s)
      && r.turtle.stack[..base] == w.turtle.stack[..base]
    decreases |s|
  {
    if s != [] {
      var c := s[0];
      var next := Interpret(pen, w, c);
      var extra := |w.turtle.stack| - base;
      assert |next.turtle.stack| - base == DepthAfter(pen.rules, extra, c);
      assert next.turtle.stack[..base] == w.turtle.stack[..base] by {
        if Classify(pen.rules, c) == Save {
          assert next.turtle.stack[..|w.turtle.stack|] == w.turtle.stack;
        } else if Classify(pen.rules, c) == Restore {
          assert extra > 0;
          assert next.turtle.stack == w.turtle.stack[..|w.turtle.stack| - 1];
        }
      }
      StackBaseKept(pen, next, s[1..], base);
    }
  }

  /**
   A balanced branch `[ s ]` (with `[` and `]` not rewritten as drawing symbols)
   returns the pen to the position, heading and stack it had before, and leaves a new
   polyline holding just that position.
   */
  lemma BranchRestores(pen: Pen, w: Walk, s: string)
    requires Polylines(w.points)
    requires !HasRule(pen.rules, '[') && !HasRule(pen.rules, ']')
    requires Balanced(pen.rules, s)
    ensures var r := Run(pen, w, "[" + s + "]");
      && r.turtle == w.turtle
      && r.points[|r.points| - 1] == [w.turtle.position]
  {
    var saved := Interpret(pen, w, '[');
    assert saved.turtle == Push(w.turtle);
    assert Run(pen, w, "[") == saved;
    var body := Run(pen, saved, s);
    StackBaseKept(pen, saved, s, |saved.turtle.stack|);
    assert body.turtle.stack == saved.turtle.stack;
    var after := Interpret(pen, body, ']');
    assert Run(pen, body, "]") == after;
    RunAppend(pen, w, "[", s);
    RunAppend(pen, w, "[" + s, "]");
  }
}
