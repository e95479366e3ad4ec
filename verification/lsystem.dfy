/**
 The L-system engine: one-pass rewriting of a symbol string by a rule table, the
 `draw` loop that rewrites `n` times, and `calc_points`, which walks a turtle over
 the final string and collects the polylines it draws.
 */
module LSystems {
  import opened Wrappers
  import opened TurtleGraphics

  /** An unsigned 32-bit integer. */
  type u32 = x: int | 0 <= x < 0x1_0000_0000

  const U32Max: u32 := 0xFFFF_FFFF

  /** The rule table: string keys, string right-hand sides. */
  type Rules = map<string, string>

  datatype LSystem = LSystem(start: string, rules: Rules, length: u32, angle: real)

  /* ----- Rewriting ----- */

  /** Characters are looked up by their one-character string. */
  predicate HasRule(rules: Rules, c: char)
  {
    [c] in rules
  }

  /** What one character becomes: its rule's right-hand side, or itself. */
  function Expand(rules: Rules, c: char): string
  {
    if HasRule(rules, c) then rules[[c]] else [c]
  }

  /** The length each character contributes to a rewrite. */
  function ExpandLength(rules: Rules, c: char): nat
  {
    if HasRule(rules, c) then |rules[[c]]| else 1
  }

  /** The sum of `ExpandLength` over the characters of `s`. */
  function RewrittenLength(rules: Rules, s: string): nat
  {
    if s == [] then 0 else RewrittenLength(rules, s[..|s| - 1]) + ExpandLength(rules, s[|s| - 1])
  }

  /**
   One generation: every character of `input` is replaced by its expansion, left to
   right, without rescanning what was produced.
   */
  function Rewrite(rules: Rules, input: string): (r: string)
    ensures |r| == RewrittenLength(rules, input)
    decreases |input|
  {
    if input == [] then []
    else Rewrite(rules, input[..|input| - 1]) + Expand(rules, input[|input| - 1])
  }

  /** `f` applied `n` times to `x`. */
  function Iterate(f: string -> string, x: string, n: nat): string
  {
    if n == 0 then x else f(Iterate(f, x, n - 1))
  }

  /** The string after `n` generations. */
  function Generation(rules: Rules, start: string, n: nat): string
  {
    Iterate(s => Rewrite(rules, s), start, n)
  }

  /* ----- Symbol dispatch ----- */

  /** What the turtle does with one character. */
  datatype Command = Skip | Forward | TurnLeft | TurnRight | Save | Restore | Unrecognised

  /**
   The dispatch of the walk, tried in this order: 'X' is skipped, any other character
   with a rule draws, then the four structural characters, then everything else.
   */
  function Classify(rules: Rules, c: char): (cmd: Command)
    ensures cmd == Skip <==> c == 'X'
    ensures cmd == Forward <==> c != 'X' && HasRule(rules, c)
    ensures cmd == TurnLeft <==> c == '+' && !HasRule(rules, c)
    ensures cmd == TurnRight <==> c == '-' && !HasRule(rules, c)
    ensures cmd == Save <==> c == '[' && !HasRule(rules, c)
    ensures cmd == Restore <==> c == ']' && !HasRule(rules, c)
    ensures cmd == Unrecognised <==> c !in "X+-[]" && !HasRule(rules, c)
  {
    if c == 'X' then Skip
    else if HasRule(rules, c) then Forward
    else if c == '+' then TurnLeft
    else if c == '-' then TurnRight
    else if c == '[' then Save
    else if c == ']' then Restore
    else Unrecognised
  }

  /* ----- The walk ----- */

  /** A diagnostic printed during the walk. */
  datatype Diagnostic = NothingToPop | MalformedInput(c: char)

  /** What the walk needs besides the string: rules, step length, turn angle, geometry. */
  datatype Pen = Pen(rules: Rules, distance: real, angle: real, step: StepFn)

  /** The state of the walk: the turtle, the polylines so far, the diagnostics printed. */
  datatype Walk = Walk(turtle: Turtle, points: seq<seq<Vec2>>, diagnostics: seq<Diagnostic>)

  /** A non-empty list of non-empty polylines. */
  predicate Polylines(points: seq<seq<Vec2>>)
  {
    |points| > 0 && forall i :: 0 <= i < |points| ==> |points[i]| > 0
  }

  /** The stack depth after `c`, from the dispatch alone. */
  function DepthAfter(rules: Rules, depth: nat, c: char): nat
  {
    match Classify(rules, c)
    case Save => depth + 1
    case Restore => if depth > 0 then depth - 1 else 0
    case _ => depth
  }

  /** Whether `c` is a `]` that finds a saved state at stack depth `depth`. */
  predicate PopsAt(rules: Rules, depth: nat, c: char)
  {
    Classify(rules, c) == Restore && depth > 0
  }

  /** Appends `p` to the last polyline. */
  function AppendToLast(points: seq<seq<Vec2>>, p: Vec2): seq<seq<Vec2>>
    requires |points| > 0
  {
    points[..|points| - 1] + [points[|points| - 1] + [p]]
  }

  function StartWalk(): (w: Walk)
    ensures w.turtle == New() && w.points == [[Origin]] && w.diagnostics == []
  {
    Walk(New(), [[New().position]], [])
  }

  /** The effect of one character on the walk. */
  function Interpret(pen: Pen, w: Walk, c: char): (r: Walk)
    requires Polylines(w.points)
    ensures Polylines(r.points)
    ensures r.points[0][0] == w.points[0][0]
    ensures |r.turtle.stack| == DepthAfter(pen.rules, |w.turtle.stack|, c)
    ensures |r.points| == |w.points| + (if PopsAt(pen.rules, |w.turtle.stack|, c) then 1 else 0)
    ensures r.points[..|w.points| - 1] == w.points[..|w.points| - 1]
    ensures w.points[|w.points| - 1] <= r.points[|w.points| - 1]
    ensures Classify(pen.rules, c) == Forward ==>
      && r.turtle == Fd(w.turtle, pen.step, pen.distance).0
      && r.turtle.position == pen.step(w.turtle.position, w.turtle.heading, pen.distance)
      && r.points == AppendToLast(w.points, r.turtle.position)
    ensures Classify(pen.rules, c) == TurnLeft ==> r.turtle == Left(w.turtle, pen.angle)
    ensures Classify(pen.rules, c) == TurnRight ==> r.turtle == Right(w.turtle, pen.angle)
    ensures Classify(pen.rules, c) in {Skip, TurnLeft, TurnRight, Save} ==>
      r.points == w.points && r.turtle.position == w.turtle.position
    ensures Classify(pen.rules, c) == Save ==> r.turtle == Push(w.turtle)
    ensures Classify(pen.rules, c) !in {Save, Restore} ==> r.turtle.stack == w.turtle.stack
    ensures PopsAt(pen.rules, |w.turtle.stack|, c) ==>
      var top := w.turtle.stack[|w.turtle.stack| - 1];
      && r.turtle == Turtle(w.turtle.stack[..|w.turtle.stack| - 1], top.pos, top.head)
      && r.points == w.points + [[top.pos]]
    ensures Classify(pen.rules, c) == Unrecognised ==>
      r == w.(diagnostics := w.diagnostics + [MalformedInput(c)])
    ensures Classify(pen.rules, c) == Restore && w.turtle.stack == [] ==>
      r == w.(diagnostics := w.diagnostics + [NothingToPop])
    ensures !(Classify(pen.rules, c) == Unrecognised || (Classify(pen.rules, c) == Restore && w.turtle.stack == [])) ==>
      r.diagnostics == w.diagnostics
  {
    match Classify(pen.rules, c)
    case Skip => w
    case Forward =>
      var (t, p) := Fd(w.turtle, pen.step, pen.distance);
      w.(turtle := t, points := AppendToLast(w.points, p))
    case TurnLeft => w.(turtle := Left(w.turtle, pen.angle))
    case TurnRight => w.(turtle := Right(w.turtle, pen.angle))
    case Save => w.(turtle := Push(w.turtle))
    case Restore =>
      var (t, popped) := Pop(w.turtle);
      (match popped
       case Some(pos) => w.(turtle := t, points := w.points + [[pos]])
       case None => w.(diagnostics := w.diagnostics + [NothingToPop]))
    case Unrecognised => w.(diagnostics := w.diagnostics + [MalformedInput(c)])
  }

  /**
   The walk over a whole string, strictly left to right. Polylines are only ever
   added or extended at the end: those already closed are never changed, and the
   one open at the start only grows.
   */
  function Run(pen: Pen, w: Walk, s: string): (r: Walk)
    requires Polylines(w.points)
    ensures Polylines(r.points)
    ensures r.points[0][0] == w.points[0][0]
    ensures |r.points| >= |w.points|
    ensures r.points[..|w.points| - 1] == w.points[..|w.points| - 1]
    ensures w.points[|w.points| - 1] <= r.points[|w.points| - 1]
    decreases |s|
  {
    if s == [] then w
    else
      var next := Interpret(pen, w, s[0]);
      var r := Run(pen, next, s[1..]);
      var n := |w.points|;
      assert r.points[..n - 1] == next.points[..|next.points| - 1][..n - 1];
      assert next.points[n - 1] <= r.points[n - 1] by {
        if |next.points| > n {
          assert r.points[n - 1] == r.points[..|next.points| - 1][n - 1];
        }
      }
      r
  }

  /** The pen a system draws with at a given scale. */
  function PenOf(sys: LSystem, scale: real, step: StepFn): Pen
  {
    Pen(sys.rules, (sys.length as real) * scale, sys.angle, step)
  }

  /**
   The polylines the turtle draws over `input`: never empty, the first starting at
   the origin, none of them empty.
   */
  function CalcPoints(sys: LSystem, input: string, scale: real, step: StepFn): (points: seq<seq<Vec2>>)
    ensures Polylines(points)
    ensures points[0][0] == Origin
  {
    Run(PenOf(sys, scale, step), StartWalk(), input).points
  }

  /** Rewrites the start string `n` times, then walks the turtle over the result. */
  method Draw(sys: LSystem, n: u32, scale: real, step: StepFn) returns (points: seq<seq<Vec2>>)
    ensures points == CalcPoints(sys, Generation(sys.rules, sys.start, n), scale, step)
    ensures n == 0 ==> points == CalcPoints(sys, sys.start, scale, step)
  {
    var command := sys.start;
    var i := 0;
    while i < n
      invariant 0 <= i <= n
      invariant command == Generation(sys.rules, sys.start, i)
    {
      command := Rewrite(sys.rules, command);
      i := i + 1;
    }
    points := CalcPoints(sys, command, scale, step);
  }

  /* ----- The loop bound of `draw` as written ----- */

  /** `a + b` on u32 with release-build wrap-around. */
  function WrappingAdd(a: u32, b: u32): (r: u32)
    ensures a + b < 0x1_0000_0000 ==> r == a + b
    ensures a + b >= 0x1_0000_0000 ==> r == a + b - 0x1_0000_0000
  {
    (a + b) % 0x1_0000_0000
  }

  /** How many times the loop over `1..n + 1` runs when `n + 1` wraps. */
  function DrawRoundsAsWritten(n: u32): (rounds: nat)
    ensures n < U32Max ==> rounds == n
  {
    var end := WrappingAdd(n, 1);
    if end > 1 then end - 1 else 0
  }

  /** At the largest `n` the bound wraps to 0 and the loop does not run at all. */
  lemma DrawRoundsAsWrittenAtMax()
    ensures DrawRoundsAsWritten(U32Max) == 0 != U32Max
  {
  }
}
