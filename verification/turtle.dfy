/**
 The turtle pen of the L-system explorer: a position, a heading in radians and a
 LIFO stack of saved (position, heading) states.

 The forward move uses cosine and sine on single-precision floats; the model does
 not interpret them and takes the move as a parameter `step`, so every property
 below holds for whatever geometry `step` computes. Headings are exact reals.
 */
module TurtleGraphics {
  import opened Wrappers

  /** A point of the drawing plane. */
  datatype Vec2 = Vec2(x: real, y: real)

  const Origin: Vec2 := Vec2(0.0, 0.0)

  /** `step(pos, heading, distance)` is the point `distance` away from `pos` along `heading`. */
  type StepFn = (Vec2, real, real) -> Vec2

  /** pi / 180, the factor by which a turn in degrees becomes a turn in radians. */
  const RadiansPerDegree: real := 0.017453292519943295

  function ToRadians(degrees: real): real
  {
    degrees * RadiansPerDegree
  }

  /** A saved pen state. */
  datatype State = State(pos: Vec2, head: real)

  /** The pen; the top of `stack` is its last element. */
  datatype Turtle = Turtle(stack: seq<State>, position: Vec2, heading: real)

  /** A fresh pen: at the origin, facing along the x axis, nothing saved. */
  function New(): (t: Turtle)
    ensures t.position == Origin && t.heading == 0.0 && t.stack == []
  {
    Turtle([], Origin, 0.0)
  }

  function Curr(t: Turtle): Vec2
  {
    t.position
  }

  /** Moves the pen `distance` along its heading and returns the point reached. */
  function Fd(t: Turtle, step: StepFn, distance: real): (r: (Turtle, Vec2))
    ensures r.1 == step(t.position, t.heading, distance)
    ensures Curr(r.0) == r.1
    ensures r.0.heading == t.heading && r.0.stack == t.stack
  {
    var p := step(t.position, t.heading, distance);
    (t.(position := p), p)
  }

  /** Turns the pen counter-clockwise by `degrees`. */
  function Left(t: Turtle, degrees: real): (r: Turtle)
    ensures r.heading - t.heading == ToRadians(degrees)
    ensures r.position == t.position && r.stack == t.stack
  {
    t.(heading := t.heading + ToRadians(degrees))
  }

  /** Turns the pen clockwise by `degrees`. */
  function Right(t: Turtle, degrees: real): (r: Turtle)
    ensures t.heading - r.heading == ToRadians(degrees)
    ensures r.position == t.position && r.stack == t.stack
  {
    t.(heading := t.heading - ToRadians(degrees))
  }

  /** Saves the current position and heading on top of the stack. */
  function Push(t: Turtle): (r: Turtle)
    ensures |r.stack| == |t.stack| + 1
    ensures r.stack[..|t.stack|] == t.stack
    ensures r.stack[|t.stack|] == State(t.position, t.heading)
    ensures r.position == t.position && r.heading == t.heading
  {
    t.(stack := t.stack + [State(t.position, t.heading)])
  }

  /**
   Restores the most recently saved state and yields the restored position; on an
   empty stack yields None and leaves the pen as it was.
   */
  function Pop(t: Turtle): (r: (Turtle, Option<Vec2>))
    ensures t.stack == [] <==> r.1 == None
    ensures t.stack == [] ==> r.0 == t
    ensures t.stack != [] ==>
      var top := t.stack[|t.stack| - 1];
      && r.0 == Turtle(t.stack[..|t.stack| - 1], top.pos, top.head)
      && r.1 == Some(top.pos)
  {
    if t.stack == [] then
      (t, None)
    else
      var top := t.stack[|t.stack| - 1];
      (Turtle(t.stack[..|t.stack| - 1], top.pos, top.head), Some(top.pos))
  }

  /** A pop undoes the push before it and yields the position saved by it. */
  lemma PushThenPop(t: Turtle)
    ensures Pop(Push(t)) == (t, Some(t.position))
  {
    assert Push(t).stack[..|t.stack|] == t.stack;
  }

  /** Popping an empty stack changes nothing. */
  lemma PopEmptyIsNoOp(t: Turtle)
    requires t.stack == []
    ensures Pop(t).0 == t && Pop(t).1.None?
  {
  }

  /** A right turn undoes a left turn by the same angle, and vice versa. */
  lemma LeftRightInverse(t: Turtle, degrees: real)
    ensures Right(Left(t, degrees), degrees) == t
    ensures Left(Right(t, degrees), degrees) == t
  {
  }

  /** Successive turns add up, so the order of turns does not matter. */
  lemma TurnsCompose(t: Turtle, a: real, b: real)
    ensures Left(Left(t, a), b) == Left(t, a + b)
    ensures Right(Right(t, a), b) == Right(t, a + b)
    ensures Left(Right(t, a), b) == Right(Left(t, b), a)
    ensures Right(t, a) == Left(t, -a)
  {
  }

  /** Moving forward changes the position only; a later `Curr` reads the point returned. */
  lemma FdMovesOnlyPosition(t: Turtle, step: StepFn, distance: real)
    ensures var (t', p) := Fd(t, step, distance);
      t' == t.(position := p) && Curr(t') == p
  {
  }
}
