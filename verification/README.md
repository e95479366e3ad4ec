# L-system explorer: rewriting engine and turtle walk

A Dafny model of the two algorithms at the core of the L-system explorer.

1. **Rewriting.** `LSystem::rewrite` expands every character of a string in one
   left-to-right pass. A character whose one-character string is a key of the rule
   table becomes that rule's right-hand side; any other character is copied. The
   engine does not rescan what it has just produced. `LSystem::draw` rewrites the
   start string `n` times and then hands the result to `calc_points`.
2. **The turtle walk.** `calc_points` folds a `Turtle` over the symbol string. The
   turtle holds a position, a heading in radians and a LIFO stack of saved states.
   The walk returns a list of polylines. It dispatches each character in this
   order:
   - `'X'` is skipped, even if it has a rule.
   - Any other character that has a rule moves forward and appends the new point
     to the last polyline.
   - `+` turns left and `-` turns right.
   - `[` saves the state.
   - `]` restores the last saved state and opens a new polyline at the restored
     position. On an empty stack it only prints a diagnostic.
   - Every other character only prints a diagnostic.

Modules:

- `TurtleGraphics` (`turtle.dfy`) models `src/turtle.rs`: `Vec2`, `State`,
  `Turtle` and the pen operations.
- `LSystems` (`lsystem.dfy`) models `src/lsystem.rs`. It holds the rule table,
  `Rewrite`, `Generation` (the `draw` loop), and `Classify`, which is the dispatch
  of `calc_points` as a tagged command. It also holds the walk: `Interpret` for one
  character, `Run` for the fold, `CalcPoints`, and the method `Draw`.
- `RewriteProperties` (`rewrite_props.dfy`) proves that rewriting is a string
  homomorphism, plus its length, identity, key and generation facts and the Koch
  test vectors.
- `WalkProperties` (`walk_props.dfy`) counts polylines and points from the
  dispatch alone. It proves that runs of turns only add angles, and that a
  balanced branch `[ … ]` restores the pen when `[` and `]` have no rule.
- `Wrappers` (`wrappers.dfy`) holds the `Option` type that `Pop` returns.

Modelling choices:

- Rules are `map<string, string>`, like the source's `HashMap<String, String>`.
  Lookup uses the one-character string `[c]`, so keys of any other length never
  match (`MultiCharKeysIgnored`).
- The two files conflict over `pop`. `Turtle::pop` returns `()` and prints on an
  empty stack, while `calc_points` matches `Ok(pos)`/`Err(err)` on its result, so
  the two do not type-check together. They agree only on the state change: a pop
  of a non-empty stack restores the saved position and heading, and a pop of an
  empty stack changes nothing. The model keeps that state change and takes the
  returned value from the `Ok(pos)` arm of `calc_points`, written as `Option`
  instead of `Result`: `Pop` yields `Some(restored position)` or `None`.
- The forward move is taken as a parameter `step: (Vec2, real, real) -> Vec2`.
  It is applied to the position, the heading and the distance
  `length as f32 * scale`. Every property of the walk therefore holds for any
  geometry. Headings are exact reals, and `to_radians` multiplies by π/180 (as a
  decimal constant).
- The `println!` diagnostics become a list of `Diagnostic` values in the walk
  state. They never change the turtle or the points.
- The Koch grammar of `src/main.rs` (`F → F+F-F-F+F`) gives a 9-symbol first
  generation and a 49-symbol second generation.

## Model

| member | source | states |
|---|---|---|
| TurtleGraphics.New | src/turtle.rs:35-43 | a new turtle is at the origin, heading 0, with an empty stack |
| TurtleGraphics.Fd | src/turtle.rs:45-57 | the returned point is the step from the old position along the heading; `Curr` afterwards reads that point; heading and stack are unchanged |
| TurtleGraphics.FdMovesOnlyPosition | src/turtle.rs:45-57 | moving forward changes the position and nothing else, and `Curr` then equals the point `fd` returned |
| TurtleGraphics.Left | src/turtle.rs:59-61 | a left turn raises the heading by the angle in radians and leaves position and stack alone |
| TurtleGraphics.Right | src/turtle.rs:63-65 | a right turn lowers the heading by the angle in radians and leaves position and stack alone |
| TurtleGraphics.LeftRightInverse | src/turtle.rs:59-65 | a right turn undoes a left turn by the same angle, and the reverse |
| TurtleGraphics.TurnsCompose | src/turtle.rs:59-65 | successive turns add their angles, left and right turns commute, and a right turn is a left turn by the negated angle |
| TurtleGraphics.Push | src/turtle.rs:67-69 | the stack grows by one, keeps the old entries below, and holds the current position and heading on top; the pen does not move |
| TurtleGraphics.Pop | src/turtle.rs:71-80 | a pop of a non-empty stack removes the top and restores its position and heading, yielding that position; a pop of an empty stack yields None and changes nothing |
| TurtleGraphics.PushThenPop | src/turtle.rs:67-80 | a pop right after a push gives back the original turtle and its position |
| TurtleGraphics.PopEmptyIsNoOp | src/turtle.rs:71-80 | a pop of an empty stack leaves position, heading and stack as they were |
| LSystems.Rewrite | src/lsystem.rs:40-49 | the output length is the sum over input characters of the rule's length for a ruled character, else 1 |
| LSystems.Classify | src/lsystem.rs:56-69 | each command holds exactly when the match arms reach it in order: 'X' first, then "has a rule", then `+ - [ ]`, then the rest |
| LSystems.StartWalk | src/lsystem.rs:52-53 | the walk starts with a new turtle, one polyline holding the origin, and no diagnostics |
| LSystems.Interpret | src/lsystem.rs:56-69 | for one character: polylines stay non-empty, the first point and the closed polylines are untouched, the open polyline only grows, and the stack depth follows the dispatch; a drawing character moves the pen as `fd` does and appends exactly that point to the last polyline; `+` and `-` turn the pen as `left` and `right` do; 'X', turns and `[` add no point; a `]` that pops restores the saved state and opens a polyline at its position; an unmatched `]` or an unknown character only adds a diagnostic, and no other character adds one |
| LSystems.Run | src/lsystem.rs:55-70 | the fold keeps the list non-empty with every polyline non-empty, never changes the first point, and only appends: closed polylines are never modified and the polyline open at the start only grows |
| LSystems.CalcPoints | src/lsystem.rs:51-72 | the result is a non-empty list of non-empty polylines whose first point is the origin |
| LSystems.Draw | src/lsystem.rs:24-38 | the result is the walk over the start string rewritten exactly `n` times (the start string itself when `n` is 0) |
| LSystems.WrappingAdd | src/lsystem.rs:29 | u32 addition as compiled without overflow checks: exact below 2^32, reduced by 2^32 above |
| LSystems.DrawRoundsAsWritten | src/lsystem.rs:29 | the range `1..n + 1` with a wrapping `n + 1` runs `n` times for every `n` below u32::MAX |
| LSystems.DrawRoundsAsWrittenAtMax | src/lsystem.rs:29 | at `n` = u32::MAX the range is empty, so the loop runs 0 times instead of `n` times |
| RewriteProperties.RewriteAppend | src/lsystem.rs:40-49 | rewriting distributes over concatenation: `Rewrite(a + b) == Rewrite(a) + Rewrite(b)` |
| RewriteProperties.RewriteChar | src/lsystem.rs:43-46 | one character rewrites to its rule's right-hand side if it has a rule, otherwise to itself |
| RewriteProperties.PassThrough | src/lsystem.rs:45 | a character without a rule appears unchanged in the output, between the rewrites of what precedes and what follows it |
| RewriteProperties.RewriteCons | src/lsystem.rs:42-47 | the rewrite of `c` followed by `s` is the expansion of `c` followed by the rewrite of `s` |
| RewriteProperties.RewriteIdentity | src/lsystem.rs:42-47 | a string none of whose characters has a rule is its own rewrite |
| RewriteProperties.EmptyRulesIdentity | src/lsystem.rs:40-49 | with no rules, rewriting is the identity |
| RewriteProperties.MultiCharKeysIgnored | src/lsystem.rs:44 | adding a rule whose key is not one character long never changes a rewrite |
| RewriteProperties.GenerationCompose | src/lsystem.rs:29-32 | `n` generations applied to the `m`-th generation give the `(m + n)`-th |
| RewriteProperties.KochFirstGeneration | src/main.rs:31-35 | under the Koch rule, one rewrite of "F" is exactly "F+F-F-F+F", which has 9 symbols |
| RewriteProperties.KochSecondGeneration | src/main.rs:31-35 | the second Koch generation is five copies of the rule joined by `+ - - +`, 49 symbols |
| RewriteProperties.MarkerIsRewritten | src/lsystem.rs:40-49 | the 'X' marker is rewritten like any symbol when it has a rule; only the walk skips it |
| WalkProperties.RunAppend | src/lsystem.rs:55-70 | walking `a + b` is walking `a` and then walking `b` from where it ended |
| WalkProperties.PolylineCount | src/lsystem.rs:64-67 | the number of polylines grows by exactly the number of `]` that find a saved state, a count taken from the dispatch alone |
| WalkProperties.CalcPointsPolylineCount | src/lsystem.rs:51-72 | the drawing has 1 polyline plus one per successful pop |
| WalkProperties.NoRestoreNoPops | src/lsystem.rs:64-67 | a string with no `]` command has no successful pops |
| WalkProperties.NoCloseBracketOnePolyline | src/lsystem.rs:51-72 | an input without `]` is drawn as exactly one polyline |
| WalkProperties.InterpretPointCount | src/lsystem.rs:58-67 | one character adds one point if it draws, one if it opens a polyline, and none otherwise |
| WalkProperties.PointCount | src/lsystem.rs:55-70 | a walk adds one point per drawing character plus one per successful pop |
| WalkProperties.CalcPointsPointCount | src/lsystem.rs:51-72 | the drawing holds 1 + (drawing characters) + (successful pops) points in all |
| WalkProperties.RuledSymbolsDraw | src/lsystem.rs:57-59 | any character other than 'X' that has a rule draws, even `+`, `-`, `[` or `]` |
| WalkProperties.MarkerSkipped | src/lsystem.rs:57 | 'X' leaves the whole walk state unchanged, whether or not it has a rule |
| WalkProperties.NetAngleCountsTurns | src/turtle.rs:59-65 | the signed sum of turn angles equals the net number of left turns times the angle in radians |
| WalkProperties.TurnRun | src/lsystem.rs:61-62 | a run of `+`/`-` commands changes only the heading, by the sum of its signed turns |
| WalkProperties.TurnsCommute | src/lsystem.rs:61-62 | swapping two runs of turns does not change the walk |
| WalkProperties.StackBaseKept | src/lsystem.rs:63-67 | a walk that never pops below a given depth keeps the saved states below that depth, and ends at the depth the dispatch predicts |
| WalkProperties.BranchRestores | src/lsystem.rs:63-67 | when `[` and `]` have no rule, for a balanced body `s`, `[ s ]` returns the pen to its original position, heading and stack, and the last polyline is exactly that position |

## Left out

- `src/main.rs`: the nannou application, window and rendering are user-interface code. Its grammars serve only as test vectors. Its calls `draw(7)` (one argument) and `10.0` as a `u32` length do not match the signatures in `src/lsystem.rs`.
- The cosine and sine in `fd` are single-precision floating point. They are the `step` parameter here, so no property depends on their values.
- Heading arithmetic is exact real arithmetic. `to_radians` is multiplication by a decimal π/180.
- TurtleGraphics.LeftRightInverse: exact only in real arithmetic. With `f32` rounding, a left turn followed by a right turn restores the heading only approximately.
- TurtleGraphics.TurnsCompose: exact only in real arithmetic, for the same reason.
- WalkProperties.TurnsCommute: exact only in real arithmetic, for the same reason.
- The `length as f32 * scale` distance is exact: the `f32` conversion of lengths above 2^24 is not modelled.
- The `println!` output is recorded as `Diagnostic` values and never printed.
- `LSystem::new` and `State::new` only construct records; they are the datatype constructors.
- `Curr` has no row of its own. Its meaning is stated in the contract of `Fd`.

## Findings

| source | as written | input that shows it | evidently intended | confidence | as-written member | corrected member |
|---|---|---|---|---|---|---|
| src/lsystem.rs:29 | `for _ in 1..n + 1` with `n: u32`: `n + 1` overflows at u32::MAX. A release build wraps it to 0, so the range is empty; a debug build panics | `n = 4294967295` | rewrite the start string exactly `n` times | high, from Rust's u32 overflow rules; not executed; `draw(u32::MAX, _)` returns at once with 0 rounds in a release build and panics in a debug build | LSystems.DrawRoundsAsWritten, LSystems.DrawRoundsAsWrittenAtMax | LSystems.Draw |
