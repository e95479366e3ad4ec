/**
 Properties of one-pass rewriting and of the generation loop: rewriting is a string
 homomorphism determined by what each character expands to, characters without a
 rule pass through, only one-character keys of the rule table matter, and `n`
 generations compose additively.
 */
module RewriteProperties {
  import opened LSystems

  /** Rewriting distributes over concatenation. */
  lemma {:induction false} RewriteAppend(rules: Rules, a: string, b: string)
    ensures Rewrite(rules, a + b) == Rewrite(rules, a) + Rewrite(rules, b)
    decreases |b|
  {
    if b == [] {
      assert a + b == a;
    } else {
      var b' := b[..|b| - 1];
      var x := b[|b| - 1];
      assert (a + b)[..|a + b| - 1] == a + b';
      assert (a + b)[|a + b| - 1] == x;
      RewriteAppend(rules, a, b');
      assert b'+ [x] == b;
      calc {
        Rewrite(rules, a + b);
        Rewrite(rules, a + b') + Expand(rules, x);
        Rewrite(rules, a) + Rewrite(rules, b') + Expand(rules, x);
        { assert b[..|b| - 1] == b'; }
        Rewrite(rules, a) + Rewrite(rules, b);
      }
    }
  }

  /** A single character rewrites to its rule's right-hand side, or to itself. */
  lemma RewriteChar(rules: Rules, c: char)
    ensures HasRule(rules, c) ==> Rewrite(rules, [c]) == rules[[c]]
    ensures !HasRule(rules, c) ==> Rewrite(rules, [c]) == [c]
  {
    assert [c][..0] == [];
  }

  /** A character without a rule is copied to its place in the output unchanged. */
  lemma PassThrough(rules: Rules, a: string, c: char, b: string)
    requires !HasRule(rules, c)
    ensures Rewrite(rules, a + [c] + b) == Rewrite(rules, a) + [c] + Rewrite(rules, b)
  {
    RewriteAppend(rules, a + [c], b);
    RewriteAppend(rules, a, [c]);
    RewriteChar(rules, c);
  }

  /** Rewriting the first character and then the rest: the left-to-right reading. */
  lemma RewriteCons(rules: Rules, c: char, s: string)
    ensures Rewrite(rules, [c] + s) == Expand(rules, c) + Rewrite(rules, s)
  {
    RewriteAppend(rules, [c], s);
    RewriteChar(rules, c);
  }

  /** A string none of whose characters has a rule is its own rewrite. */
  lemma {:induction false} RewriteIdentity(rules: Rules, s: string)
    requires forall i :: 0 <= i < |s| ==> !HasRule(rules, s[i])
    ensures Rewrite(rules, s) == s
    decreases |s|
  {
    if s != [] {
      var s' := s[..|s| - 1];
      RewriteIdentity(rules, s');
      assert s' + [s[|s| - 1]] == s;
    }
  }

  /** With an empty rule table every string is left as it is. */
  lemma EmptyRulesIdentity(s: string)
    ensures Rewrite(map[], s) == s
  {
    RewriteIdentity(map[], s);
  }

  /** A rule whose key is not one character long never matches. */
  lemma {:induction false} MultiCharKeysIgnored(rules: Rules, k: string, v: string, s: string)
    requires |k| != 1
    ensures Rewrite(rules[k := v], s) == Rewrite(rules, s)
    decreases |s|
  {
    if s != [] {
      MultiCharKeysIgnored(rules, k, v, s[..|s| - 1]);
      var c := s[|s| - 1];
      assert [c] != k by { assert |[c]| == 1; }
      assert Expand(rules[k := v], c) == Expand(rules, c);
    }
  }

  /** The generation counts add up: `n` generations of the `m`-th generation. */
  lemma {:induction false} GenerationCompose(rules: Rules, start: string, m: nat, n: nat)
    ensures Generation(rules, Generation(rules, start, m), n) == Generation(rules, start, m + n)
  {
    IterateCompose(s => Rewrite(rules, s), start, m, n);
  }

  lemma {:induction false} IterateCompose(f: string -> string, x: string, m: nat, n: nat)
    ensures Iterate(f, Iterate(f, x, m), n) == Iterate(f, x, m + n)
    decreases n
  {
    if n > 0 {
      IterateCompose(f, x, m, n - 1);
    }
  }

  /** The Koch curve grammar of the application. */
  const Koch: Rules := map["F" := "F+F-F-F+F"]

  /** One rewrite of "F" under the Koch rule is the rule's right-hand side, 9 symbols. */
  lemma KochFirstGeneration()
    ensures Generation(Koch, "F", 1) == "F+F-F-F+F"
    ensures |Generation(Koch, "F", 1)| == 9
  {
    RewriteChar(Koch, 'F');
  }

  /** The second generation: five copies of the rule joined by the four original turns. */
  lemma KochSecondGeneration()
    ensures Generation(Koch, "F", 2)
      == "F+F-F-F+F" + "+" + "F+F-F-F+F" + "-" + "F+F-F-F+F" + "-" + "F+F-F-F+F" + "+" + "F+F-F-F+F"
    ensures |Generation(Koch, "F", 2)| == 49
  {
    KochFirstGeneration();
    var r := "F+F-F-F+F";
    assert r == ['F'] + ['+'] + ['F'] + ['-'] + ['F'] + ['-'] + ['F'] + ['+'] + ['F'];
    assert !HasRule(Koch, '+') && !HasRule(Koch, '-');
    forall c | c in "+-F"
      ensures Rewrite(Koch, [c]) == Expand(Koch, c)
    {
      RewriteChar(Koch, c);
    }
    RewriteAppend(Koch, ['F'] + ['+'] + ['F'] + ['-'] + ['F'] + ['-'] + ['F'] + ['+'], ['F']);
    RewriteAppend(Koch, ['F'] + ['+'] + ['F'] + ['-'] + ['F'] + ['-'] + ['F'], ['+']);
    RewriteAppend(Koch, ['F'] + ['+'] + ['F'] + ['-'] + ['F'] + ['-'], ['F']);
    RewriteAppend(Koch, ['F'] + ['+'] + ['F'] + ['-'] + ['F'], ['-']);
    RewriteAppend(Koch, ['F'] + ['+'] + ['F'] + ['-'], ['F']);
    RewriteAppend(Koch, ['F'] + ['+'] + ['F'], ['-']);
    RewriteAppend(Koch, ['F'] + ['+'], ['F']);
    RewriteAppend(Koch, ['F'], ['+']);
  }

  /** The 'X' marker is an ordinary symbol for rewriting: a rule for it is applied. */
  lemma MarkerIsRewritten(rules: Rules)
    requires HasRule(rules, 'X')
    ensures Rewrite(rules, "X") == rules["X"]
  {
    RewriteChar(rules, 'X');
  }
}
