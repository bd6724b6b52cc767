/** Whole steps through all three passes: the shapes the repository's
    rendering tests use (an argument, a variable, a comment, a missing
    argument), stated for every prefix and value, and a few that show how the
    passes interact. */
module RenderExamples {
  import opened Outcomes
  import opened Text
  import opened Values
  import opened Render

  /** Text without `?` is unchanged by the optional pass. */
  lemma PlainOptional(s: string, args: seq<string>)
    requires '?' !in s
    ensures ReplaceOptional(s, args) == s
  {
    NoQuestionNoMatch(s);
    SubstituteNoMatch(OptionalArg, s, args, map[]);
  }

  /** Text without `$` is unchanged by the positional pass. */
  lemma PlainPositional(s: string, args: seq<string>)
    requires '$' !in s
    ensures ReplacePositional(s, args) == Success(s)
  {
    NoDollarNoMatch(RequiredArg, s);
    SubstituteNoMatch(RequiredArg, s, args, map[]);
  }

  /** Text without `$` is unchanged by the variable pass. */
  lemma PlainVars(s: string, vars: map<string, Json>)
    requires '$' !in s
    ensures ReplaceVars(s, vars) == Success(s)
  {
    NoDollarNoMatch(Variable, s);
    SubstituteNoMatch(Variable, s, [], vars);
  }

  /** A step that starts with neither whitespace nor `#` is not skipped. */
  lemma NotSkipped(raw: string)
    requires raw != [] && !IsSpace(raw[0]) && raw[0] != '#'
    ensures !IsSkipped(raw)
  {
    assert LStrip(raw) == raw;
  }

  /** A step that is not skipped and whose passes succeed is emitted as
      their stripped result, when that is not blank. */
  lemma EmitStep(raw: string, args: seq<string>, vars: map<string, Json>, positional: string, final: string)
    requires raw != [] && !IsSpace(raw[0]) && raw[0] != '#'
    requires ReplacePositional(ReplaceOptional(raw, args), args) == Success(positional)
    requires ReplaceVars(positional, vars) == Success(final)
    requires Strip(final) != []
    ensures RenderStep(raw, args, vars) == Success(Some(Strip(final)))
  {
    NotSkipped(raw);
  }

  /** A non-empty string with no whitespace at either end is its own strip. */
  lemma StripSolid(s: string)
    requires s != [] && !IsSpace(s[0]) && !IsSpace(s[|s| - 1])
    ensures Strip(s) == s
  {
    StripAround("", s, "");
    assert "" + s + "" == s;
  }

  /** A step that is not skipped and whose positional pass fails reports
      that failure. */
  lemma FailStep(raw: string, args: seq<string>, vars: map<string, Json>, e: RenderError)
    requires raw != [] && !IsSpace(raw[0]) && raw[0] != '#'
    requires ReplacePositional(ReplaceOptional(raw, args), args) == Failure(e)
    ensures RenderStep(raw, args, vars) == Failure(e)
  {
    NotSkipped(raw);
  }

  /** Successful pieces chain to their concatenation. */
  lemma Glue(a: string, m: string, b: string)
    ensures Chain(Success(a), Chain(Success(m), Success(b))) == Success(a + m + b)
  {
    assert a + (m + b) == a + m + b;
  }

  /** `$N` standing at the end of `a`, with no other `$` in `a`, becomes
      the `N`th argument. */
  lemma TrailingPositional(s: string, a: string, digits: string, args: seq<string>)
    requires s == a + "$" + digits && '$' !in a
    requires digits != [] && AllIn(Digits, digits) && 1 <= DigitsValue(digits) <= |args|
    ensures ReplacePositional(s, args) == Success(a + args[DigitsValue(digits) - 1])
  {
    PlainPositional(a, args);
    assert s == a + "$" + digits + "";
    assert ReplacePositional("", args) == Success("");
    PositionalPlaceholder(a, digits, "", args);
    Glue(a, args[DigitsValue(digits) - 1], "");
    assert a + args[DigitsValue(digits) - 1] + "" == a + args[DigitsValue(digits) - 1];
  }

  /** `?$N` standing at the end of `a`, with no `?` in `a`, becomes the `N`th
      argument or nothing. */
  lemma TrailingOptional(s: string, a: string, digits: string, args: seq<string>)
    requires s == a + "?$" + digits && '?' !in a
    requires digits != [] && AllIn(Digits, digits)
    ensures ReplaceOptional(s, args) == a + OptionalValue(digits, args)
  {
    PlainOptional(a, args);
    assert s == a + "?$" + digits + "";
    assert ReplaceOptional("", args) == "";
    OptionalPlaceholder(a, digits, "", args);
    assert a + OptionalValue(digits, args) + "" == a + OptionalValue(digits, args);
  }

  /** `$name` standing at the end of `a`, with no other `$` in `a`, becomes
      the variable's text. */
  lemma TrailingVariable(s: string, a: string, name: string, vars: map<string, Json>)
    requires s == a + "$" + name && '$' !in a
    requires |name| >= 1 && IsNameStart(name[0]) && AllIn(NameChars, name[1..]) && name in vars
    ensures ReplaceVars(s, vars) == Success(a + Stringify(vars[name]))
  {
    PlainVars(a, vars);
    assert s == a + "$" + name + "";
    assert ReplaceVars("", vars) == Success("");
    VariablePlaceholder(a, name, "", vars);
    Glue(a, Stringify(vars[name]), "");
    assert a + Stringify(vars[name]) + "" == a + Stringify(vars[name]);
  }

  /** A decimal numeral holds neither `?` nor `$`. */
  lemma DecPlain(n: nat)
    ensures '?' !in Dec(n) && '$' !in Dec(n)
  {
    var d := Dec(n);
    forall i | 0 <= i < |d| ensures d[i] != '?' && d[i] != '$' {
      assert InClass(Digits, d[i]);
    }
  }

  /** A variable name holds neither `?` nor `$`. */
  lemma NamePlain(name: string)
    requires |name| >= 1 && IsNameStart(name[0]) && AllIn(NameChars, name[1..])
    ensures '?' !in name && '$' !in name
  {
    forall i | 0 <= i < |name| ensures name[i] != '?' && name[i] != '$' {
      if i > 0 { assert name[i] == name[1..][i - 1]; assert InClass(NameChars, name[1..][i - 1]); }
    }
  }

  /** Neither character occurs in a concatenation of strings free of it. */
  lemma NotInConcat(c: char, a: string, b: string)
    requires c !in a && c !in b
    ensures c !in a + b
  {
    forall i | 0 <= i < |a + b| ensures (a + b)[i] != c {
      if i >= |a| { assert (a + b)[i] == b[i - |a|]; }
    }
  }

  /** The first rendering test in general: a line ending in `$N` becomes the
      line ending in the `N`th argument. */
  lemma ArgumentStep(a: string, n: nat, args: seq<string>, vars: map<string, Json>)
    requires a != [] && !IsSpace(a[0]) && a[0] != '#' && '?' !in a && '$' !in a
    requires 1 <= n <= |args|
    requires '$' !in args[n - 1] && args[n - 1] != [] && !IsSpace(args[n - 1][|args[n - 1]| - 1])
    ensures RenderStep(a + "$" + Dec(n), args, vars) == Success(Some(a + args[n - 1]))
  {
    var s := a + "$" + Dec(n);
    var v := args[n - 1];
    var fin := a + v;
    DecPlain(n);
    NotInConcat('?', a + "$", Dec(n));
    PlainOptional(s, args);
    assert ReplaceOptional(s, args) == s;
    TrailingPositional(s, a, Dec(n), args);
    assert ReplacePositional(ReplaceOptional(s, args), args) == Success(fin);
    NotInConcat('$', a, v);
    PlainVars(fin, vars);
    assert fin[0] == a[0] && fin[|fin| - 1] == v[|v| - 1];
    StripSolid(fin);
    assert s[0] == a[0];
    EmitStep(s, args, vars, fin, fin);
  }

  /** The second rendering test in general: a line ending in `$name` becomes
      the line ending in the variable's text. */
  lemma VariableStep(a: string, name: string, args: seq<string>, vars: map<string, Json>)
    requires a != [] && !IsSpace(a[0]) && a[0] != '#' && '?' !in a && '$' !in a
    requires |name| >= 1 && IsNameStart(name[0]) && AllIn(NameChars, name[1..]) && name in vars
    requires var text := Stringify(vars[name]); text != [] && !IsSpace(text[|text| - 1])
    ensures RenderStep(a + "$" + name, args, vars) == Success(Some(a + Stringify(vars[name])))
  {
    var s := a + "$" + name;
    var text := Stringify(vars[name]);
    NamePlain(name);
    NotInConcat('?', a + "$", name);
    PlainOptional(s, args);
    DollarWord(s, a, name, args);
    TrailingVariable(s, a, name, vars);
    assert (a + text)[0] == a[0] && (a + text)[|a + text| - 1] == text[|text| - 1];
    StripSolid(a + text);
    assert s[0] == a[0];
    EmitStep(s, args, vars, s, a + text);
  }

  /** The comment of the rendering test in general: a step whose first
      non-blank character is `#` emits nothing. */
  lemma CommentStep(pre: string, rest: string, args: seq<string>, vars: map<string, Json>)
    requires forall i | 0 <= i < |pre| :: IsSpace(pre[i])
    requires rest != [] && rest[0] == '#'
    ensures RenderStep(pre + rest, args, vars) == Success(None)
  {
    LStripAround(pre, rest);
  }

  /** A one-step script renders to that step's line, if it has one. */
  lemma SingleStep(x: string, args: seq<string>, vars: map<string, Json>)
    requires RenderStep(x, args, vars).Success?
    ensures RenderScript([x], args, vars) == Success(Lines(RenderStep(x, args, vars).value))
  {
    assert [x][1..] == [];
    assert RenderScript([], args, vars) == Success([]);
    var l := Lines(RenderStep(x, args, vars).value);
    assert l + [] == l;
  }

  /** Three steps of which the last emits nothing render to the first two
      lines, in order. */
  lemma ThreeSteps(x: string, y: string, z: string, args: seq<string>, vars: map<string, Json>, lx: string, ly: string)
    requires RenderStep(x, args, vars) == Success(Some(lx))
    requires RenderStep(y, args, vars) == Success(Some(ly))
    requires RenderStep(z, args, vars) == Success(None)
    ensures RenderScript([x, y, z], args, vars) == Success([lx, ly])
  {
    SingleStep(x, args, vars);
    SingleStep(y, args, vars);
    SingleStep(z, args, vars);
    ThreeLiterals(x, y, z, lx, ly);
    RenderScriptAppend([y], [z], args, vars);
    RenderScriptAppend([x], [y, z], args, vars);
  }

  lemma ThreeLiterals<T>(x: T, y: T, z: T, lx: T, ly: T)
    ensures [y] + [z] == [y, z] && [x] + [y, z] == [x, y, z]
    ensures [ly] + [] == [ly] && [lx] + [ly] == [lx, ly]
  {
  }

  /** The rendering test in general: an argument step, a variable step and a
      comment render to two lines, the argument and the variable's text in
      place. */
  lemma RenderScriptExample(a: string, n: nat, b: string, name: string, pre: string, comment: string,
                            args: seq<string>, vars: map<string, Json>)
    requires a != [] && !IsSpace(a[0]) && a[0] != '#' && '?' !in a && '$' !in a
    requires b != [] && !IsSpace(b[0]) && b[0] != '#' && '?' !in b && '$' !in b
    requires 1 <= n <= |args|
    requires '$' !in args[n - 1] && args[n - 1] != [] && !IsSpace(args[n - 1][|args[n - 1]| - 1])
    requires |name| >= 1 && IsNameStart(name[0]) && AllIn(NameChars, name[1..]) && name in vars
    requires var text := Stringify(vars[name]); text != [] && !IsSpace(text[|text| - 1])
    requires forall i | 0 <= i < |pre| :: IsSpace(pre[i])
    requires comment != [] && comment[0] == '#'
    ensures RenderScript([a + "$" + Dec(n), b + "$" + name, pre + comment], args, vars)
         == Success([a + args[n - 1], b + Stringify(vars[name])])
  {
    ArgumentStep(a, n, args, vars);
    VariableStep(b, name, args, vars);
    CommentStep(pre, comment, args, vars);
    ThreeSteps(a + "$" + Dec(n), b + "$" + name, pre + comment, args, vars, a + args[n - 1], b + Stringify(vars[name]));
  }

  /** The missing-argument test in general: `$N` past the last argument makes
      the step fail with `N`. */
  lemma MissingArgumentStep(a: string, n: nat, args: seq<string>, vars: map<string, Json>)
    requires a != [] && !IsSpace(a[0]) && a[0] != '#' && '?' !in a && '$' !in a
    requires n > |args|
    ensures RenderStep(a + "$" + Dec(n), args, vars) == Failure(MissingPositional(n))
  {
    var s := a + "$" + Dec(n);
    DecPlain(n);
    NotInConcat('?', a + "$", Dec(n));
    PlainOptional(s, args);
    PlainPositional(a, args);
    assert s == a + "$" + Dec(n) + "";
    PositionalMissing(a, Dec(n), "", args);
    assert s[0] == a[0];
    FailStep(s, args, vars, MissingPositional(n));
  }

  /** An argument inserted by the `?$N` pass is itself scanned by the `$N`
      pass: `?$N` bound to the text `$M` ends up as the `M`th argument. */
  lemma OptionalThenPositional(a: string, n: nat, m: nat, args: seq<string>, vars: map<string, Json>)
    requires a != [] && !IsSpace(a[0]) && a[0] != '#' && '?' !in a && '$' !in a
    requires 1 <= n <= |args| && args[n - 1] == "$" + Dec(m)
    requires 1 <= m <= |args|
    requires '$' !in args[m - 1] && args[m - 1] != [] && !IsSpace(args[m - 1][|args[m - 1]| - 1])
    ensures RenderStep(a + "?$" + Dec(n), args, vars) == Success(Some(a + args[m - 1]))
  {
    var s := a + "?$" + Dec(n);
    var mid := a + "$" + Dec(m);
    var v := args[m - 1];
    var fin := a + v;
    TrailingOptional(s, a, Dec(n), args);
    assert OptionalValue(Dec(n), args) == "$" + Dec(m);
    assert ReplaceOptional(s, args) == mid;
    TrailingPositional(mid, a, Dec(m), args);
    assert ReplacePositional(ReplaceOptional(s, args), args) == Success(fin);
    NotInConcat('$', a, v);
    PlainVars(fin, vars);
    assert fin[0] == a[0] && fin[|fin| - 1] == v[|v| - 1];
    StripSolid(fin);
    assert s[0] == a[0];
    EmitStep(s, args, vars, fin, fin);
  }

  /** An optional placeholder with no argument behind it becomes the empty
      string and the rest of the line is kept. */
  lemma OptionalMissingKeepsLine(a: string, n: nat, args: seq<string>, vars: map<string, Json>)
    requires a != [] && !IsSpace(a[0]) && a[0] != '#' && '?' !in a && '$' !in a
    requires n == 0 || n > |args|
    ensures RenderStep(a + "?$" + Dec(n), args, vars) == Success(Some(Strip(a)))
  {
    var s := a + "?$" + Dec(n);
    TrailingOptional(s, a, Dec(n), args);
    assert a + OptionalValue(Dec(n), args) == a;
    PlainPositional(a, args);
    PlainVars(a, vars);
    assert s[0] == a[0];
    EmitStep(s, args, vars, a, a);
  }

  /** `$$N` is not an escape: the second `$` starts a positional placeholder
      and the first one stays. */
  lemma DoubleDollarIsNoEscape(a: string, n: nat, args: seq<string>)
    requires '$' !in a && 1 <= n <= |args|
    ensures ReplacePositional(a + "$$" + Dec(n), args) == Success(a + "$" + args[n - 1])
  {
    LoneDollar(a + "$", a, args);
    assert '$' !in Dec(n) by { DecPlain(n); }
    assert a + "$$" + Dec(n) == (a + "$") + "$" + Dec(n) + "";
    assert ReplacePositional("", args) == Success("");
    PositionalPlaceholder(a + "$", Dec(n), "", args);
    Glue(a + "$", args[n - 1], "");
    assert a + "$" + args[n - 1] + "" == a + "$" + args[n - 1];
  }

  /** A `$` followed by a letter is left alone by the positional pass. */
  lemma DollarWord(s: string, a: string, w: string, args: seq<string>)
    requires s == a + "$" + w
    requires '$' !in a && '$' !in w && w != [] && !IsDigit(w[0])
    ensures ReplacePositional(s, args) == Success(s)
  {
    var t := "$" + w;
    assert s == a + t;
    SubstituteConcat(RequiredArg, a, t, args, map[]);
    PlainPositional(a, args);
    PlainPositional(w, args);
    assert MatchLen(RequiredArg, t) == 0;
    assert t[1..] == w;
    SubstituteStep(RequiredArg, t, args, map[]);
    assert Substitute(RequiredArg, t, args, map[]) == Chain(Success("$"), Success(w));
    assert "$" + w == t;
  }

  /** A `$` at the very end is left alone by the positional pass. */
  lemma LoneDollar(s: string, a: string, args: seq<string>)
    requires s == a + "$" && '$' !in a
    ensures ReplacePositional(s, args) == Success(s)
  {
    PlainPositional(a, args);
    assert MatchLen(RequiredArg, "$") == 0;
    SubstituteStep(RequiredArg, "$", args, map[]);
    assert "$"[1..] == [];
    assert ReplacePositional("", args) == Success("");
    assert "$" + "" == "$";
    SubstituteConcat(RequiredArg, a, "$", args, map[]);
  }
}
