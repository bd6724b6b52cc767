/** Rendering of script steps (`render_script` and its three substitution
    passes in `src/mcl/executor.py`).

    Each pass is one regular-expression substitution: the string is scanned
    left to right, the leftmost match is replaced, and scanning resumes right
    after it, so matches never overlap and a replacement is never rescanned by
    its own pass. Digit and name repetitions are greedy. The three passes run
    in the order `?$N`, `$N`, `$name`, each on the previous pass's output, so
    text inserted by an earlier pass is seen by the later ones. There is no
    escape for `$`. */
module Render {
  import opened Outcomes
  import opened Text
  import opened Values

  /** The three placeholder patterns. */
  datatype Pattern =
    | OptionalArg   // `?$N`:   \?\$(\d+)
    | RequiredArg   // `$N`:    \$(\d+)
    | Variable      // `$name`: \$([A-Za-z_][A-Za-z0-9_]*)

  /** Why rendering a step stopped. */
  datatype RenderError =
    | MissingPositional(n: nat)      // "Missing positional argument $N"
    | NoArgumentForZero              // `$0` reads `args[-1]`, an IndexError when there are none
    | UnknownVariable(name: string)  // "Unknown variable '$name'"

  /** Length of the fixed lead of a pattern: `?$` or `$`. */
  function LeadLen(p: Pattern): nat {
    if p == OptionalArg then 2 else 1
  }

  /** The class of the characters a match of `p` repeats greedily at its end. */
  function TailClass(p: Pattern): CharClass {
    if p == Variable then NameChars else Digits
  }

  /** `t` is, in full, one match of pattern `p`. */
  predicate IsToken(p: Pattern, t: string) {
    match p
    case OptionalArg => |t| >= 3 && t[0] == '?' && t[1] == '$' && AllIn(Digits, t[2..])
    case RequiredArg => |t| >= 2 && t[0] == '$' && AllIn(Digits, t[1..])
    case Variable => |t| >= 2 && t[0] == '$' && IsNameStart(t[1]) && AllIn(NameChars, t[2..])
  }

  /** The capture group of a token: its digits, or the variable name. */
  function Group(p: Pattern, t: string): (g: string)
    requires IsToken(p, t)
    ensures g != []
    ensures p != Variable ==> AllIn(Digits, g)
    ensures p == Variable ==> IsNameStart(g[0])
  {
    t[LeadLen(p)..]
  }

  /** Length of the match of `p` anchored at the start of `s`, or 0 when no
      match starts there (see `MatchLenLongest` for what it means). */
  function MatchLen(p: Pattern, s: string): (n: nat)
    ensures n <= |s|
    ensures n > 0 ==> IsToken(p, s[..n])
  {
    var l := LeadLen(p);
    if |s| > l && IsToken(p, s[..l + 1]) then
      var n := l + RunLen(TailClass(p), s[l..]);
      TokenRun(p, s, n);
      n
    else 0
  }

  /** A shortest token followed by a run of the tail class is a token. */
  lemma TokenRun(p: Pattern, s: string, n: nat)
    requires LeadLen(p) < |s| && IsToken(p, s[..LeadLen(p) + 1])
    requires n == LeadLen(p) + RunLen(TailClass(p), s[LeadLen(p)..])
    ensures LeadLen(p) < n <= |s| && IsToken(p, s[..n])
  {
    var l := LeadLen(p);
    var run := s[l..];
    assert run[0] == s[..l + 1][l];
    assert InClass(TailClass(p), run[0]);
    assert n > l;
    var t := s[..n];
    assert t[..l] == s[..l + 1][..l];
    forall i | l <= i < n ensures InClass(TailClass(p), t[i]) {
      assert t[i] == run[..n - l][i - l];
    }
  }

  /** The match the scanner takes at the start of `s` is the longest prefix of
      `s` that is a token, and there is none when it reports 0. */
  lemma MatchLenLongest(p: Pattern, s: string)
    ensures var n := MatchLen(p, s);
            && (n > 0 ==> IsToken(p, s[..n]))
            && (forall j | n < j <= |s| :: !IsToken(p, s[..j]))
  {
    var n := MatchLen(p, s);
    var l := LeadLen(p);
    forall j | n < j <= |s| ensures !IsToken(p, s[..j]) {
      if n > 0 {
        assert s[..j][n] == s[l..][n - l];
      } else if j > l && IsToken(p, s[..j]) {
        assert s[..j][..l + 1] == s[..l + 1];
        TokenPrefix(p, s[..j]);
        assert false;
      }
    }
  }

  /** Every token starts with a shortest token: its lead and one more character. */
  lemma TokenPrefix(p: Pattern, t: string)
    requires IsToken(p, t)
    ensures IsToken(p, t[..LeadLen(p) + 1])
  {
    var l := LeadLen(p);
    assert t[..l + 1][l..] == [t[l]];
  }

  /** A character after which no match of `p` can continue, and which cannot
      complete a partial match that ends just before it. */
  predicate Breaks(p: Pattern, c: char) {
    match p
    case OptionalArg => c != '$' && !IsDigit(c)
    case RequiredArg => !IsDigit(c)
    case Variable => !IsNameChar(c)
  }

  /** A match starting in `a` is not affected by what follows a breaking
      character. */
  lemma MatchLenConcat(p: Pattern, a: string, b: string)
    requires a != []
    requires b == [] || Breaks(p, b[0])
    ensures MatchLen(p, a + b) == MatchLen(p, a)
  {
    var l := LeadLen(p);
    if |a| > l {
      assert (a + b)[..l + 1] == a[..l + 1];
      assert (a + b)[l..] == a[l..] + b;
      if b != [] { BreaksTail(p, b[0]); }
      RunLenConcat(TailClass(p), a[l..], b);
    } else {
      ShortNoMatch(p, a, b);
    }
  }

  /** A breaking character is outside the class a match repeats. */
  lemma BreaksTail(p: Pattern, c: char)
    requires Breaks(p, c)
    ensures !InClass(TailClass(p), c)
  {
  }

  /** Text shorter than the lead of `p` followed by a breaking character does
      not start a match. */
  lemma ShortNoMatch(p: Pattern, a: string, b: string)
    requires 0 < |a| <= LeadLen(p)
    requires b == [] || Breaks(p, b[0])
    ensures MatchLen(p, a + b) == 0
  {
    var s := a + b;
    var l := LeadLen(p);
    if |s| > l {
      assert s[|a|] == b[0];
      if p == OptionalArg && |a| == 1 {
        assert s[1] == b[0] && b[0] != '$';
      }
      assert !IsToken(p, s[..l + 1]) by {
        assert s[..l + 1][|a|] == b[0];
      }
    }
  }

  /** The match at the start of a token followed by a character outside the
      token's tail class is exactly the token. */
  lemma MatchLenToken(p: Pattern, t: string, b: string)
    requires IsToken(p, t)
    requires b == [] || !InClass(TailClass(p), b[0])
    ensures MatchLen(p, t + b) == |t|
  {
    var s := t + b;
    assert s[..|t|] == t;
    MatchLenLongest(p, s);
  }

  // ---------------------------------------------------------------------------
  // Replacement callbacks
  // ---------------------------------------------------------------------------

  /** The callback of `_replace_optional`: the `N`th argument (1-based), or the
      empty string when there is none. */
  function OptionalValue(digits: string, args: seq<string>): (r: string)
    requires AllIn(Digits, digits)
    ensures 1 <= DigitsValue(digits) <= |args| ==> r == args[DigitsValue(digits) - 1]
    ensures !(1 <= DigitsValue(digits) <= |args|) ==> r == ""
  {
    var index := DigitsValue(digits) - 1;
    if 0 <= index < |args| then args[index] else ""
  }

  /** The callback of `_replace_positional`. Only `N > len(args)` is checked,
      so `$0` computes index -1 and reads the last argument. */
  function PositionalValue(digits: string, args: seq<string>): (r: Result<string, RenderError>)
    requires AllIn(Digits, digits)
    ensures DigitsValue(digits) > |args| ==> r == Failure(MissingPositional(DigitsValue(digits)))
    ensures 1 <= DigitsValue(digits) <= |args| ==> r == Success(args[DigitsValue(digits) - 1])
    ensures DigitsValue(digits) == 0 && args != [] ==> r == Success(args[|args| - 1])
    ensures DigitsValue(digits) == 0 && args == [] ==> r == Failure(NoArgumentForZero)
  {
    var index := DigitsValue(digits) - 1;
    if index >= |args| then Failure(MissingPositional(index + 1))
    else if index >= 0 then Success(args[index])
    else if args != [] then Success(args[|args| - 1])
    else Failure(NoArgumentForZero)
  }

  /** The callback of `_replace_vars`, including its `name.isdigit()` branch
      (which no match can reach, see `VariableDigitBranchDead`). */
  function VariableValue(name: string, vars: map<string, Json>): (r: Result<string, RenderError>)
    ensures name != [] && IsNameStart(name[0]) && name in vars ==> r == Success(Stringify(vars[name]))
    ensures name != [] && IsNameStart(name[0]) && name !in vars ==> r == Failure(UnknownVariable(name))
  {
    if name != [] && AllIn(Digits, name) then Success("$" + name)
    else if name !in vars then Failure(UnknownVariable(name))
    else Success(Stringify(vars[name]))
  }

  /** A variable match never captures an all-digit name. */
  lemma VariableDigitBranchDead(t: string)
    requires IsToken(Variable, t)
    ensures !AllIn(Digits, Group(Variable, t))
  {
    assert Group(Variable, t)[0] == t[1];
  }

  /** The replacement text for one token of pattern `p`. */
  function Replace(p: Pattern, t: string, args: seq<string>, vars: map<string, Json>): Result<string, RenderError>
    requires IsToken(p, t)
  {
    match p
    case OptionalArg => Success(OptionalValue(Group(p, t), args))
    case RequiredArg => PositionalValue(Group(p, t), args)
    case Variable => VariableValue(Group(p, t), vars)
  }

  // ---------------------------------------------------------------------------
  // The scanner
  // ---------------------------------------------------------------------------

  /** Left-to-right concatenation of partial results; the leftmost error wins,
      as the first callback that raises ends `re.sub`. */
  function Chain<X>(x: Result<seq<X>, RenderError>, y: Result<seq<X>, RenderError>): Result<seq<X>, RenderError> {
    if x.Failure? then x
    else if y.Failure? then y
    else Success(x.value + y.value)
  }

  lemma ChainAssoc<X>(x: Result<seq<X>, RenderError>, y: Result<seq<X>, RenderError>, z: Result<seq<X>, RenderError>)
    ensures Chain(Chain(x, y), z) == Chain(x, Chain(y, z))
  {
    if x.Success? && y.Success? && z.Success? {
      assert (x.value + y.value) + z.value == x.value + (y.value + z.value);
    }
  }

  lemma ChainUnit<X>(y: Result<seq<X>, RenderError>)
    ensures Chain(Success([]), y) == y
  {
    if y.Success? { assert [] + y.value == y.value; }
  }

  /** `pattern.sub(callback, s)` for pattern `p`. */
  function Substitute(p: Pattern, s: string, args: seq<string>, vars: map<string, Json>): (r: Result<string, RenderError>)
    ensures p == OptionalArg ==> r.Success?
    decreases |s|
  {
    if s == [] then Success([])
    else
      var n := MatchLen(p, s);
      if n > 0 then Chain(Replace(p, s[..n], args, vars), Substitute(p, s[n..], args, vars))
      else Chain(Success([s[0]]), Substitute(p, s[1..], args, vars))
  }

  /** Text in which no match starts is returned unchanged. */
  lemma {:induction false} SubstituteNoMatch(p: Pattern, s: string, args: seq<string>, vars: map<string, Json>)
    requires forall i | 0 <= i < |s| :: MatchLen(p, s[i..]) == 0
    ensures Substitute(p, s, args, vars) == Success(s)
    decreases |s|
  {
    if s != [] {
      assert MatchLen(p, s[0..]) == 0;
      assert s[0..] == s;
      forall i | 0 <= i < |s[1..]| ensures MatchLen(p, s[1..][i..]) == 0 {
        assert s[1..][i..] == s[i + 1..];
      }
      SubstituteNoMatch(p, s[1..], args, vars);
      assert [s[0]] + s[1..] == s;
    }
  }

  /** No match starts anywhere in a string without `$`. */
  lemma NoDollarNoMatch(p: Pattern, s: string)
    requires '$' !in s
    ensures forall i | 0 <= i < |s| :: MatchLen(p, s[i..]) == 0
  {
    forall i | 0 <= i < |s| ensures MatchLen(p, s[i..]) == 0 {
    }
  }

  /** No optional placeholder starts anywhere in a string without `?`. */
  lemma NoQuestionNoMatch(s: string)
    requires '?' !in s
    ensures forall i | 0 <= i < |s| :: MatchLen(OptionalArg, s[i..]) == 0
  {
    forall i | 0 <= i < |s| ensures MatchLen(OptionalArg, s[i..]) == 0 {
      assert s[i..][0] == s[i];
    }
  }

  /** The scan of `a + b` is the scan of `a` followed by the scan of `b`, when
      `b` starts with a character that no match in `a` can run into. */
  lemma {:induction false} SubstituteConcat(p: Pattern, a: string, b: string, args: seq<string>, vars: map<string, Json>)
    requires b == [] || Breaks(p, b[0])
    ensures Substitute(p, a + b, args, vars) == Chain(Substitute(p, a, args, vars), Substitute(p, b, args, vars))
    decreases |a|
  {
    if a == [] {
      assert a + b == b;
      ChainUnit(Substitute(p, b, args, vars));
    } else {
      MatchLenConcat(p, a, b);
      var n := MatchLen(p, a);
      var m := if n > 0 then n else 1;
      var head := Head(p, a, args, vars);
      ConcatSlices(a, b, m);
      assert Head(p, a + b, args, vars) == head;
      SubstituteStep(p, a, args, vars);
      SubstituteStep(p, a + b, args, vars);
      SubstituteConcat(p, a[m..], b, args, vars);
      assert Substitute(p, a + b, args, vars) == Chain(head, Chain(Substitute(p, a[m..], args, vars), Substitute(p, b, args, vars)));
      ChainAssoc(head, Substitute(p, a[m..], args, vars), Substitute(p, b, args, vars));
    }
  }

  /** The replacement of what the scanner consumes first from a non-empty `s`:
      the match there, or the single character that starts no match. */
  function Head(p: Pattern, s: string, args: seq<string>, vars: map<string, Json>): Result<string, RenderError>
    requires s != []
  {
    var n := MatchLen(p, s);
    if n > 0 then Replace(p, s[..n], args, vars) else Success([s[0]])
  }

  /** One step of the scanner. */
  lemma SubstituteStep(p: Pattern, s: string, args: seq<string>, vars: map<string, Json>)
    requires s != []
    ensures var m := if MatchLen(p, s) > 0 then MatchLen(p, s) else 1;
            Substitute(p, s, args, vars) == Chain(Head(p, s, args, vars), Substitute(p, s[m..], args, vars))
  {
  }

  /** Leftmost, greedy, non-overlapping replacement: a whole token standing
      between `a` and `b` is replaced by its callback's text, verbatim, and the
      text on either side is scanned on its own. */
  lemma SubstituteAround(p: Pattern, a: string, t: string, b: string, args: seq<string>, vars: map<string, Json>)
    requires IsToken(p, t)
    requires b == [] || !InClass(TailClass(p), b[0])
    ensures Substitute(p, a + t + b, args, vars)
         == Chain(Substitute(p, a, args, vars), Chain(Replace(p, t, args, vars), Substitute(p, b, args, vars)))
  {
    assert a + t + b == a + (t + b);
    SubstituteConcat(p, a, t + b, args, vars);
    MatchLenToken(p, t, b);
    assert (t + b)[..|t|] == t;
    assert (t + b)[|t|..] == b;
  }

  // ---------------------------------------------------------------------------
  // The three passes
  // ---------------------------------------------------------------------------

  /** `_replace_optional`: never fails. */
  function ReplaceOptional(command: string, args: seq<string>): string {
    Substitute(OptionalArg, command, args, map[]).value
  }

  /** `_replace_positional`. */
  function ReplacePositional(command: string, args: seq<string>): Result<string, RenderError> {
    Substitute(RequiredArg, command, args, map[])
  }

  /** `_replace_vars`. */
  function ReplaceVars(command: string, vars: map<string, Json>): Result<string, RenderError> {
    Substitute(Variable, command, [], vars)
  }

  /** `?$N` becomes the `N`th argument when `1 <= N <= |args|` and the empty
      string otherwise, the rest of the line is kept, and the pass never fails. */
  lemma OptionalPlaceholder(a: string, digits: string, b: string, args: seq<string>)
    requires digits != [] && AllIn(Digits, digits)
    requires b == [] || !IsDigit(b[0])
    ensures ReplaceOptional(a + "?$" + digits + b, args)
         == ReplaceOptional(a, args) + OptionalValue(digits, args) + ReplaceOptional(b, args)
  {
    var t := "?$" + digits;
    OptionalToken(digits);
    assert a + "?$" + digits + b == a + t + b;
    SubstituteAround(OptionalArg, a, t, b, args, map[]);
    var rt := Replace(OptionalArg, t, args, map[]);
    assert rt == Success(OptionalValue(digits, args));
    ChainValues(Substitute(OptionalArg, a, args, map[]), rt, Substitute(OptionalArg, b, args, map[]));
  }

  /** Three successful parts chain to their concatenation. */
  lemma ChainValues<X>(x: Result<seq<X>, RenderError>, y: Result<seq<X>, RenderError>, z: Result<seq<X>, RenderError>)
    requires x.Success? && y.Success? && z.Success?
    ensures Chain(x, Chain(y, z)) == Success(x.value + y.value + z.value)
  {
    assert x.value + (y.value + z.value) == x.value + y.value + z.value;
  }

  /** `?$` followed by digits is a whole `?$N` token whose group is the
      digits. */
  lemma OptionalToken(digits: string)
    requires digits != [] && AllIn(Digits, digits)
    ensures IsToken(OptionalArg, "?$" + digits) && Group(OptionalArg, "?$" + digits) == digits
  {
    assert ("?$" + digits)[2..] == digits;
  }

  /** `$N` with `1 <= N <= |args|` becomes the `N`th argument. */
  lemma PositionalPlaceholder(a: string, digits: string, b: string, args: seq<string>)
    requires digits != [] && AllIn(Digits, digits)
    requires 1 <= DigitsValue(digits) <= |args|
    requires b == [] || !IsDigit(b[0])
    ensures ReplacePositional(a + "$" + digits + b, args)
         == Chain(ReplacePositional(a, args), Chain(Success(args[DigitsValue(digits) - 1]), ReplacePositional(b, args)))
  {
    var t := "$" + digits;
    RequiredToken(digits);
    assert Replace(RequiredArg, t, args, map[]) == Success(args[DigitsValue(digits) - 1]);
    assert a + "$" + digits + b == a + t + b;
    SubstituteAround(RequiredArg, a, t, b, args, map[]);
  }

  /** `$` followed by digits is a whole `$N` token whose group is the digits. */
  lemma RequiredToken(digits: string)
    requires digits != [] && AllIn(Digits, digits)
    ensures IsToken(RequiredArg, "$" + digits) && Group(RequiredArg, "$" + digits) == digits
  {
    assert ("$" + digits)[1..] == digits;
  }

  /** `$N` with `N > |args|` makes the pass fail, whatever surrounds it; the
      error is the leftmost one, so it is this token's unless `a` fails first. */
  lemma PositionalMissing(a: string, digits: string, b: string, args: seq<string>)
    requires digits != [] && AllIn(Digits, digits)
    requires DigitsValue(digits) > |args|
    requires b == [] || !IsDigit(b[0])
    ensures ReplacePositional(a + "$" + digits + b, args).Failure?
    ensures ReplacePositional(a, args).Success? ==>
              ReplacePositional(a + "$" + digits + b, args) == Failure(MissingPositional(DigitsValue(digits)))
  {
    var t := "$" + digits;
    RequiredToken(digits);
    assert a + "$" + digits + b == a + t + b;
    SubstituteAround(RequiredArg, a, t, b, args, map[]);
  }

  /** `$0` reads the last argument, and fails only when there is none. */
  lemma PositionalZero(a: string, b: string, args: seq<string>)
    requires b == [] || !IsDigit(b[0])
    ensures args != [] ==>
              ReplacePositional(a + "$0" + b, args)
              == Chain(ReplacePositional(a, args), Chain(Success(args[|args| - 1]), ReplacePositional(b, args)))
    ensures args == [] ==> ReplacePositional(a + "$0" + b, args).Failure?
    ensures args == [] && ReplacePositional(a, args).Success? ==>
              ReplacePositional(a + "$0" + b, args) == Failure(NoArgumentForZero)
  {
    var t := "$0";
    assert IsToken(RequiredArg, t);
    SubstituteAround(RequiredArg, a, t, b, args, map[]);
    assert Group(RequiredArg, t) == "0";
    assert DigitsValue("0") == 0;
  }

  /** `$name` becomes `str(vars[name])`, or fails with `UnknownVariable` when
      the name is not a variable. */
  lemma VariablePlaceholder(a: string, name: string, b: string, vars: map<string, Json>)
    requires |name| >= 1 && IsNameStart(name[0]) && AllIn(NameChars, name[1..])
    requires b == [] || !IsNameChar(b[0])
    ensures name in vars ==>
              ReplaceVars(a + "$" + name + b, vars)
              == Chain(ReplaceVars(a, vars), Chain(Success(Stringify(vars[name])), ReplaceVars(b, vars)))
    ensures name !in vars ==> ReplaceVars(a + "$" + name + b, vars).Failure?
    ensures name !in vars && ReplaceVars(a, vars).Success? ==>
              ReplaceVars(a + "$" + name + b, vars) == Failure(UnknownVariable(name))
  {
    var t := "$" + name;
    VariableToken(name);
    assert a + "$" + name + b == a + t + b;
    SubstituteAround(Variable, a, t, b, [], vars);
  }

  /** `$` followed by a name is a whole `$name` token whose group is the
      name. */
  lemma VariableToken(name: string)
    requires |name| >= 1 && IsNameStart(name[0]) && AllIn(NameChars, name[1..])
    ensures IsToken(Variable, "$" + name) && Group(Variable, "$" + name) == name
  {
    assert ("$" + name)[2..] == name[1..];
  }

  // ---------------------------------------------------------------------------
  // Steps and scripts
  // ---------------------------------------------------------------------------

  /** A blank step, or one whose first non-blank character is `#`. */
  predicate IsSkipped(raw: string) {
    var s := LStrip(raw);
    s == [] || s[0] == '#'
  }

  /** One iteration of `render_script`: `None` when the step emits no line.
      A step that is not skipped goes through the `?$N`, `$N` and `$name`
      passes in that order; the first failing pass is the step's error, and
      the line is what is left after stripping, dropped only when that is
      empty. */
  function RenderStep(raw: string, args: seq<string>, vars: map<string, Json>): (r: Result<Option<string>, RenderError>)
    ensures IsSkipped(raw) ==> r == Success(None)
    ensures !IsSkipped(raw) ==>
              var positional := ReplacePositional(ReplaceOptional(raw, args), args);
              && (positional.Failure? ==> r == Failure(positional.error))
              && (positional.Success? ==>
                    var named := ReplaceVars(positional.value, vars);
                    && (named.Failure? ==> r == Failure(named.error))
                    && (named.Success? ==>
                          r == if Strip(named.value) == [] then Success(None) else Success(Some(Strip(named.value)))))
    ensures r.Success? && r.value.Some? ==> r.value.value != [] && IsStripped(r.value.value)
  {
    if IsSkipped(raw) then Success(None)
    else
      var afterOptional := ReplaceOptional(raw, args);
      var afterPositional :- ReplacePositional(afterOptional, args);
      var afterVars :- ReplaceVars(afterPositional, vars);
      var line := Strip(afterVars);
      if line == [] then Success(None) else Success(Some(line))
  }

  function Lines(line: Option<string>): seq<string> {
    match line
    case None => []
    case Some(l) => [l]
  }

  /** `render_script`: every step rendered in order; the first failing step's
      error ends the whole script. */
  function RenderScript(steps: seq<string>, args: seq<string>, vars: map<string, Json>): (r: Result<seq<string>, RenderError>)
    ensures r.Success? ==> |r.value| <= |steps|
    ensures r.Success? ==> forall i | 0 <= i < |r.value| :: r.value[i] != [] && IsStripped(r.value[i])
    decreases |steps|
  {
    if steps == [] then Success([])
    else
      var first := RenderStep(steps[0], args, vars);
      if first.Failure? then Failure(first.error)
      else
        var rest := RenderScript(steps[1..], args, vars);
        if rest.Failure? then rest
        else Success(Lines(first.value) + rest.value)
  }

  /** Every step renders. */
  predicate AllRender(steps: seq<string>, args: seq<string>, vars: map<string, Json>) {
    forall raw | raw in steps :: RenderStep(raw, args, vars).Success?
  }

  /** Step `i` is the first step that fails to render, and fails with `e`. */
  predicate FirstFailureAt(steps: seq<string>, args: seq<string>, vars: map<string, Json>, i: int, e: RenderError) {
    && 0 <= i < |steps|
    && RenderStep(steps[i], args, vars) == Failure(e)
    && AllRender(steps[..i], args, vars)
  }

  /** Rendering a script fails exactly when one of its steps fails, and then
      with the error of the first failing step, so no step can run when any
      step has a bad substitution. */
  lemma {:induction false} RenderScriptFailure(steps: seq<string>, args: seq<string>, vars: map<string, Json>)
    ensures RenderScript(steps, args, vars).Success? <==> AllRender(steps, args, vars)
    ensures RenderScript(steps, args, vars).Failure? ==>
              exists i :: FirstFailureAt(steps, args, vars, i, RenderScript(steps, args, vars).error)
    decreases |steps|
  {
    if steps != [] {
      AllRenderCons(steps, args, vars);
      var first := RenderStep(steps[0], args, vars);
      if first.Failure? {
        assert FirstFailureAt(steps, args, vars, 0, first.error);
      } else {
        RenderScriptFailure(steps[1..], args, vars);
        var rest := RenderScript(steps[1..], args, vars);
        if rest.Failure? {
          var i :| FirstFailureAt(steps[1..], args, vars, i, rest.error);
          FirstFailureCons(steps, args, vars, i, rest.error);
        }
      }
    }
  }

  /** Every step of a non-empty script renders exactly when its first step and
      every later one do. */
  lemma AllRenderCons(steps: seq<string>, args: seq<string>, vars: map<string, Json>)
    requires steps != []
    ensures AllRender(steps, args, vars) <==>
              RenderStep(steps[0], args, vars).Success? && AllRender(steps[1..], args, vars)
  {
    HeadAndTail(steps);
  }

  /** A non-empty sequence holds its head and the elements of its tail, and
      nothing else. */
  lemma HeadAndTail<T>(s: seq<T>)
    requires s != []
    ensures forall x :: x in s <==> x == s[0] || x in s[1..]
  {
    assert s == [s[0]] + s[1..];
  }

  /** A first failure at `i` after the first step is a first failure at
      `i + 1` of the whole script, when the first step renders. */
  lemma FirstFailureCons(steps: seq<string>, args: seq<string>, vars: map<string, Json>, i: int, e: RenderError)
    requires steps != [] && RenderStep(steps[0], args, vars).Success?
    requires FirstFailureAt(steps[1..], args, vars, i, e)
    ensures FirstFailureAt(steps, args, vars, i + 1, e)
  {
    assert steps[1..][i] == steps[i + 1];
    var pre := steps[..i + 1];
    assert pre[1..] == steps[1..][..i];
    AllRenderCons(pre, args, vars);
  }

  /** Rendering preserves order: the lines of `a + b` are the lines of `a`
      followed by the lines of `b`. */
  lemma {:induction false} RenderScriptAppend(a: seq<string>, b: seq<string>, args: seq<string>, vars: map<string, Json>)
    ensures RenderScript(a + b, args, vars) == Chain(RenderScript(a, args, vars), RenderScript(b, args, vars))
    decreases |a|
  {
    if a == [] {
      assert a + b == b;
      var rb := RenderScript(b, args, vars);
      if rb.Success? { assert [] + rb.value == rb.value; }
    } else {
      assert (a + b)[0] == a[0];
      assert (a + b)[1..] == a[1..] + b;
      RenderScriptAppend(a[1..], b, args, vars);
      var first := RenderStep(a[0], args, vars);
      if first.Success? {
        ChainAssoc(Success(Lines(first.value)), RenderScript(a[1..], args, vars), RenderScript(b, args, vars));
      }
    }
  }

  /** A step without `$` is emitted as its stripped text, unless it is blank or
      a comment. */
  lemma PlainStep(raw: string, args: seq<string>, vars: map<string, Json>)
    requires '$' !in raw
    requires !IsSkipped(raw)
    ensures RenderStep(raw, args, vars) == Success(Some(Strip(raw)))
  {
    NoDollarNoMatch(OptionalArg, raw);
    NoDollarNoMatch(RequiredArg, raw);
    NoDollarNoMatch(Variable, raw);
    SubstituteNoMatch(OptionalArg, raw, args, map[]);
    SubstituteNoMatch(RequiredArg, raw, args, map[]);
    SubstituteNoMatch(Variable, raw, [], vars);
    var l := LStrip(raw);
    assert !IsSpace(l[0]);
    assert raw[|raw| - |l|] == l[0];
  }
}
