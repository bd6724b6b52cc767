/** Running a script (`execute` in `src/mcl/executor.py`): finding the script
    in the configuration, descending into nested script groups by consuming
    leading arguments, rendering its steps, building the child environment and
    dispatching the rendered lines one after another until one fails.

    The shell is not modelled: dispatching a line is a call of a `status`
    function that returns the line's exit status, and the process environment
    the child would inherit is a parameter. */
module Executor {
  import opened Outcomes
  import opened Text
  import opened Values
  import opened Render

  /** Why `execute` raised `ValueError`. The message texts are not modelled,
      only what they report. */
  datatype ExecError =
    | ScriptsNotObject                                           // "Configuration must contain a 'scripts' object"
    | ScriptNotDefined(name: string)                             // "Script '…' is not defined"
    | RequiresSubcommand(path: string, options: seq<string>)     // "… requires a subcommand. Available options: …"
    | NoSubcommand(path: string, key: string, options: seq<string>)  // "… has no subcommand '…'. Available options: …"
    | NonStringSteps(path: string)                               // "… must contain only string steps"
    | UnsupportedPayload(path: string, typeName: string)         // "… has unsupported payload type …"
    | VarsNotObject                                              // "Configuration key 'vars' must be an object"
    | Rendering(cause: RenderError)                              // a substitution failure
    | CommandFailed(code: int)                                   // "Command failed with exit code …"

  /** An environment handed to a child process. */
  type Env = map<string, string>

  // ---------------------------------------------------------------------------
  // Script lookup
  // ---------------------------------------------------------------------------

  /** `_format_path`: the script name and the consumed keys, dot-separated. */
  function FormatPath(name: string, fragments: seq<string>): (r: string)
    ensures r == Join(".", [name] + fragments)
  {
    if fragments == [] then name
    else
      assert ([name] + fragments)[1..] == fragments;
      name + "." + Join(".", fragments)
  }

  /** The strings held by a list whose items are all strings. */
  function StrItems(xs: seq<Json>): (r: seq<string>)
    requires forall i | 0 <= i < |xs| :: xs[i].Str?
    ensures |r| == |xs|
    ensures forall i | 0 <= i < |xs| :: r[i] == xs[i].s
    decreases |xs|
  {
    if xs == [] then [] else [xs[0].s] + StrItems(xs[1..])
  }

  /** `_coerce_steps`: a string is one step, a list of strings is its steps in
      order, and anything else is rejected, naming the script path. */
  function CoerceSteps(payload: Json, name: string, path: seq<string>): (r: Result<seq<string>, ExecError>)
    ensures r.Success? <==>
              payload.Str? || (payload.Arr? && forall i | 0 <= i < |payload.items| :: payload.items[i].Str?)
    ensures payload.Str? ==> r == Success([payload.s])
    ensures payload.Arr? && r.Success? ==>
              |r.value| == |payload.items| &&
              forall i | 0 <= i < |r.value| :: payload.items[i] == Str(r.value[i])
    ensures payload.Arr? && r.Failure? ==> r.error == NonStringSteps(FormatPath(name, path))
    ensures !payload.Str? && !payload.Arr? ==>
              r == Failure(UnsupportedPayload(FormatPath(name, path), TypeName(payload)))
  {
    match payload
    case Str(s) => Success([s])
    case Arr(xs) =>
      if forall i | 0 <= i < |xs| :: xs[i].Str? then Success(StrItems(xs))
      else Failure(NonStringSteps(FormatPath(name, path)))
    case _ => Failure(UnsupportedPayload(FormatPath(name, path), TypeName(payload)))
  }

  /** The steps a script resolves to and the arguments it did not consume. */
  datatype Resolution = Resolution(steps: seq<string>, remaining: seq<string>)

  /** The loop of `_resolve_script_definition`, from a node reached by the
      keys `path`: while the node is an object, the next argument selects a
      child. */
  function Resolve(node: Json, remaining: seq<string>, name: string, path: seq<string>): (r: Result<Resolution, ExecError>)
    ensures r.Success? ==>
              |r.value.remaining| <= |remaining| &&
              r.value.remaining == remaining[|remaining| - |r.value.remaining|..]
    decreases node
  {
    match node
    case Obj(m) =>
      if remaining == [] then Failure(RequiresSubcommand(FormatPath(name, path), SetToSorted(m.Keys)))
      else
        var key := remaining[0];
        if key !in m then Failure(NoSubcommand(FormatPath(name, path), key, SetToSorted(m.Keys)))
        else Resolve(m[key], remaining[1..], name, path + [key])
    case _ =>
      var steps :- CoerceSteps(node, name, path);
      Success(Resolution(steps, remaining))
  }

  /** `_resolve_script_definition`. */
  function ResolveScriptDefinition(raw: Json, args: seq<string>, name: string): Result<Resolution, ExecError> {
    Resolve(raw, args, name, [])
  }

  /** A leaf reached through objects by the first `k` arguments is where
      resolution stops: its steps are the leaf's, the rest of the arguments
      are left over, and a bad leaf is reported under the path of those `k`
      keys. */
  lemma {:induction false} ResolveReaches(node: Json, remaining: seq<string>, name: string, path: seq<string>, k: nat)
    requires k <= |remaining|
    requires Descend(node, remaining[..k]).Some? && !Descend(node, remaining[..k]).value.Obj?
    ensures var leaf := Descend(node, remaining[..k]).value;
            var coerced := CoerceSteps(leaf, name, path + remaining[..k]);
            Resolve(node, remaining, name, path) ==
              if coerced.Success? then Success(Resolution(coerced.value, remaining[k..]))
              else Failure(coerced.error)
    decreases k
  {
    if k == 0 {
      assert remaining[..0] == [];
      assert path + [] == path;
    } else {
      var key := remaining[0];
      ShiftKeys(path, remaining, k);
      DescendFirst(node, remaining, k);
      ResolveStep(node, remaining, name, path);
      ResolveReaches(node.fields[key], remaining[1..], name, path + [key], k - 1);
    }
  }

  /** A path of `k > 0` keys that leads somewhere starts at an object holding
      its first key and continues from that child. */
  lemma DescendFirst(node: Json, remaining: seq<string>, k: nat)
    requires 0 < k <= |remaining|
    requires Descend(node, remaining[..k]).Some?
    ensures node.Obj? && remaining[0] in node.fields
    ensures Descend(node, remaining[..k]) == Descend(node.fields[remaining[0]], remaining[1..][..k - 1])
  {
    assert remaining[..k][0] == remaining[0];
    assert remaining[..k][1..] == remaining[1..][..k - 1];
  }

  /** From an object holding the first of `k > 0` keys, the path continues
      from that child. */
  lemma DescendThrough(m: map<string, Json>, remaining: seq<string>, k: nat)
    requires 0 < k <= |remaining| && remaining[0] in m
    ensures Descend(Obj(m), remaining[..k]) == Descend(m[remaining[0]], remaining[1..][..k - 1])
  {
    assert remaining[..k][0] == remaining[0];
    assert remaining[..k][1..] == remaining[1..][..k - 1];
  }

  /** At an object holding the next argument, resolution moves to that child
      and records the key on the path. */
  lemma ResolveStep(node: Json, remaining: seq<string>, name: string, path: seq<string>)
    requires remaining != [] && node.Obj? && remaining[0] in node.fields
    ensures Resolve(node, remaining, name, path)
         == Resolve(node.fields[remaining[0]], remaining[1..], name, path + [remaining[0]])
  {
  }

  /** Taking the first key off the arguments and onto the path keeps the
      first `k` keys and the arguments after them. */
  lemma ShiftKeys(path: seq<string>, remaining: seq<string>, k: nat)
    requires 0 < k <= |remaining|
    ensures remaining[..k][0] == remaining[0]
    ensures remaining[..k][1..] == remaining[1..][..k - 1]
    ensures path + [remaining[0]] + remaining[1..][..k - 1] == path + remaining[..k]
    ensures remaining[1..][k - 1..] == remaining[k..]
  {
    assert remaining[..k] == [remaining[0]] + remaining[1..][..k - 1];
  }

  /** Arguments that run out while the node reached is still an object make
      resolution fail with that object's keys, sorted, as the options. */
  lemma {:induction false} ResolveExhausted(node: Json, remaining: seq<string>, name: string, path: seq<string>, m: map<string, Json>)
    requires Descend(node, remaining) == Some(Obj(m))
    ensures Resolve(node, remaining, name, path)
         == Failure(RequiresSubcommand(FormatPath(name, path + remaining), SetToSorted(m.Keys)))
    decreases |remaining|
  {
    if remaining == [] {
      assert path + [] == path;
    } else {
      var key := remaining[0];
      var k := |remaining|;
      assert remaining[..k] == remaining;
      ShiftKeys(path, remaining, k);
      DescendFirst(node, remaining, k);
      ResolveStep(node, remaining, name, path);
      assert remaining[1..][..k - 1] == remaining[1..];
      ResolveExhausted(node.fields[key], remaining[1..], name, path + [key], m);
    }
  }

  /** An argument that names no child of the object reached so far makes
      resolution fail with that key and the object's sorted keys. */
  lemma {:induction false} ResolveUnknown(node: Json, remaining: seq<string>, name: string, path: seq<string>, k: nat, m: map<string, Json>)
    requires k < |remaining|
    requires Descend(node, remaining[..k]) == Some(Obj(m)) && remaining[k] !in m
    ensures Resolve(node, remaining, name, path)
         == Failure(NoSubcommand(FormatPath(name, path + remaining[..k]), remaining[k], SetToSorted(m.Keys)))
    decreases k
  {
    if k == 0 {
      assert remaining[..0] == [];
      assert path + [] == path;
    } else {
      var key := remaining[0];
      ShiftKeys(path, remaining, k);
      DescendFirst(node, remaining, k);
      ResolveStep(node, remaining, name, path);
      assert remaining[1..][k - 1] == remaining[k];
      ResolveUnknown(node.fields[key], remaining[1..], name, path + [key], k - 1, m);
    }
  }

  /** Every successful resolution consumed a prefix of the arguments that
      leads through objects to a leaf, and its steps are that leaf's. */
  lemma {:induction false} ResolveSuccess(node: Json, remaining: seq<string>, name: string, path: seq<string>)
    requires Resolve(node, remaining, name, path).Success?
    ensures var res := Resolve(node, remaining, name, path).value;
            var k := |remaining| - |res.remaining|;
            && Descend(node, remaining[..k]).Some?
            && !Descend(node, remaining[..k]).value.Obj?
            && CoerceSteps(Descend(node, remaining[..k]).value, name, path + remaining[..k]) == Success(res.steps)
    decreases node
  {
    var res := Resolve(node, remaining, name, path).value;
    var k := |remaining| - |res.remaining|;
    if node.Obj? {
      var m := node.fields;
      assert remaining != [] && remaining[0] in m;
      var key := remaining[0];
      ResolveStep(node, remaining, name, path);
      ResolveSuccess(m[key], remaining[1..], name, path + [key]);
      assert |remaining[1..]| - |res.remaining| == k - 1;
      ShiftKeys(path, remaining, k);
      DescendThrough(m, remaining, k);
    } else {
      var coerced := CoerceSteps(node, name, path);
      assert Resolve(node, remaining, name, path) == Success(Resolution(coerced.value, remaining));
      assert k == 0;
      assert remaining[..0] == [];
      assert Descend(node, []) == Some(node);
      assert path + [] == path;
    }
  }

  // ---------------------------------------------------------------------------
  // The shared environment
  // ---------------------------------------------------------------------------

  /** The environment name of the `i`th argument (1-based). */
  function ArgName(i: nat): string {
    "MCL_ARG_" + Dec(i)
  }

  lemma ArgNameInjective(i: nat, j: nat)
    requires ArgName(i) == ArgName(j)
    ensures i == j
  {
    assert ArgName(i)[8..] == Dec(i);
    assert ArgName(j)[8..] == Dec(j);
    DecInjective(i, j);
  }

  /** `MCL_ARG_1`, `MCL_ARG_2`, … bound to the arguments in order, as the
      `enumerate(call_args, start=1)` loop writes them. */
  function ArgEnv(args: seq<string>): (r: Env)
    ensures forall k :: k in r <==> exists i | 1 <= i <= |args| :: k == ArgName(i)
    ensures forall i | 1 <= i <= |args| :: ArgName(i) in r && r[ArgName(i)] == args[i - 1]
    decreases |args|
  {
    if args == [] then map[]
    else
      var n := |args|;
      var front := ArgEnv(args[..n - 1]);
      ArgEnvExtend(args, front);
      front[ArgName(n) := args[n - 1]]
  }

  /** The step of `ArgEnv` that binds the last argument. */
  lemma ArgEnvExtend(args: seq<string>, front: Env)
    requires args != []
    requires forall k :: k in front <==> exists i | 1 <= i <= |args| - 1 :: k == ArgName(i)
    requires forall i | 1 <= i <= |args| - 1 :: ArgName(i) in front && front[ArgName(i)] == args[..|args| - 1][i - 1]
    ensures var r := front[ArgName(|args|) := args[|args| - 1]];
            && (forall k :: k in r <==> exists i | 1 <= i <= |args| :: k == ArgName(i))
            && (forall i | 1 <= i <= |args| :: ArgName(i) in r && r[ArgName(i)] == args[i - 1])
  {
    var n := |args|;
    var r := front[ArgName(n) := args[n - 1]];
    forall i | 1 <= i <= n ensures ArgName(i) in r && r[ArgName(i)] == args[i - 1] {
      if i < n {
        if ArgName(i) == ArgName(n) { ArgNameInjective(i, n); }
        assert args[..n - 1][i - 1] == args[i - 1];
      }
    }
  }

  /** Whether `k` is the name of one of the first `n` arguments. */
  predicate IsArgName(k: string, n: nat) {
    exists i | 1 <= i <= n :: k == ArgName(i)
  }

  /** The environment built when variables are shared: a copy of the
      process environment, then every configuration variable as its `str()`,
      then the argument variables, each write overriding the previous ones. */
  function ShareEnv(environ: Env, vars: map<string, Json>, args: seq<string>): (r: Env)
    ensures forall k :: k in r <==> k in environ || k in vars || IsArgName(k, |args|)
    ensures forall i | 1 <= i <= |args| :: ArgName(i) in r && r[ArgName(i)] == args[i - 1]
    ensures forall k | k in vars && !IsArgName(k, |args|) :: r[k] == Stringify(vars[k])
    ensures forall k | k in environ && k !in vars && !IsArgName(k, |args|) :: r[k] == environ[k]
  {
    var withVars := environ + map k | k in vars :: Stringify(vars[k]);
    withVars + ArgEnv(args)
  }

  // ---------------------------------------------------------------------------
  // Dispatch
  // ---------------------------------------------------------------------------

  /** What running a script did: the lines handed to the shell, each with the
      environment it was given (`None` for the inherited one), and how it
      ended. */
  datatype Invocation = Invocation(dispatched: seq<(string, Option<Env>)>, outcome: Outcome<ExecError>)

  /** The dispatch loop of `execute`: each line runs to completion before the
      next one starts, and the first non-zero exit status stops the script. */
  function RunLines(lines: seq<string>, env: Option<Env>, status: (string, Option<Env>) -> int): (r: Invocation)
    ensures |r.dispatched| <= |lines|
    ensures forall i | 0 <= i < |r.dispatched| :: r.dispatched[i] == (lines[i], env)
    ensures r.outcome.Pass? <==> |r.dispatched| == |lines| && forall i | 0 <= i < |lines| :: status(lines[i], env) == 0
    ensures r.outcome.Fail? ==>
              && r.dispatched != []
              && (forall i | 0 <= i < |r.dispatched| - 1 :: status(lines[i], env) == 0)
              && status(lines[|r.dispatched| - 1], env) != 0
              && r.outcome.error == CommandFailed(status(lines[|r.dispatched| - 1], env))
    decreases |lines|
  {
    if lines == [] then Invocation([], Pass)
    else
      var code := status(lines[0], env);
      if code != 0 then Invocation([(lines[0], env)], Fail(CommandFailed(code)))
      else
        var rest := RunLines(lines[1..], env, status);
        Invocation([(lines[0], env)] + rest.dispatched, rest.outcome)
  }

  /** The `scripts` object of a configuration. */
  function ScriptsOf(config: map<string, Json>): Result<map<string, Json>, ExecError> {
    if "scripts" in config && config["scripts"].Obj? then Success(config["scripts"].fields)
    else Failure(ScriptsNotObject)
  }

  /** The `vars` object of a configuration; a missing key means no variables. */
  function VarsOf(config: map<string, Json>): Result<map<string, Json>, ExecError> {
    var v := if "vars" in config then config["vars"] else Obj(map[]);
    if v.Obj? then Success(v.fields) else Failure(VarsNotObject)
  }

  /** Everything `execute` decides before it dispatches: the rendered lines,
      the arguments left for them, and the variables. */
  datatype Plan = Plan(lines: seq<string>, callArgs: seq<string>, vars: map<string, Json>)

  /** The checks and the rendering `execute` performs, in the order it performs
      them: the `scripts` object, the script's presence, the resolution of
      nested groups, the `vars` object, and the substitutions. */
  function Prepare(config: map<string, Json>, cmdName: string, args: seq<string>): (r: Result<Plan, ExecError>)
    ensures !("scripts" in config && config["scripts"].Obj?) ==> r == Failure(ScriptsNotObject)
    ensures "scripts" in config && config["scripts"].Obj? ==>
              var scripts := config["scripts"].fields;
              (cmdName !in scripts || scripts[cmdName].Null?) ==> r == Failure(ScriptNotDefined(cmdName))
    ensures "scripts" in config && config["scripts"].Obj? && cmdName in config["scripts"].fields
            && !config["scripts"].fields[cmdName].Null? ==>
              var res := ResolveScriptDefinition(config["scripts"].fields[cmdName], args, cmdName);
              var vars := if "vars" in config then config["vars"] else Obj(map[]);
              && (res.Failure? ==> r == Failure(res.error))
              && (res.Success? && !vars.Obj? ==> r == Failure(VarsNotObject))
              && (res.Success? && vars.Obj? ==>
                    var rendered := RenderScript(res.value.steps, res.value.remaining, vars.fields);
                    && (rendered.Failure? ==> r == Failure(Rendering(rendered.error)))
                    && (rendered.Success? ==> r == Success(Plan(rendered.value, res.value.remaining, vars.fields))))
    ensures r.Success? ==> forall i | 0 <= i < |r.value.lines| :: r.value.lines[i] != [] && IsStripped(r.value.lines[i])
  {
    var scripts :- ScriptsOf(config);
    if cmdName !in scripts || scripts[cmdName].Null? then Failure(ScriptNotDefined(cmdName))
    else
      var res :- ResolveScriptDefinition(scripts[cmdName], args, cmdName);
      var vars :- VarsOf(config);
      var rendered := RenderScript(res.steps, res.remaining, vars);
      if rendered.Failure? then Failure(Rendering(rendered.error))
      else Success(Plan(rendered.value, res.remaining, vars))
  }

  /** `execute`. `environ` is the process environment and `status` the exit
      status the shell reports for a line run in a given environment. */
  function Execute(config: map<string, Json>, cmdName: string, args: seq<string>, dryRun: bool, shareVars: bool,
                   environ: Env, status: (string, Option<Env>) -> int): (r: Invocation)
    ensures dryRun ==> r.dispatched == []
    ensures r.outcome.Pass? <==>
              Prepare(config, cmdName, args).Success? &&
              (dryRun || forall i | 0 <= i < |r.dispatched| :: status(r.dispatched[i].0, r.dispatched[i].1) == 0)
  {
    match Prepare(config, cmdName, args)
    case Failure(e) => Invocation([], Fail(e))
    case Success(plan) =>
      if plan.lines == [] || dryRun then Invocation([], Pass)
      else
        var env := if shareVars then Some(ShareEnv(environ, plan.vars, plan.callArgs)) else None;
        RunLines(plan.lines, env, status)
  }

  /** A failure before dispatch runs nothing, and reports the first check that
      failed. */
  lemma ExecutePrepareFails(config: map<string, Json>, cmdName: string, args: seq<string>, dryRun: bool, shareVars: bool,
                            environ: Env, status: (string, Option<Env>) -> int)
    requires Prepare(config, cmdName, args).Failure?
    ensures Execute(config, cmdName, args, dryRun, shareVars, environ, status)
         == Invocation([], Fail(Prepare(config, cmdName, args).error))
  {
  }

  /** When the configuration and the arguments are sound and not a dry run,
      the rendered lines are dispatched in order, each with the same
      environment, until the first one that fails. */
  lemma ExecuteDispatches(config: map<string, Json>, cmdName: string, args: seq<string>, shareVars: bool,
                          environ: Env, status: (string, Option<Env>) -> int)
    requires Prepare(config, cmdName, args).Success?
    ensures var plan := Prepare(config, cmdName, args).value;
            var r := Execute(config, cmdName, args, false, shareVars, environ, status);
            && |r.dispatched| <= |plan.lines|
            && (forall i | 0 <= i < |r.dispatched| :: r.dispatched[i].0 == plan.lines[i])
            && (r.outcome.Pass? ==> |r.dispatched| == |plan.lines|)
            && (forall i | 0 <= i < |r.dispatched| :: r.dispatched[i].1.Some? <==> shareVars)
            && (r.outcome.Fail? ==>
                  && r.dispatched != []
                  && (forall i | 0 <= i < |r.dispatched| - 1 :: status(r.dispatched[i].0, r.dispatched[i].1) == 0)
                  && var last := r.dispatched[|r.dispatched| - 1];
                  status(last.0, last.1) != 0 && r.outcome.error == CommandFailed(status(last.0, last.1)))
  {
    ExecuteRuns(config, cmdName, args, shareVars, environ, status);
  }

  /** Past the checks and not a dry run, `execute` is the dispatch loop over
      the rendered lines. */
  lemma ExecuteRuns(config: map<string, Json>, cmdName: string, args: seq<string>, shareVars: bool,
                    environ: Env, status: (string, Option<Env>) -> int)
    requires Prepare(config, cmdName, args).Success?
    ensures var plan := Prepare(config, cmdName, args).value;
            var env := if shareVars then Some(ShareEnv(environ, plan.vars, plan.callArgs)) else None;
            Execute(config, cmdName, args, false, shareVars, environ, status) == RunLines(plan.lines, env, status)
  {
    var plan := Prepare(config, cmdName, args).value;
    var env := if shareVars then Some(ShareEnv(environ, plan.vars, plan.callArgs)) else None;
    if plan.lines == [] {
      assert RunLines(plan.lines, env, status) == Invocation([], Pass);
    }
  }

  /** With shared variables every line sees the arguments as `MCL_ARG_i`, the
      configuration variables as strings, and the rest of the process
      environment. */
  lemma ExecuteSharesVars(config: map<string, Json>, cmdName: string, args: seq<string>,
                          environ: Env, status: (string, Option<Env>) -> int)
    requires Prepare(config, cmdName, args).Success?
    ensures var plan := Prepare(config, cmdName, args).value;
            var r := Execute(config, cmdName, args, false, true, environ, status);
            forall i | 0 <= i < |r.dispatched| ::
              r.dispatched[i].1 == Some(ShareEnv(environ, plan.vars, plan.callArgs))
  {
  }
}
