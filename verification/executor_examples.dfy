/** Configurations of the shapes the repository's executor tests use, run
    through `execute`: a script group with a plain child, a group without a
    usable subcommand, and variables shared with the child. */
module ExecutorExamples {
  import opened Outcomes
  import opened Text
  import opened Values
  import opened Render
  import opened Executor
  import opened RenderExamples

  /** A one-element argument list followed by the rest is split back into
      its head and the rest. */
  lemma HeadAndRest(sub: string, rest: seq<string>)
    ensures ([sub] + rest)[..1] == [sub] && ([sub] + rest)[1..] == rest && ([sub] + rest)[0] == sub
  {
  }

  /** A script group picks its child by the first argument and leaves the
      other arguments to the child's steps. */
  lemma GroupSelectsChild(config: map<string, Json>, name: string, m: map<string, Json>, sub: string, rest: seq<string>,
                          vars: map<string, Json>, steps: seq<string>)
    requires "scripts" in config && config["scripts"].Obj?
    requires name in config["scripts"].fields && config["scripts"].fields[name] == Obj(m)
    requires sub in m && CoerceSteps(m[sub], name, [sub]) == Success(steps) && !m[sub].Obj?
    requires VarsOf(config) == Success(vars)
    requires RenderScript(steps, rest, vars).Success?
    ensures Prepare(config, name, [sub] + rest) == Success(Plan(RenderScript(steps, rest, vars).value, rest, vars))
  {
    var args := [sub] + rest;
    HeadAndRest(sub, rest);
    assert Descend(Obj(m), args[..1]) == Some(m[sub]);
    ResolveReaches(Obj(m), args, name, [], 1);
    assert [] + args[..1] == [sub];
  }

  /** The nested-script test in general: a child holding one plain line runs
      that line, stripped, in the inherited environment. */
  lemma NestedScriptRuns(config: map<string, Json>, name: string, m: map<string, Json>, sub: string, rest: seq<string>,
                         line: string, environ: Env, status: (string, Option<Env>) -> int)
    requires "scripts" in config && config["scripts"].Obj?
    requires name in config["scripts"].fields && config["scripts"].fields[name] == Obj(m)
    requires sub in m && m[sub] == Str(line)
    requires VarsOf(config).Success?
    requires '$' !in line && !IsSkipped(line)
    ensures Execute(config, name, [sub] + rest, false, false, environ, status).dispatched == [(Strip(line), None)]
  {
    var vars := VarsOf(config).value;
    PlainStep(line, rest, vars);
    SingleStep(line, rest, vars);
    GroupSelectsChild(config, name, m, sub, rest, vars, [line]);
    RunOne(Strip(line), None, status);
  }

  /** A one-line script dispatches its line exactly once, whatever its exit
      status. */
  lemma RunOne(l: string, env: Option<Env>, status: (string, Option<Env>) -> int)
    ensures RunLines([l], env, status).dispatched == [(l, env)]
  {
    var r := RunLines([l], env, status);
    assert |r.dispatched| == 1;
    assert r.dispatched[0] == (l, env);
  }

  /** A script group called without arguments fails, listing its children
      in sorted order. */
  lemma GroupNeedsSubcommand(config: map<string, Json>, name: string, m: map<string, Json>, dryRun: bool, shareVars: bool,
                             environ: Env, status: (string, Option<Env>) -> int)
    requires "scripts" in config && config["scripts"].Obj?
    requires name in config["scripts"].fields && config["scripts"].fields[name] == Obj(m)
    ensures Execute(config, name, [], dryRun, shareVars, environ, status)
         == Invocation([], Fail(RequiresSubcommand(name, SetToSorted(m.Keys))))
  {
    ResolveExhausted(Obj(m), [], name, [], m);
    assert FormatPath(name, []) == name by { assert [name] + [] == [name]; }
  }

  /** A script group called with an argument that names none of its children
      fails with that argument and the sorted children. */
  lemma GroupUnknownSubcommand(config: map<string, Json>, name: string, m: map<string, Json>, sub: string, rest: seq<string>,
                               dryRun: bool, shareVars: bool, environ: Env, status: (string, Option<Env>) -> int)
    requires "scripts" in config && config["scripts"].Obj?
    requires name in config["scripts"].fields && config["scripts"].fields[name] == Obj(m)
    requires sub !in m
    ensures Execute(config, name, [sub] + rest, dryRun, shareVars, environ, status)
         == Invocation([], Fail(NoSubcommand(name, sub, SetToSorted(m.Keys))))
  {
    var args := [sub] + rest;
    HeadAndRest(sub, rest);
    assert args[..0] == [];
    ResolveUnknown(Obj(m), args, name, [], 0, m);
    assert FormatPath(name, []) == name by { assert [name] + [] == [name]; }
  }

  /** The shared-variables test in general: a script whose single step ends
      in `$name` runs the rendered line with the variable, as a string, in
      the child's environment. */
  lemma SharedVariablesReachTheChild(config: map<string, Json>, name: string, b: string, vname: string,
                                     args: seq<string>, vars: map<string, Json>,
                                     environ: Env, status: (string, Option<Env>) -> int)
    requires "scripts" in config && config["scripts"].Obj?
    requires name in config["scripts"].fields && config["scripts"].fields[name] == Arr([Str(b + "$" + vname)])
    requires VarsOf(config) == Success(vars)
    requires b != [] && !IsSpace(b[0]) && b[0] != '#' && '?' !in b && '$' !in b
    requires |vname| >= 1 && IsNameStart(vname[0]) && AllIn(NameChars, vname[1..]) && vname in vars
    requires var text := Stringify(vars[vname]); text != [] && !IsSpace(text[|text| - 1])
    requires !IsArgName(vname, |args|)
    ensures var r := Execute(config, name, args, false, true, environ, status);
            && |r.dispatched| == 1
            && r.dispatched[0].0 == b + Stringify(vars[vname])
            && r.dispatched[0].1.Some?
            && vname in r.dispatched[0].1.value
            && r.dispatched[0].1.value[vname] == Stringify(vars[vname])
  {
    var node := Arr([Str(b + "$" + vname)]);
    var line := b + "$" + vname;
    assert args[..0] == [] && args[0..] == args;
    assert Descend(node, args[..0]) == Some(node);
    ResolveReaches(node, args, name, [], 0);
    var coerced := CoerceSteps(node, name, [] + args[..0]);
    assert node.items[0].Str? && coerced.Success?;
    assert |coerced.value| == 1 && coerced.value[0] == line;
    assert coerced.value == [line];
    VariableStep(b, vname, args, vars);
    SingleStep(line, args, vars);
    assert Prepare(config, name, args) == Success(Plan([b + Stringify(vars[vname])], args, vars));
    RunOne(b + Stringify(vars[vname]), Some(ShareEnv(environ, vars, args)), status);
  }
}
