/** Configuration loading: the global file, optionally the project file
    merged on top of it, and the defaults both are merged into. The files
    arrive already parsed; `None` stands for a file that does not exist. */
module Config {
  import opened Outcomes
  import opened Text
  import opened Values

  // ---------------------------------------------------------------------------
  // Merging
  // ---------------------------------------------------------------------------

  /** No key occurs twice. */
  predicate Distinct(keys: seq<string>) {
    forall i, j | 0 <= i < j < |keys| :: keys[i] != keys[j]
  }

  /** The value a key ends up with when `override` holds `o` for it and the
      base already held `b`: an object over an object is merged recursively,
      anything else replaces the base value. */
  function MergeValue(b: Json, o: Json): (r: Json)
    ensures !(b.Obj? && o.Obj?) ==> r == o
    ensures b.Obj? && o.Obj? ==> r.Obj?
    decreases o, 2, 0
  {
    if b.Obj? && o.Obj? then Obj(MergeDicts(b.fields, o.fields)) else o
  }

  /** The loop of `_merge_dicts`, run over `keys` of `over` in the given
      order. */
  function MergeInto(base: map<string, Json>, over: map<string, Json>, keys: seq<string>): (r: map<string, Json>)
    requires forall i | 0 <= i < |keys| :: keys[i] in over
    requires Distinct(keys)
    ensures forall k :: k in r <==> k in base || k in keys
    ensures forall k | k in keys && k in base :: r[k] == MergeValue(base[k], over[k])
    ensures forall k | k in keys && k !in base :: r[k] == over[k]
    ensures forall k | k in base && k !in keys :: r[k] == base[k]
    decreases Obj(over), 0, |keys|
  {
    if keys == [] then base
    else
      var k := keys[0];
      var v := if k in base then MergeValue(base[k], over[k]) else over[k];
      MergeIntoStep(base, over, keys, v);
      MergeInto(base[k := v], over, keys[1..])
  }

  /** The bookkeeping of one iteration of the merge loop: the remaining keys
      are distinct, all in `over`, and none of them is the key just merged. */
  lemma {:induction false} MergeIntoStep(base: map<string, Json>, over: map<string, Json>, keys: seq<string>, v: Json)
    requires keys != []
    requires forall i | 0 <= i < |keys| :: keys[i] in over
    requires Distinct(keys)
    ensures forall i | 0 <= i < |keys[1..]| :: keys[1..][i] in over
    ensures Distinct(keys[1..])
    ensures keys[0] !in keys[1..]
    ensures forall k :: k in keys <==> k == keys[0] || k in keys[1..]
  {
    assert keys == [keys[0]] + keys[1..];
    forall i, j | 0 <= i < j < |keys[1..]| ensures keys[1..][i] != keys[1..][j] {
      assert keys[1..][i] == keys[i + 1] && keys[1..][j] == keys[j + 1];
    }
    forall i | 0 <= i < |keys[1..]| ensures keys[1..][i] != keys[0] {
      assert keys[1..][i] == keys[i + 1];
    }
  }

  /** `_merge_dicts(base, override)`: the value `base` holds afterwards. The
      loop visits the keys of `override` in the dict's order; since each key
      is visited once and the visits touch different keys, any order gives
      the same result, and the keys' sorted order stands for it. */
  function MergeDicts(base: map<string, Json>, over: map<string, Json>): (r: map<string, Json>)
    ensures forall k :: k in r <==> k in base || k in over
    ensures forall k | k in over && k in base :: r[k] == MergeValue(base[k], over[k])
    ensures forall k | k in over && k !in base :: r[k] == over[k]
    ensures forall k | k in base && k !in over :: r[k] == base[k]
    decreases Obj(over), 1, 0
  {
    MergeInto(base, over, SetToSorted(over.Keys))
  }

  /** Two maps with the same keys and the same value at each key are
      equal. */
  lemma SameMap(a: map<string, Json>, b: map<string, Json>)
    requires forall k :: k in a <==> k in b
    requires forall k | k in a :: a[k] == b[k]
    ensures a == b
  {
  }

  /** Merging nothing leaves the base as it was. */
  lemma {:induction false} MergeNothing(base: map<string, Json>)
    ensures MergeDicts(base, map[]) == base
  {
    var r := MergeDicts(base, map[]);
    SameMap(r, base);
  }

  /** Merging into nothing gives the override itself. */
  lemma {:induction false} MergeIntoNothing(over: map<string, Json>)
    ensures MergeDicts(map[], over) == over
  {
    var r := MergeDicts(map[], over);
    SameMap(r, over);
  }

  /** Merging a configuration into itself changes nothing. */
  lemma {:induction false} MergeIdempotent(m: map<string, Json>)
    ensures MergeDicts(m, m) == m
    decreases Obj(m)
  {
    var r := MergeDicts(m, m);
    forall k | k in m ensures r[k] == m[k] {
      if m[k].Obj? {
        MergeIdempotent(m[k].fields);
      }
    }
    SameMap(r, m);
  }

  /** Every value the override defines that is not an object is what the
      merged configuration holds at that path, however deep. */
  lemma {:induction false} MergeOverrideWins(base: map<string, Json>, over: map<string, Json>, ks: seq<string>, v: Json)
    requires ks != [] && Descend(Obj(over), ks) == Some(v) && !v.Obj?
    ensures Descend(Obj(MergeDicts(base, over)), ks) == Some(v)
    decreases |ks|
  {
    var r := MergeDicts(base, over);
    var k := ks[0];
    DescendHead(over, ks);
    DescendHead(r, ks);
    if ks[1..] == [] {
      assert over[k] == v;
      assert r[k] == over[k];
    } else if k in base && base[k].Obj? && over[k].Obj? {
      MergeOverrideWins(base[k].fields, over[k].fields, ks[1..], v);
      assert r[k] == MergeValue(base[k], over[k]) == Obj(MergeDicts(base[k].fields, over[k].fields));
    } else {
      assert r[k] == over[k];
    }
  }

  /** Every value of the base at a path the override does not reach (some
      object of the override along the path lacks the next key) is kept. */
  lemma {:induction false} MergeBaseKept(base: map<string, Json>, over: map<string, Json>, ks: seq<string>, i: nat,
                                         om: map<string, Json>, v: Json)
    requires 1 <= i <= |ks|
    requires Descend(Obj(over), ks[..i - 1]) == Some(Obj(om)) && ks[i - 1] !in om
    requires Descend(Obj(base), ks) == Some(v)
    ensures Descend(Obj(MergeDicts(base, over)), ks) == Some(v)
    decreases i
  {
    var r := MergeDicts(base, over);
    var k := ks[0];
    DescendHead(base, ks);
    DescendHead(r, ks);
    if i == 1 {
      assert ks[..0] == [];
      assert k !in over;
      assert r[k] == base[k];
    } else {
      var pre := ks[..i - 1];
      PathShift(ks, i);
      DescendHead(over, pre);
      DescendFromObject(over[k], pre[1..]);
      DescendFromObject(base[k], ks[1..]);
      MergeBaseKept(base[k].fields, over[k].fields, ks[1..], i - 1, om, v);
      assert r[k] == MergeValue(base[k], over[k]) == Obj(MergeDicts(base[k].fields, over[k].fields));
    }
  }

  /** The first `i - 1` keys of a path, after its head, are the first `i - 2`
      keys of its tail. */
  lemma PathShift(ks: seq<string>, i: nat)
    requires 2 <= i <= |ks|
    ensures ks[..i - 1] != [] && ks[..i - 1][0] == ks[0]
    ensures ks[..i - 1][1..] == ks[1..][..i - 2]
    ensures ks[1..] != [] && ks[1..][i - 2] == ks[i - 1]
  {
  }

  // ---------------------------------------------------------------------------
  // Loading
  // ---------------------------------------------------------------------------

  /** Which file a value came from. */
  datatype Source = GlobalFile | LocalFile

  datatype ConfigError =
    | NotAnObject(source: Source)    // "Configuration in … must be a JSON object"
    | KeysNotObjects                  // "Configuration keys 'scripts' and 'vars' must be objects"

  /** The configuration every merge starts from. */
  function Defaults(): map<string, Json> {
    map["vars" := Obj(map[]), "scripts" := Obj(map[])]
  }

  /** `_load_json` on a file that may be missing: a missing file contributes
      nothing, and a document that is not an object is rejected. */
  function LoadedData(data: Option<Json>, source: Source): (r: Result<map<string, Json>, ConfigError>)
    ensures data.None? ==> r == Success(map[])
    ensures r.Success? <==> data.None? || data.value.Obj?
    ensures r.Success? && data.Some? ==> data.value == Obj(r.value)
    ensures r.Failure? ==> r.error == NotAnObject(source)
  {
    match data
    case None => Success(map[])
    case Some(Obj(m)) => Success(m)
    case Some(_) => Failure(NotAnObject(source))
  }

  /** The `scripts` object of a loaded file, or nothing when it has none or
      it is not an object. */
  function ScriptsView(data: map<string, Json>): (r: map<string, Json>)
    ensures "scripts" in data && data["scripts"].Obj? ==> r == data["scripts"].fields
    ensures !("scripts" in data && data["scripts"].Obj?) ==> r == map[]
  {
    if "scripts" in data && data["scripts"].Obj? then data["scripts"].fields else map[]
  }

  /** `dict.setdefault(key, {})`. */
  function SetDefault(m: map<string, Json>, key: string): (r: map<string, Json>)
    ensures key in r && (key in m ==> r == m)
    ensures key !in m ==> r[key] == Obj(map[])
    ensures forall k | k != key :: (k in r <==> k in m) && (k in m ==> r[k] == m[k])
  {
    if key in m then m else m[key := Obj(map[])]
  }

  /** A merge keeps every key of its base. */
  lemma {:induction false} MergeKeepsKey(base: map<string, Json>, over: map<string, Json>, key: string)
    requires key in base
    ensures key in MergeDicts(base, over)
  {
  }

  /** The defaults, then the global data, then the project data, merged in
      that order, with `scripts` and `vars` guaranteed present. The
      guarantee adds nothing: the defaults hold both keys and a merge keeps
      every key of its base. */
  function Combined(g: map<string, Json>, l: map<string, Json>): (r: map<string, Json>)
    ensures "scripts" in r && "vars" in r
    ensures r == MergeDicts(MergeDicts(Defaults(), g), l)
  {
    var d := Defaults();
    MergeKeepsKey(d, g, "scripts");
    MergeKeepsKey(d, g, "vars");
    var m := MergeDicts(MergeDicts(d, g), l);
    MergeKeepsKey(MergeDicts(d, g), l, "scripts");
    MergeKeepsKey(MergeDicts(d, g), l, "vars");
    SetDefault(SetDefault(m, "scripts"), "vars")
  }

  /** The `setdefault` calls never add anything: the defaults already hold
      both keys and a merge keeps every key of its base. */
  lemma {:induction false} CombinedIsMerge(g: map<string, Json>, l: map<string, Json>)
    ensures Combined(g, l) == MergeDicts(MergeDicts(Defaults(), g), l)
  {
    var d := Defaults();
    MergeKeepsKey(d, g, "scripts");
    MergeKeepsKey(d, g, "vars");
    MergeKeepsKey(MergeDicts(d, g), l, "scripts");
    MergeKeepsKey(MergeDicts(d, g), l, "vars");
  }

  /** The end of `load_config`: both `scripts` and `vars` must be objects, and
      the two script views are stored beside them. */
  function Finish(merged: map<string, Json>, gs: map<string, Json>, ls: map<string, Json>): (r: Result<map<string, Json>, ConfigError>)
    requires "scripts" in merged && "vars" in merged
    ensures r.Success? <==> merged["scripts"].Obj? && merged["vars"].Obj?
    ensures r.Failure? ==> r.error == KeysNotObjects
    ensures r.Success? ==>
              && r.value.Keys == merged.Keys + {"__global_scripts__", "__local_scripts__"}
              && r.value["__global_scripts__"] == Obj(gs)
              && r.value["__local_scripts__"] == Obj(ls)
              && forall k | k in merged && k != "__global_scripts__" && k != "__local_scripts__" :: r.value[k] == merged[k]
  {
    if !merged["scripts"].Obj? || !merged["vars"].Obj? then Failure(KeysNotObjects)
    else Success(merged["__global_scripts__" := Obj(gs)]["__local_scripts__" := Obj(ls)])
  }

  /** The project data that is merged: none without the local flag. */
  function LocalData(local: Option<Json>, useLocal: bool): Result<map<string, Json>, ConfigError> {
    if useLocal then LoadedData(local, LocalFile) else Success(map[])
  }

  /** `load_config`, with the file contents as parameters: the defaults, the
      global file merged in, the project file merged on top when `useLocal`
      is set, and each file's own `scripts` object kept aside under
      `__global_scripts__` and `__local_scripts__`. */
  function LoadConfig(global: Option<Json>, local: Option<Json>, useLocal: bool): (r: Result<map<string, Json>, ConfigError>)
    ensures global.Some? && !global.value.Obj? ==> r == Failure(NotAnObject(GlobalFile))
    ensures (global.None? || global.value.Obj?) && useLocal && local.Some? && !local.value.Obj? ==>
              r == Failure(NotAnObject(LocalFile))
    ensures r.Success? ==>
              && "scripts" in r.value && r.value["scripts"].Obj?
              && "vars" in r.value && r.value["vars"].Obj?
              && "__global_scripts__" in r.value && "__local_scripts__" in r.value
    ensures r.Success? && global.Some? ==> r.value["__global_scripts__"] == Obj(ScriptsView(global.value.fields))
    ensures r.Success? && global.None? ==> r.value["__global_scripts__"] == Obj(map[])
    ensures r.Success? && useLocal && local.Some? ==> r.value["__local_scripts__"] == Obj(ScriptsView(local.value.fields))
    ensures r.Success? && (!useLocal || local.None?) ==> r.value["__local_scripts__"] == Obj(map[])
  {
    var g :- LoadedData(global, GlobalFile);
    var l :- LocalData(local, useLocal);
    Finish(Combined(g, l), ScriptsView(g), ScriptsView(l))
  }

  /** Once both files are read, loading fails exactly when the merged
      `scripts` or `vars` is not an object, and otherwise holds every merged
      key as merged, beside the two script views. */
  lemma {:induction false} LoadConfigMerged(global: Option<Json>, local: Option<Json>, useLocal: bool)
    requires global.None? || global.value.Obj?
    requires !useLocal || local.None? || local.value.Obj?
    ensures var g := if global.Some? then global.value.fields else map[];
            var l := if useLocal && local.Some? then local.value.fields else map[];
            var merged := Combined(g, l);
            var r := LoadConfig(global, local, useLocal);
            && (r.Success? <==> merged["scripts"].Obj? && merged["vars"].Obj?)
            && (r.Failure? ==> r.error == KeysNotObjects)
            && (r.Success? ==>
                  && r.value.Keys == merged.Keys + {"__global_scripts__", "__local_scripts__"}
                  && forall k | k in merged && k != "__global_scripts__" && k != "__local_scripts__" :: r.value[k] == merged[k])
  {
    LoadRead(global, local, useLocal);
  }

  /** Once both files are read, loading is finishing their combination. */
  lemma {:induction false} LoadRead(global: Option<Json>, local: Option<Json>, useLocal: bool)
    requires global.None? || global.value.Obj?
    requires !useLocal || local.None? || local.value.Obj?
    ensures var g := if global.Some? then global.value.fields else map[];
            var l := if useLocal && local.Some? then local.value.fields else map[];
            LoadConfig(global, local, useLocal) == Finish(Combined(g, l), ScriptsView(g), ScriptsView(l))
  {
    var g := if global.Some? then global.value.fields else map[];
    var l := if useLocal && local.Some? then local.value.fields else map[];
    var rg := LoadedData(global, GlobalFile);
    var rl := LocalData(local, useLocal);
    assert rg == Success(g) by {
      if global.Some? { assert global == Some(Obj(g)); }
    }
    assert rl == Success(l) by {
      if useLocal && local.Some? { assert local == Some(Obj(l)); }
    }
  }

  /** Without the local flag the project file is not read at all. */
  lemma {:induction false} LoadIgnoresLocal(global: Option<Json>, local: Option<Json>)
    ensures LoadConfig(global, local, false) == LoadConfig(global, None, true)
  {
  }

  /** With no files the configuration is the defaults and two empty script
      views. */
  lemma {:induction false} LoadDefaults(useLocal: bool)
    ensures LoadConfig(None, None, useLocal) == Success(map[
              "vars" := Obj(map[]), "scripts" := Obj(map[]),
              "__global_scripts__" := Obj(map[]), "__local_scripts__" := Obj(map[])])
  {
    MergeNothing(Defaults());
    assert Combined(map[], map[]) == Defaults();
  }

  /** Merging an object into an object under the same key merges their
      fields. */
  lemma {:induction false} MergeAt(base: map<string, Json>, over: map<string, Json>, key: string, bm: map<string, Json>, om: map<string, Json>)
    requires key in base && base[key] == Obj(bm) && key in over && over[key] == Obj(om)
    ensures key in MergeDicts(base, over) && MergeDicts(base, over)[key] == Obj(MergeDicts(bm, om))
  {
    assert MergeDicts(base, over)[key] == MergeValue(base[key], over[key]);
  }

  /** The merge test in general: the project file's scripts and variables
      win over the global ones, global scripts the project file does not
      name are kept, and each file's scripts are reported as that file
      wrote them. */
  lemma {:induction false} LoadLocalOverGlobal(gm: map<string, Json>, lm: map<string, Json>, gs: map<string, Json>, ls: map<string, Json>,
                            gv: map<string, Json>, lv: map<string, Json>)
    requires "scripts" in gm && gm["scripts"] == Obj(gs) && "vars" in gm && gm["vars"] == Obj(gv)
    requires "scripts" in lm && lm["scripts"] == Obj(ls) && "vars" in lm && lm["vars"] == Obj(lv)
    ensures var r := LoadConfig(Some(Obj(gm)), Some(Obj(lm)), true);
            && r.Success?
            && r.value["scripts"] == Obj(MergeDicts(gs, ls))
            && r.value["vars"] == Obj(MergeDicts(gv, lv))
            && r.value["__global_scripts__"] == Obj(gs)
            && r.value["__local_scripts__"] == Obj(ls)
  {
    CombinedObjects(gm, lm, gs, ls, gv, lv);
    LoadBoth(gm, lm);
    assert ScriptsView(gm) == gs && ScriptsView(lm) == ls;
    var m := Combined(gm, lm);
    FinishKeeps(m, gs, ls);
    var r := LoadConfig(Some(Obj(gm)), Some(Obj(lm)), true);
    assert r == Finish(m, gs, ls);
    assert r.value["scripts"] == m["scripts"] == Obj(MergeDicts(gs, ls));
    assert r.value["vars"] == m["vars"] == Obj(MergeDicts(gv, lv));
    assert r.value["__global_scripts__"] == Obj(gs) && r.value["__local_scripts__"] == Obj(ls);
  }

  /** Finishing a configuration whose `scripts` and `vars` are objects keeps
      them and adds the two views. */
  lemma {:induction false} FinishKeeps(merged: map<string, Json>, gs: map<string, Json>, ls: map<string, Json>)
    requires "scripts" in merged && merged["scripts"].Obj? && "vars" in merged && merged["vars"].Obj?
    ensures var r := Finish(merged, gs, ls);
            && r.Success?
            && r.value["scripts"] == merged["scripts"] && r.value["vars"] == merged["vars"]
            && r.value["__global_scripts__"] == Obj(gs) && r.value["__local_scripts__"] == Obj(ls)
  {
    assert "scripts" != "__global_scripts__" && "scripts" != "__local_scripts__";
    assert "vars" != "__global_scripts__" && "vars" != "__local_scripts__";
  }


  /** When both files hold `scripts` and `vars` objects, the combination
      holds their merges. */
  lemma {:induction false} CombinedObjects(gm: map<string, Json>, lm: map<string, Json>, gs: map<string, Json>, ls: map<string, Json>,
                        gv: map<string, Json>, lv: map<string, Json>)
    requires "scripts" in gm && gm["scripts"] == Obj(gs) && "vars" in gm && gm["vars"] == Obj(gv)
    requires "scripts" in lm && lm["scripts"] == Obj(ls) && "vars" in lm && lm["vars"] == Obj(lv)
    ensures Combined(gm, lm)["scripts"] == Obj(MergeDicts(gs, ls))
    ensures Combined(gm, lm)["vars"] == Obj(MergeDicts(gv, lv))
  {
    CombinedIsMerge(gm, lm);
    DefaultsThenGlobal(gm, gs, gv);
    var m1 := MergeDicts(Defaults(), gm);
    MergeAt(m1, lm, "scripts", gs, ls);
    MergeAt(m1, lm, "vars", gv, lv);
  }

  /** Merging a file with `scripts` and `vars` objects into the defaults
      gives those objects. */
  lemma {:induction false} DefaultsThenGlobal(gm: map<string, Json>, gs: map<string, Json>, gv: map<string, Json>)
    requires "scripts" in gm && gm["scripts"] == Obj(gs) && "vars" in gm && gm["vars"] == Obj(gv)
    ensures var m := MergeDicts(Defaults(), gm);
            "scripts" in m && m["scripts"] == Obj(gs) && "vars" in m && m["vars"] == Obj(gv)
  {
    var d := Defaults();
    MergeAt(d, gm, "scripts", map[], gs);
    MergeAt(d, gm, "vars", map[], gv);
    MergeIntoNothing(gs);
    MergeIntoNothing(gv);
  }



  /** Loading two object files is finishing their combination. */
  lemma {:induction false} LoadBoth(gm: map<string, Json>, lm: map<string, Json>)
    ensures LoadConfig(Some(Obj(gm)), Some(Obj(lm)), true) == Finish(Combined(gm, lm), ScriptsView(gm), ScriptsView(lm))
  {
    assert LoadedData(Some(Obj(gm)), GlobalFile) == Success(gm);
    assert LocalData(Some(Obj(lm)), true) == Success(lm);
  }

  // ---------------------------------------------------------------------------
  // The global script view as the code computes it
  // ---------------------------------------------------------------------------

  /** What `__global_scripts__` holds once the project file has been merged:
      the global dict is stored by reference, the first merge copies only its
      top level, so every global script group that the project file also
      defines as an object is the very dict the second merge updates in
      place. */
  function AliasedScripts(gs: map<string, Json>, ls: map<string, Json>): (r: map<string, Json>)
    ensures r.Keys == gs.Keys
    ensures forall k | k in gs && !(k in ls && gs[k].Obj? && ls[k].Obj?) :: r[k] == gs[k]
    ensures forall k | k in gs && k in ls && gs[k].Obj? && ls[k].Obj? :: r[k] == MergeValue(gs[k], ls[k])
  {
    map k | k in gs :: if k in ls && gs[k].Obj? && ls[k].Obj? then MergeValue(gs[k], ls[k]) else gs[k]
  }

  /** `load_config` as written, with the aliasing above. */
  function LoadConfigAsWritten(global: Option<Json>, local: Option<Json>, useLocal: bool): (r: Result<map<string, Json>, ConfigError>)
  {
    var g :- LoadedData(global, GlobalFile);
    var l :- LocalData(local, useLocal);
    Finish(Combined(g, l), AliasedScripts(ScriptsView(g), ScriptsView(l)), ScriptsView(l))
  }

  /** Finishing with two different global views gives the same outcome up
      to the view itself. */
  lemma {:induction false} FinishGlobalView(merged: map<string, Json>, ga: map<string, Json>, gb: map<string, Json>, ls: map<string, Json>)
    requires "scripts" in merged && "vars" in merged
    ensures var w := Finish(merged, ga, ls);
            var c := Finish(merged, gb, ls);
            && (w.Success? <==> c.Success?)
            && (w.Failure? ==> w.error == c.error)
            && (w.Success? ==> w.value == c.value["__global_scripts__" := Obj(ga)])
  {
    var w := Finish(merged, ga, ls);
    var c := Finish(merged, gb, ls);
    if w.Success? {
      assert "__global_scripts__" != "__local_scripts__";
      assert w.value == c.value["__global_scripts__" := Obj(ga)];
    }
  }

  /** When both files hold a `scripts` object, the merged `scripts` is the
      project's merged over the global's. */
  lemma {:induction false} CombinedScripts(gm: map<string, Json>, lm: map<string, Json>, gs: map<string, Json>, ls: map<string, Json>)
    requires "scripts" in gm && gm["scripts"] == Obj(gs)
    requires "scripts" in lm && lm["scripts"] == Obj(ls)
    ensures Combined(gm, lm)["scripts"] == Obj(MergeDicts(gs, ls))
  {
    CombinedIsMerge(gm, lm);
    var d := Defaults();
    MergeAt(d, gm, "scripts", map[], gs);
    MergeIntoNothing(gs);
    MergeAt(MergeDicts(d, gm), lm, "scripts", gs, ls);
  }

  /** Loading two object files as written is finishing their combination
      with the aliased global view. */
  lemma {:induction false} LoadBothAsWritten(gm: map<string, Json>, lm: map<string, Json>)
    ensures LoadConfigAsWritten(Some(Obj(gm)), Some(Obj(lm)), true)
         == Finish(Combined(gm, lm), AliasedScripts(ScriptsView(gm), ScriptsView(lm)), ScriptsView(lm))
  {
    assert LoadedData(Some(Obj(gm)), GlobalFile) == Success(gm);
    assert LocalData(Some(Obj(lm)), true) == Success(lm);
  }

  /** The visible effect of the aliasing: once the project file is merged,
      every script group both files define as objects is, in the global view
      as written, the very group `scripts` holds, project additions
      included. */
  lemma {:induction false} AliasedGroupIsMerged(gm: map<string, Json>, lm: map<string, Json>, gs: map<string, Json>, ls: map<string, Json>,
                                                k: string)
    requires "scripts" in gm && gm["scripts"] == Obj(gs)
    requires "scripts" in lm && lm["scripts"] == Obj(ls)
    requires k in gs && gs[k].Obj? && k in ls && ls[k].Obj?
    ensures var w := LoadConfigAsWritten(Some(Obj(gm)), Some(Obj(lm)), true);
            w.Success? ==>
              && w.value["__global_scripts__"].Obj? && w.value["scripts"].Obj?
              && k in w.value["__global_scripts__"].fields && k in w.value["scripts"].fields
              && w.value["__global_scripts__"].fields[k] == w.value["scripts"].fields[k]
  {
    LoadBothAsWritten(gm, lm);
    CombinedScripts(gm, lm, gs, ls);
    AliasedFinish(Combined(gm, lm), gs, ls, k);
  }

  /** Finishing with the aliased view keeps the merged groups shared. */
  lemma {:induction false} AliasedFinish(m: map<string, Json>, gs: map<string, Json>, ls: map<string, Json>, k: string)
    requires "scripts" in m && "vars" in m && m["scripts"] == Obj(MergeDicts(gs, ls))
    requires k in gs && gs[k].Obj? && k in ls && ls[k].Obj?
    ensures var f := Finish(m, AliasedScripts(gs, ls), ls);
            f.Success? ==>
              && f.value["__global_scripts__"].Obj? && f.value["scripts"].Obj?
              && k in f.value["__global_scripts__"].fields && k in f.value["scripts"].fields
              && f.value["__global_scripts__"].fields[k] == f.value["scripts"].fields[k]
  {
    var f := Finish(m, AliasedScripts(gs, ls), ls);
    if f.Success? {
      FinishKeeps(m, AliasedScripts(gs, ls), ls);
      AliasedAt(gs, ls, k);
    }
  }

  /** A shared object group of the aliased view is the merged group. */
  lemma {:induction false} AliasedAt(gs: map<string, Json>, ls: map<string, Json>, k: string)
    requires k in gs && gs[k].Obj? && k in ls && ls[k].Obj?
    ensures k in AliasedScripts(gs, ls) && k in MergeDicts(gs, ls)
    ensures AliasedScripts(gs, ls)[k] == MergeDicts(gs, ls)[k]
  {
    assert MergeDicts(gs, ls)[k] == MergeValue(gs[k], ls[k]);
  }

  /** The code as written and the corrected loader fail alike, and on success
      differ in the global script view only. */
  lemma {:induction false} AsWrittenDiffersOnlyInGlobalView(global: Option<Json>, local: Option<Json>, useLocal: bool)
    ensures var w := LoadConfigAsWritten(global, local, useLocal);
            var c := LoadConfig(global, local, useLocal);
            && (w.Success? <==> c.Success?)
            && (w.Failure? ==> w.error == c.error)
            && (w.Success? ==> w.value == c.value["__global_scripts__" := w.value["__global_scripts__"]])
  {
    var g := LoadedData(global, GlobalFile);
    var l := LocalData(local, useLocal);
    if g.Success? && l.Success? {
      var gs := ScriptsView(g.value);
      var ls := ScriptsView(l.value);
      FinishGlobalView(Combined(g.value, l.value), AliasedScripts(gs, ls), gs, ls);
    }
  }

  /** Without a shared object-valued script group the aliased view is the
      global scripts themselves. */
  lemma {:induction false} AliasedUnshared(gs: map<string, Json>, ls: map<string, Json>)
    requires forall k | k in gs && k in ls :: !(gs[k].Obj? && ls[k].Obj?)
    ensures AliasedScripts(gs, ls) == gs
  {
  }

  /** The two agree whenever the files share no script group that both
      define as an object. */
  lemma {:induction false} AsWrittenAgrees(global: Option<Json>, local: Option<Json>, useLocal: bool)
    requires LoadConfig(global, local, useLocal).Success?
    requires var gs := ScriptsView(LoadedData(global, GlobalFile).value);
             var ls := ScriptsView(LocalData(local, useLocal).value);
             forall k | k in gs && k in ls :: !(gs[k].Obj? && ls[k].Obj?)
    ensures LoadConfigAsWritten(global, local, useLocal) == LoadConfig(global, local, useLocal)
  {
    var g := LoadedData(global, GlobalFile).value;
    var l := LocalData(local, useLocal).value;
    AliasedUnshared(ScriptsView(g), ScriptsView(l));
    var c := LoadConfig(global, local, useLocal);
    assert c == Finish(Combined(g, l), ScriptsView(g), ScriptsView(l));
    assert LoadConfigAsWritten(global, local, useLocal) == c;
  }

  /** A script group both files define as objects, with a script only the
      project file has, shows up in the global view as written: the global
      view then lists a script the global file never defined. The corrected
      view is the global file's own scripts. */
  lemma {:induction false} GlobalViewLeaksLocalScript(gm: map<string, Json>, lm: map<string, Json>, gs: map<string, Json>, ls: map<string, Json>,
                                   gv: map<string, Json>, lv: map<string, Json>, k: string, j: string)
    requires "scripts" in gm && gm["scripts"] == Obj(gs) && "vars" in gm && gm["vars"] == Obj(gv)
    requires "scripts" in lm && lm["scripts"] == Obj(ls) && "vars" in lm && lm["vars"] == Obj(lv)
    requires k in gs && gs[k].Obj? && k in ls && ls[k].Obj?
    requires j in ls[k].fields && j !in gs[k].fields
    ensures var w := LoadConfigAsWritten(Some(Obj(gm)), Some(Obj(lm)), true);
            && w.Success?
            && var view := w.value["__global_scripts__"];
            view.Obj? && k in view.fields && view.fields[k].Obj? && j in view.fields[k].fields
    ensures var c := LoadConfig(Some(Obj(gm)), Some(Obj(lm)), true);
            c.Success? && c.value["__global_scripts__"] == Obj(gs)
  {
    LoadLocalOverGlobal(gm, lm, gs, ls, gv, lv);
    var view := AliasedScripts(gs, ls);
    MergeAt(gs, ls, k, gs[k].fields, ls[k].fields);
    assert view[k] == Obj(MergeDicts(gs[k].fields, ls[k].fields));
    var m := Combined(gm, lm);
    CombinedObjects(gm, lm, gs, ls, gv, lv);
    FinishKeeps(m, view, ls);
    assert ScriptsView(gm) == gs && ScriptsView(lm) == ls;
    assert LoadedData(Some(Obj(gm)), GlobalFile) == Success(gm);
    assert LocalData(Some(Obj(lm)), true) == Success(lm);
    assert LoadConfigAsWritten(Some(Obj(gm)), Some(Obj(lm)), true) == Finish(m, view, ls);
  }
}
