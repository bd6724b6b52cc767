/** Listing the scripts a configuration defines: every dotted path that
    leads to a runnable definition, and the global and project script maps
    the loader set aside. */
module Commands {
  import opened Outcomes
  import opened Text
  import opened Values

  // ---------------------------------------------------------------------------
  // Walking the script tree
  // ---------------------------------------------------------------------------

  /** A node the walk reports: a string, a list, or an object with no
      children. */
  predicate IsListed(j: Json) {
    j.Str? || j.Arr? || (j.Obj? && j.fields == map[])
  }

  /** Following `suffix` from `node` ends at a node the walk reports. */
  predicate ListedAt(node: Json, suffix: seq<string>) {
    Descend(node, suffix).Some? && IsListed(Descend(node, suffix).value)
  }

  /** `ks` is `prefix` followed by a path from `node` to a reported node. */
  predicate InWalk(prefix: seq<string>, node: Json, ks: seq<string>) {
    |prefix| <= |ks| && ks[..|prefix|] == prefix && ListedAt(node, ks[|prefix|..])
  }

  /** `_walk(prefix, node)`: the key paths, each starting with `prefix`, that
      it appends, in the order it appends them. Numbers, booleans and `null`
      are skipped. */
  function Walk(prefix: seq<string>, node: Json): seq<seq<string>>
    decreases node, 1, 0
  {
    match node
    case Obj(m) => if m == map[] then [prefix] else WalkFields(prefix, m, SetToSorted(m.Keys))
    case Str(_) => [prefix]
    case Arr(_) => [prefix]
    case _ => []
  }

  /** The walk over the children named by `keys`, in that order. */
  function WalkFields(prefix: seq<string>, m: map<string, Json>, keys: seq<string>): seq<seq<string>>
    requires forall i | 0 <= i < |keys| :: keys[i] in m
    decreases Obj(m), 0, |keys|
  {
    if keys == [] then []
    else Walk(prefix + [keys[0]], m[keys[0]]) + WalkFields(prefix, m, keys[1..])
  }

  /** A sequence one longer than `prefix` starts with `prefix + [k]` exactly
      when it starts with `prefix` and then has `k`. */
  lemma PrefixStep(prefix: seq<string>, k: string, ks: seq<string>)
    requires |prefix| < |ks|
    ensures ks[..|prefix| + 1] == prefix + [k] <==> ks[..|prefix|] == prefix && ks[|prefix|] == k
  {
    if ks[..|prefix|] == prefix && ks[|prefix|] == k {
      assert ks[..|prefix| + 1] == ks[..|prefix|] + [ks[|prefix|]];
    }
    if ks[..|prefix| + 1] == prefix + [k] {
      assert ks[..|prefix|] == ks[..|prefix| + 1][..|prefix|];
    }
  }

  /** Below a node without children only the empty path can lead
      anywhere. */
  lemma ListedAtLeaf(node: Json, suffix: seq<string>)
    requires !node.Obj? || node.fields == map[]
    ensures ListedAt(node, suffix) <==> suffix == [] && IsListed(node)
  {
  }

  /** A non-empty path below an object goes through one of its children. */
  lemma ListedAtChild(m: map<string, Json>, suffix: seq<string>)
    requires suffix != []
    ensures ListedAt(Obj(m), suffix) <==> suffix[0] in m && ListedAt(m[suffix[0]], suffix[1..])
  {
  }

  /** `ks` is `prefix` followed by nothing exactly when it is `prefix`. */
  lemma PrefixWhole(prefix: seq<string>, ks: seq<string>)
    ensures (|prefix| <= |ks| && ks[..|prefix|] == prefix && ks[|prefix|..] == []) <==> ks == prefix
  {
    var n := |prefix|;
    if n <= |ks| && ks[..n] == prefix && ks[n..] == [] {
      assert ks == ks[..n] + ks[n..];
    }
  }

  /** The walk reports exactly the paths that lead from the node to a string,
      a list or an empty object. */
  lemma {:induction false} WalkMembers(prefix: seq<string>, node: Json, ks: seq<string>)
    ensures ks in Walk(prefix, node) <==> InWalk(prefix, node, ks)
    decreases node, 2, 0
  {
    if node.Obj? && node.fields != map[] {
      WalkObjectMembers(prefix, node.fields, ks);
    } else {
      var n := |prefix|;
      assert Walk(prefix, node) == if IsListed(node) then [prefix] else [];
      PrefixWhole(prefix, ks);
      if n <= |ks| { ListedAtLeaf(node, ks[n..]); }
    }
  }

  /** The walk below an object with children reports exactly the paths
      through one of them. */
  lemma {:induction false} WalkObjectMembers(prefix: seq<string>, m: map<string, Json>, ks: seq<string>)
    requires m != map[]
    ensures ks in Walk(prefix, Obj(m)) <==> InWalk(prefix, Obj(m), ks)
    decreases Obj(m), 1, 0
  {
    var keys := SetToSorted(m.Keys);
    WalkObject(prefix, m, ks);
    WalkFieldsMembers(prefix, m, keys, ks);
    ThroughChild(prefix, m, keys, ks);
  }

  /** An object with children is walked child by child in sorted-key
      order. */
  lemma WalkObject(prefix: seq<string>, m: map<string, Json>, ks: seq<string>)
    requires m != map[]
    ensures ks in Walk(prefix, Obj(m)) <==> ks in WalkFields(prefix, m, SetToSorted(m.Keys))
  {
  }

  /** A path leads from below `prefix` through one of the listed children of
      an object with children exactly when it leads from the object itself. */
  lemma ThroughChild(prefix: seq<string>, m: map<string, Json>, keys: seq<string>, ks: seq<string>)
    requires m != map[]
    requires forall x :: x in keys <==> x in m
    ensures (|prefix| < |ks| && ks[..|prefix|] == prefix && ks[|prefix|] in keys && ListedAt(m[ks[|prefix|]], ks[|prefix| + 1..]))
            <==> InWalk(prefix, Obj(m), ks)
  {
    var n := |prefix|;
    if n <= |ks| && ks[..n] == prefix {
      if n == |ks| {
        assert ks[n..] == [];
        assert !ListedAt(Obj(m), []);
      } else {
        SuffixStep(n, ks);
        ListedAtChild(m, ks[n..]);
      }
    }
  }

  /** Dropping the head of the path past `n` is the path past `n + 1`. */
  lemma SuffixStep(n: nat, ks: seq<string>)
    requires n < |ks|
    ensures ks[n..] != [] && ks[n..][0] == ks[n] && ks[n..][1..] == ks[n + 1..]
  {
  }

  /** The walk over some children reports exactly the paths through one of
      those children. */
  lemma {:induction false} WalkFieldsMembers(prefix: seq<string>, m: map<string, Json>, keys: seq<string>, ks: seq<string>)
    requires forall i | 0 <= i < |keys| :: keys[i] in m
    ensures ks in WalkFields(prefix, m, keys) <==>
              |prefix| < |ks| && ks[..|prefix|] == prefix && ks[|prefix|] in keys && ListedAt(m[ks[|prefix|]], ks[|prefix| + 1..])
    decreases Obj(m), 0, |keys|
  {
    if keys != [] {
      var k := keys[0];
      var n := |prefix|;
      WalkMembers(prefix + [k], m[k], ks);
      WalkFieldsMembers(prefix, m, keys[1..], ks);
      if n < |ks| { PrefixStep(prefix, k, ks); }
      assert forall x :: x in keys <==> x == k || x in keys[1..] by {
        assert keys == [k] + keys[1..];
      }
    }
  }

  // ---------------------------------------------------------------------------
  // Listing
  // ---------------------------------------------------------------------------

  /** A path of keys from the top of the script map to a runnable
      definition or an empty group. */
  predicate IsScriptPath(scripts: map<string, Json>, ks: seq<string>) {
    ks != [] && ListedAt(Obj(scripts), ks)
  }

  /** The key paths `list_script_paths` collects, top-level keys in sorted
      order. */
  function KeyPaths(scripts: map<string, Json>): seq<seq<string>> {
    WalkFields([], scripts, SetToSorted(scripts.Keys))
  }

  /** The collected key paths are exactly the script paths. */
  lemma KeyPathsMembers(scripts: map<string, Json>, ks: seq<string>)
    ensures ks in KeyPaths(scripts) <==> IsScriptPath(scripts, ks)
  {
    var keys := SetToSorted(scripts.Keys);
    WalkFieldsMembers([], scripts, keys, ks);
    TopLevelPath(scripts, keys, ks);
  }

  /** A path through one of the listed top-level keys is a script path, and
      every script path goes through one. */
  lemma TopLevelPath(scripts: map<string, Json>, keys: seq<string>, ks: seq<string>)
    requires forall x :: x in keys <==> x in scripts
    ensures (0 < |ks| && ks[..0] == [] && ks[0] in keys && ListedAt(scripts[ks[0]], ks[1..]))
            <==> IsScriptPath(scripts, ks)
  {
    if ks != [] {
      assert ks[..0] == [];
      ListedAtChild(scripts, ks);
    }
  }

  /** Each key path joined with dots. */
  function Joined(xs: seq<seq<string>>): (r: seq<string>)
    ensures |r| == |xs|
    ensures forall i | 0 <= i < |xs| :: r[i] == Join(".", xs[i])
  {
    if xs == [] then [] else [Join(".", xs[0])] + Joined(xs[1..])
  }

  /** `list_script_paths`: the dotted paths of every script and empty group,
      sorted. */
  function ListScriptPaths(scripts: map<string, Json>): (r: seq<string>)
    ensures Sorted(r)
    ensures multiset(r) == multiset(Joined(KeyPaths(scripts)))
    ensures |r| == |KeyPaths(scripts)|
  {
    var joined := Joined(KeyPaths(scripts));
    var r := Sort(joined);
    assert |r| == |multiset(r)| == |multiset(joined)| == |joined|;
    r
  }

  /** A value that occurs in a sorted copy occurs in the original and back. */
  lemma SortMembers(s: seq<string>, x: string)
    ensures x in Sort(s) <==> x in s
  {
    assert x in multiset(Sort(s)) <==> x in multiset(s);
  }

  /** Every script path is listed, dotted. */
  lemma ListedPathIn(scripts: map<string, Json>, ks: seq<string>)
    requires IsScriptPath(scripts, ks)
    ensures Join(".", ks) in ListScriptPaths(scripts)
  {
    KeyPathsMembers(scripts, ks);
    var xs := KeyPaths(scripts);
    var i :| 0 <= i < |xs| && xs[i] == ks;
    assert Joined(xs)[i] == Join(".", ks);
    SortMembers(Joined(xs), Join(".", ks));
  }

  /** Every listed path is a script path, dotted. */
  lemma ListedPathFrom(scripts: map<string, Json>, p: string)
    requires p in ListScriptPaths(scripts)
    ensures exists ks :: IsScriptPath(scripts, ks) && Join(".", ks) == p
  {
    var xs := KeyPaths(scripts);
    SortMembers(Joined(xs), p);
    var i :| 0 <= i < |Joined(xs)| && Joined(xs)[i] == p;
    assert xs[i] in xs;
    KeyPathsMembers(scripts, xs[i]);
  }

  /** A script map that holds no strings, lists or objects lists nothing:
      unsupported values are skipped. */
  lemma UnsupportedListsNothing(scripts: map<string, Json>)
    requires forall k | k in scripts :: !scripts[k].Str? && !scripts[k].Arr? && !scripts[k].Obj?
    ensures ListScriptPaths(scripts) == []
  {
    var xs := KeyPaths(scripts);
    if xs != [] {
      var ks := xs[0];
      KeyPathsMembers(scripts, ks);
      ListedAtChild(scripts, ks);
      ListedAtLeaf(scripts[ks[0]], ks[1..]);
      assert false;
    }
  }

  /** The walk over flat children reports one single-key path per child. */
  lemma {:induction false} FlatWalk(m: map<string, Json>, keys: seq<string>)
    requires forall i | 0 <= i < |keys| :: keys[i] in m && (m[keys[i]].Str? || m[keys[i]].Arr?)
    ensures Joined(WalkFields([], m, keys)) == keys
    decreases |keys|
  {
    if keys != [] {
      var k := keys[0];
      FlatWalk(m, keys[1..]);
      assert [] + [k] == [k];
      assert Walk([k], m[k]) == [[k]];
      var rest := WalkFields([], m, keys[1..]);
      var all := [[k]] + rest;
      assert Joined(all)[1..] == Joined(rest) by {
        assert all[1..] == rest;
      }
      assert Joined(all) == [k] + Joined(rest);
    }
  }

  /** The flat listing test in general: a script map whose values are all
      strings or lists lists its keys, sorted. */
  lemma FlatListsKeys(scripts: map<string, Json>)
    requires forall k | k in scripts :: scripts[k].Str? || scripts[k].Arr?
    ensures ListScriptPaths(scripts) == SetToSorted(scripts.Keys)
  {
    var keys := SetToSorted(scripts.Keys);
    FlatWalk(scripts, keys);
    SortedUnique(Sort(keys), keys);
  }

  // ---------------------------------------------------------------------------
  // The two script maps
  // ---------------------------------------------------------------------------

  /** `config.get(key) or {}`, kept only when it is a dict. */
  function ScriptMap(config: map<string, Json>, key: string): (r: map<string, Json>)
    ensures key in config && config[key].Obj? ==> r == config[key].fields
    ensures !(key in config && config[key].Obj?) ==> r == map[]
  {
    var v := if key in config && Truthy(config[key]) then config[key] else Obj(map[]);
    if v.Obj? then v.fields else map[]
  }

  /** `extract_script_maps`: the global and the project script maps. */
  function ExtractScriptMaps(config: map<string, Json>): (r: (map<string, Json>, map<string, Json>))
    ensures "__global_scripts__" in config && config["__global_scripts__"].Obj? ==> r.0 == config["__global_scripts__"].fields
    ensures !("__global_scripts__" in config && config["__global_scripts__"].Obj?) ==> r.0 == map[]
    ensures "__local_scripts__" in config && config["__local_scripts__"].Obj? ==> r.1 == config["__local_scripts__"].fields
    ensures !("__local_scripts__" in config && config["__local_scripts__"].Obj?) ==> r.1 == map[]
  {
    (ScriptMap(config, "__global_scripts__"), ScriptMap(config, "__local_scripts__"))
  }

  /** The paths of `xs` that are not in `ys`, in their order. */
  function Without(xs: seq<string>, ys: seq<string>): (r: seq<string>)
    ensures forall p :: p in r <==> p in xs && p !in ys
    ensures |r| <= |xs|
    ensures Sorted(xs) ==> Sorted(r)
  {
    if xs == [] then []
    else
      var rest := Without(xs[1..], ys);
      assert forall p :: p in xs <==> p == xs[0] || p in xs[1..] by {
        assert xs == [xs[0]] + xs[1..];
      }
      if xs[0] in ys then rest
      else
        assert Sorted(xs) ==> forall j | 0 <= j < |rest| :: Le(xs[0], rest[j]) by {
          if Sorted(xs) {
            forall j | 0 <= j < |rest| ensures Le(xs[0], rest[j]) {
              assert rest[j] in xs[1..];
              var i :| 0 <= i < |xs[1..]| && xs[1..][i] == rest[j];
              assert xs[i + 1] == rest[j];
            }
          }
        }
        [xs[0]] + rest
  }

  /** Each path of `xs` that is not in `ys` is kept as often as it occurs,
      and the others not at all. */
  lemma {:induction false} WithoutCount(xs: seq<string>, ys: seq<string>, p: string)
    ensures multiset(Without(xs, ys))[p] == if p in ys then 0 else multiset(xs)[p]
    decreases |xs|
  {
    if xs != [] {
      WithoutCount(xs[1..], ys, p);
      assert xs == [xs[0]] + xs[1..];
      assert multiset(xs) == multiset{xs[0]} + multiset(xs[1..]);
      var rest := Without(xs[1..], ys);
      if xs[0] !in ys {
        assert Without(xs, ys) == [xs[0]] + rest;
        assert multiset(Without(xs, ys)) == multiset{xs[0]} + multiset(rest);
      }
    }
  }

  /** Dropping paths keeps the order of the rest: dropping from `a + b` is
      dropping from `a`, then from `b`. */
  lemma {:induction false} WithoutAppend(a: seq<string>, b: seq<string>, ys: seq<string>)
    ensures Without(a + b, ys) == Without(a, ys) + Without(b, ys)
    decreases |a|
  {
    if a != [] {
      var ab := a + b;
      assert ab[0] == a[0];
      assert ab[1..] == a[1..] + b;
      WithoutAppend(a[1..], b, ys);
      var rest := Without(a[1..], ys) + Without(b, ys);
      assert Without(ab, ys) == if a[0] in ys then rest else [a[0]] + rest;
      assert Without(a, ys) == if a[0] in ys then Without(a[1..], ys) else [a[0]] + Without(a[1..], ys);
    } else {
      assert a + b == b;
    }
  }

  /** The script listing of the command-line entry point: the project's
      paths, then the global paths the project does not also define. */
  function Listing(config: map<string, Json>): (r: (seq<string>, seq<string>))
    ensures Sorted(r.0) && Sorted(r.1)
    ensures forall p :: p in r.1 ==> p !in r.0
    ensures var (gs, ls) := ExtractScriptMaps(config);
            && r.0 == ListScriptPaths(ls)
            && (forall p :: p in r.1 <==> p in ListScriptPaths(gs) && p !in ListScriptPaths(ls))
            && forall p :: multiset(r.1)[p] == if p in r.0 then 0 else multiset(ListScriptPaths(gs))[p]
  {
    var (gs, ls) := ExtractScriptMaps(config);
    var localPaths := if ls != map[] then ListScriptPaths(ls) else [];
    var globalAll := if gs != map[] then ListScriptPaths(gs) else [];
    forall p ensures multiset(Without(globalAll, localPaths))[p] == if p in localPaths then 0 else multiset(globalAll)[p] {
      WithoutCount(globalAll, localPaths, p);
    }
    (localPaths, Without(globalAll, localPaths))
  }
}
