/**
 `determinePortingOrder` on the file objects themselves: it filters their
 dependencies in place, builds the dependency graph, emits the ready files, and
 appends whatever a cycle holds back.
 */
module PortingPlan {
  import opened FiniteGraph
  import opened PortingArrival
  import opened PortingOrder

  class FileDependencyInfo {
    const dartFile: string
    const planFile: string
    var dependencies: seq<string>
    const complexity: Complexity

    constructor (dartFile: string, planFile: string, dependencies: seq<string>, complexity: Complexity)
      ensures this.dartFile == dartFile && this.planFile == planFile
      ensures this.dependencies == dependencies && this.complexity == complexity
    {
      this.dartFile := dartFile;
      this.planFile := planFile;
      this.dependencies := dependencies;
      this.complexity := complexity;
    }

    function Name(): string {
      BaseName(dartFile)
    }
  }

  /** `path.basename(file, ".dart")`. */
  function BaseName(file: string): string {
    var name := AfterLastSlash(file);
    if |name| > 5 && name[|name| - 5..] == ".dart" then name[..|name| - 5] else name
  }

  function AfterLastSlash(file: string): string {
    if file == [] then []
    else if file[|file| - 1] == '/' then []
    else AfterLastSlash(file[..|file| - 1]) + [file[|file| - 1]]
  }

  /** The name of a Dart file is what stands between the last slash and the extension. */
  lemma {:induction false} BaseNameIsBetween(directory: string, name: string)
    requires '/' !in name && name != ""
    ensures BaseName(directory + "/" + name + ".dart") == name
    ensures BaseName(name + ".dart") == name
  {
    var last := name + ".dart";
    FollowsLastSlash(directory, last);
    IsAfterLastSlash(last);
    assert directory + "/" + name + ".dart" == directory + "/" + last;
    assert last[|last| - 5..] == ".dart" && last[..|last| - 5] == name;
    hide AfterLastSlash;
  }

  lemma {:induction false} FollowsLastSlash(directory: string, last: string)
    requires '/' !in last
    ensures AfterLastSlash(directory + "/" + last) == last
  {
    var file := directory + "/" + last;
    if last != "" {
      var init := last[..|last| - 1];
      FollowsLastSlash(directory, init);
      assert file[..|file| - 1] == directory + "/" + init && last == init + [last[|last| - 1]];
    }
  }

  lemma {:induction false} IsAfterLastSlash(last: string)
    requires '/' !in last
    ensures AfterLastSlash(last) == last
  {
    if last != "" {
      IsAfterLastSlash(last[..|last| - 1]);
    }
  }

  function Names(files: seq<FileDependencyInfo>): set<string> {
    set f | f in files :: f.Name()
  }

  /** The names in the order in which they first occur. */
  function KeysOf(files: seq<FileDependencyInfo>): (keys: seq<string>)
    ensures Distinct(keys) && Elements(keys) == Names(files)
  {
    if files == [] then []
    else
      var before, n := KeysOf(files[..|files| - 1]), files[|files| - 1].Name();
      assert Names(files) == Names(files[..|files| - 1]) + {n} by {
        assert files == files[..|files| - 1] + [files[|files| - 1]];
      }
      if n in before then before else before + [n]
  }

  lemma OneMoreKey(files: seq<FileDependencyInfo>, i: nat)
    requires i < |files|
    ensures var before, n := KeysOf(files[..i]), files[i].Name();
      KeysOf(files[..i + 1]) == if n in before then before else before + [n]
  {
    assert files[..i + 1][..i] == files[..i];
  }

  /** The keys that were not emitted, in order. */
  function Missing(keys: seq<string>, emitted: seq<string>): seq<string> {
    if keys == [] then []
    else
      var last := keys[|keys| - 1];
      Missing(keys[..|keys| - 1], emitted) + (if last in emitted then [] else [last])
  }

  lemma {:induction false} MissingOneMore(keys: seq<string>, emitted: seq<string>, n: string)
    ensures Missing(keys + [n], emitted) == Missing(keys, emitted) + (if n in emitted then [] else [n])
    ensures forall m :: m in Missing(keys, emitted) <==> m in keys && m !in emitted
  {
    assert (keys + [n])[..|keys|] == keys;
    if keys != [] {
      var init, last := keys[..|keys| - 1], keys[|keys| - 1];
      assert keys == init + [last];
      MissingOneMore(init, emitted, last);
    }
  }

  /** The file that a map built in list order holds under `n`: the last one. */
  predicate IsLastNamed(files: seq<FileDependencyInfo>, n: string, f: FileDependencyInfo) {
    exists k :: 0 <= k < |files| && files[k] == f && f.Name() == n && forall j ::
      k < j < |files| ==> files[j].Name() != n
  }

  function Keep(dependencies: seq<string>, names: set<string>): seq<string> {
    if dependencies == [] then []
    else (if dependencies[0] in names then [dependencies[0]] else []) + Keep(dependencies[1..], names)
  }

  lemma {:induction false} KeepAgain(dependencies: seq<string>, names: set<string>)
    ensures Keep(Keep(dependencies, names), names) == Keep(dependencies, names)
    ensures forall n :: n in Keep(dependencies, names) <==> n in dependencies && n in names
  {
    if dependencies != [] {
      KeepAgain(dependencies[1..], names);
      var rest := Keep(dependencies[1..], names);
      assert dependencies == [dependencies[0]] + dependencies[1..];
      if dependencies[0] in names {
        assert Keep(dependencies, names) == [dependencies[0]] + rest;
        assert ([dependencies[0]] + rest)[1..] == rest;
      } else {
        assert Keep(dependencies, names) == rest;
      }
    }
  }

  function FileEdges(name: string, dependencies: seq<string>): seq<Need> {
    seq(|dependencies|, k requires 0 <= k < |dependencies| => Need(dependencies[k], name))
  }

  /** The edges of the graph, in the order in which the building loop adds them. */
  ghost function EdgesOf(files: seq<FileDependencyInfo>): seq<Need>
    reads set f | f in files
  {
    if files == [] then []
    else EdgesOf(files[..|files| - 1]) + FileEdges(files[|files| - 1].Name(), files[|files| - 1].dependencies)
  }

  ghost predicate InModuleFiles(files: seq<FileDependencyInfo>, names: set<string>)
    reads set f | f in files
  {
    forall f :: f in files ==> forall d :: d in f.dependencies ==> d in names
  }

  lemma {:induction false} EdgesStayInModule(files: seq<FileDependencyInfo>, names: set<string>)
    requires InModuleFiles(files, names) && Names(files) <= names
    ensures InModule(names, EdgesOf(files))
  {
    if files != [] {
      var init, last := files[..|files| - 1], files[|files| - 1];
      assert forall f :: f in init ==> f in files;
      assert last in files;
      EdgesStayInModule(init, names);
      forall k | 0 <= k < |EdgesOf(files)|
        ensures EdgesOf(files)[k].dependency in names && EdgesOf(files)[k].dependent in names
      {
        if k >= |EdgesOf(init)| {
          assert EdgesOf(files)[k] == FileEdges(last.Name(), last.dependencies)[k - |EdgesOf(init)|];
        }
      }
    }
  }

  // ------------------------------------------------------------ the passes

  /** Keeps only the dependencies inside the module, in place. */
  method FilterDependencies(files: seq<FileDependencyInfo>, names: set<string>)
    modifies set f | f in files
    ensures forall f :: f in files ==> f.dependencies == Keep(old(f.dependencies), names)
    ensures InModuleFiles(files, names)
  {
    for i := 0 to |files|
      invariant forall f :: f in files[..i] ==> f.dependencies == Keep(old(f.dependencies), names)
      invariant forall f :: f in files && f !in files[..i] ==> f.dependencies == old(f.dependencies)
    {
      KeepAgain(old(files[i].dependencies), names);
      files[i].dependencies := Keep(files[i].dependencies, names);
      assert files[..i + 1] == files[..i] + [files[i]];
    }
    forall f | f in files
      ensures forall d :: d in f.dependencies ==> d in names
    {
      KeepAgain(old(f.dependencies), names);
    }
  }

  lemma NoNames()
    ensures Names([]) == {} && KeysOf([]) == []
  {
  }

  lemma NamesAppend(files: seq<FileDependencyInfo>, i: nat)
    requires i < |files|
    ensures Names(files[..i + 1]) == Names(files[..i]) + {files[i].Name()}
  {
    assert files[..i + 1] == files[..i] + [files[i]];
  }

  /** The keys in insertion order, with no edges yet. */
  method EmptyGraph(files: seq<FileDependencyInfo>)
    returns (keys: seq<string>, inDegree: Degrees, graph: map<string, seq<string>>)
    ensures keys == KeysOf(files)
    ensures inDegree.Keys == graph.Keys == Names(files)
    ensures forall n :: n in graph ==> inDegree[n] == 0 && graph[n] == []
  {
    hide Names, FileDependencyInfo.Name, KeysOf;
    keys, inDegree, graph := [], map[], map[];
    assert files[..0] == [];
    NoNames();
    for i := 0 to |files|
      invariant keys == KeysOf(files[..i])
      invariant inDegree.Keys == graph.Keys == Names(files[..i])
      invariant forall n :: n in graph ==> inDegree[n] == 0 && graph[n] == []
    {
      var n := files[i].Name();
      NamesAppend(files, i);
      OneMoreKey(files, i);
      assert n in inDegree <==> n in Elements(keys);
      if n !in inDegree {
        keys := keys + [n];
      }
      inDegree := inDegree[n := 0];
      graph := graph[n := []];
    }
    assert files[..|files|] == files;
  }

  /** The maps of in-degrees and adjacency lists, and the keys in insertion order. */
  method BuildGraph(files: seq<FileDependencyInfo>)
    returns (keys: seq<string>, inDegree: Degrees, graph: map<string, seq<string>>)
    requires InModuleFiles(files, Names(files))
    ensures keys == KeysOf(files)
    ensures DegreesAre(Names(files), EdgesOf(files), {}, inDegree)
    ensures graph.Keys == Names(files) && forall n :: n in Names(files) ==> graph[n] == Dependents(EdgesOf(files), n)
  {
    hide KeysOf, InModuleFiles;
    keys, inDegree, graph := EmptyGraph(files);
    ghost var names, edges := Names(files), [];
    NoEdges(names, inDegree, graph);
    for i := 0 to |files|
      invariant edges == EdgesOf(files[..i])
      invariant DegreesAre(names, edges, {}, inDegree)
      invariant graph.Keys == names && forall n :: n in names ==> graph[n] == Dependents(edges, n)
    {
      hide Names, FileDependencyInfo.Name, DegreesAre, Dependents, EdgesOf, FileEdges;
      FileStaysInModule(files, names, files[i]);
      EdgesAppend(files, i);
      inDegree, graph := AddEdges(files[i], inDegree, graph, names, edges);
      edges := edges + FileEdges(files[i].Name(), files[i].dependencies);
    }
    assert files[..|files|] == files;
  }

  lemma NoEdges(names: set<string>, inDegree: Degrees, graph: map<string, seq<string>>)
    requires inDegree.Keys == graph.Keys == names
    requires forall n :: n in graph ==> inDegree[n] == 0 && graph[n] == []
    ensures DegreesAre(names, [], {}, inDegree)
    ensures forall n :: n in names ==> graph[n] == Dependents([], n)
  {
  }

  lemma FileStaysInModule(files: seq<FileDependencyInfo>, names: set<string>, f: FileDependencyInfo)
    requires f in files && InModuleFiles(files, names) && Names(files) <= names
    ensures f.Name() in names && forall d :: d in f.dependencies ==> d in names
  {
  }

  lemma EdgesAppend(files: seq<FileDependencyInfo>, i: nat)
    requires i < |files|
    ensures EdgesOf(files[..i + 1]) == EdgesOf(files[..i]) + FileEdges(files[i].Name(), files[i].dependencies)
  {
    assert files[..i + 1][..i] == files[..i];
  }

  lemma OneMoreEdge(edges: seq<Need>, d: string, n: string, m: string)
    ensures Dependents(edges + [Need(d, n)], m) == Dependents(edges, m) + (if m == d then [n] else [])
    ensures OpenNeeds(edges + [Need(d, n)], {}, m) == OpenNeeds(edges, {}, m) + (if m == n then 1 else 0)
  {
    assert (edges + [Need(d, n)])[..|edges|] == edges;
  }

  method AddEdges(file: FileDependencyInfo, degrees: Degrees, lists: map<string, seq<string>>, ghost names: set<string>,
                  ghost edges: seq<Need>) returns (inDegree: Degrees, graph: map<string, seq<string>>)
    requires file.Name() in names && forall d :: d in file.dependencies ==> d in names
    requires DegreesAre(names, edges, {}, degrees)
    requires lists.Keys == names && forall n :: n in names ==> lists[n] == Dependents(edges, n)
    ensures DegreesAre(names, edges + FileEdges(file.Name(), file.dependencies), {}, inDegree)
    ensures graph.Keys == names
    ensures forall n :: n in names ==> graph[n] == Dependents(edges + FileEdges(file.Name(), file.dependencies), n)
  {
    hide Dependents, OpenNeeds;
    inDegree, graph := degrees, lists;
    var n := file.Name();
    ghost var all := FileEdges(n, file.dependencies);
    assert edges + all[..0] == edges;
    for j := 0 to |file.dependencies|
      invariant DegreesAre(names, edges + all[..j], {}, inDegree)
      invariant graph.Keys == names && forall m :: m in names ==> graph[m] == Dependents(edges + all[..j], m)
    {
      var dep := file.dependencies[j];
      assert edges + all[..j + 1] == edges + all[..j] + [Need(dep, n)];
      forall m
        ensures Dependents(edges + all[..j + 1], m) == Dependents(edges + all[..j], m) + (if m == dep then [n] else [])
        ensures OpenNeeds(edges + all[..j + 1], {}, m) == OpenNeeds(edges + all[..j], {}, m) + (if m == n then 1 else 0)
      {
        OneMoreEdge(edges + all[..j], dep, n, m);
      }
      if dep in graph {
        graph := graph[dep := graph[dep] + [n]];
        inDegree := inDegree[n := inDegree[n] + 1];
      }
    }
    assert all[..|all|] == all;
  }

  /** The files without dependencies, sorted by complexity. */
  method ReadyAtFirst(keys: seq<string>, inDegree: Degrees, ranks: Ranks,
                      ghost edges: seq<Need>) returns (queue: seq<string>)
    requires Distinct(keys) && DegreesAre(Elements(keys), edges, {}, inDegree)
    ensures QueueIsReady(ranks, Elements(keys), edges, [], queue) && InTurn(ranks, keys, edges, [], queue)
  {
    queue := [];
    for i := 0 to |keys|
      invariant Distinct(queue) && ListedInOrder(keys, queue)
      invariant forall n :: n in queue <==> n in keys[..i] && inDegree[n] == 0
    {
      assert keys[..i + 1] == keys[..i] + [keys[i]];
      assert keys[i] in Elements(keys) && keys[i] !in keys[..i];
      if inDegree[keys[i]] == 0 {
        ListedNext(keys, queue, i);
        queue := queue + [keys[i]];
      }
    }
    SortByRankSorts(ranks, queue);
    assert keys[..|keys|] == keys;
    forall n
      ensures n in queue <==> ReadyAfter(Elements(keys), edges, [], n)
    {
      ReadyIsClosed(Elements(keys), edges, [], n);
      assert Elements([]) == {};
    }
    StartsInTurn(ranks, keys, edges, queue);
    queue := SortByRank(ranks, queue);
  }

  lemma ListedNext(keys: seq<string>, queue: seq<string>, i: nat)
    requires i < |keys| && Distinct(keys) && ListedInOrder(keys, queue) && forall n :: n in queue ==> n in keys[..i]
    ensures ListedInOrder(keys, queue + [keys[i]])
  {
    forall a | 0 <= a < |queue|
      ensures ListedFirst(keys, queue[a], keys[i])
    {
      assert queue[a] in queue;
      var j :| 0 <= j < i && keys[..i][j] == queue[a];
      assert keys[j] == queue[a] && keys[i] !in keys[..j];
    }
  }

  lemma NothingMissing(emitted: seq<string>)
    ensures Missing([], emitted) == []
  {
  }

  /** The next file is appended if it is not there yet. */
  lemma RestStep(files: seq<FileDependencyInfo>, i: nat, emitted: seq<string>)
    requires i < |files|
    ensures var sorted, n := emitted + Missing(KeysOf(files[..i]), emitted), files[i].Name();
      emitted + Missing(KeysOf(files[..i + 1]), emitted) == if n in sorted then sorted else sorted + [n]
  {
    var keys, n := KeysOf(files[..i]), files[i].Name();
    OneMoreKey(files, i);
    MissingOneMore(keys, emitted, n);
    hide KeysOf, Missing, FileDependencyInfo.Name;
    assert n in emitted + Missing(keys, emitted) <==> n in emitted || n in keys;
  }

  /** Appends the files that were not emitted, in list order. */
  method AppendRest(files: seq<FileDependencyInfo>, emitted: seq<string>) returns (sorted: seq<string>)
    ensures sorted == emitted + Missing(KeysOf(files), emitted)
  {
    hide KeysOf, Missing, FileDependencyInfo.Name;
    sorted := emitted;
    NothingMissing(emitted);
    assert files[..0] == [];
    NoNames();
    for i := 0 to |files|
      invariant sorted == emitted + Missing(KeysOf(files[..i]), emitted)
    {
      var n := files[i].Name();
      RestStep(files, i, emitted);
      if n !in sorted {
        sorted := sorted + [n];
      }
    }
    assert files[..|files|] == files;
  }

  method MapFiles(files: seq<FileDependencyInfo>) returns (fileMap: map<string, FileDependencyInfo>, ranks: Ranks,
                                                           names: set<string>)
    ensures names == fileMap.Keys == Names(files) && ranks.Keys == names
    ensures forall n :: n in fileMap ==> IsLastNamed(files, n, fileMap[n]) && ranks[n] == fileMap[n].complexity
  {
    fileMap, ranks, names := map[], map[], {};
    for i := 0 to |files|
      invariant names == fileMap.Keys == Names(files[..i]) && ranks.Keys == names
      invariant forall n :: n in fileMap ==> IsLastNamed(files[..i], n, fileMap[n]) && ranks[n] == fileMap[n].complexity
    {
      var n := files[i].Name();
      assert Names(files[..i + 1]) == Names(files[..i]) + {n} by {
        assert files[..i + 1] == files[..i] + [files[i]];
      }
      ghost var before := fileMap;
      fileMap := fileMap[n := files[i]];
      ranks := ranks[n := files[i].complexity];
      names := names + {n};
      forall m | m in fileMap
        ensures IsLastNamed(files[..i + 1], m, fileMap[m])
      {
        if m == n {
          assert files[..i + 1][i] == files[i];
        } else {
          LastNamedStays(files, i, m, before[m]);
        }
      }
    }
    assert files[..|files|] == files;
  }

  lemma LastNamedStays(files: seq<FileDependencyInfo>, i: nat, m: string, f: FileDependencyInfo)
    requires i < |files| && IsLastNamed(files[..i], m, f) && files[i].Name() != m
    ensures IsLastNamed(files[..i + 1], m, f)
  {
    var k :| 0 <= k < i && files[..i][k] == f && f.Name() == m && forall j :: k < j < i ==> files[..i][j].Name() != m;
    assert files[..i + 1][k] == f;
    assert forall j :: k < j < i ==> files[..i + 1][j] == files[..i][j];
  }

  // --------------------------------------------------------------- the whole

  /** What a porting order promises: the first `kahn` files come after everything they
      need, simplest ready one first and of those the one that was ready first; the rest
      are exactly the files that reach a dependency cycle, in the order of the list; every
      file name of the module appears once. */
  ghost predicate IsPortingOrder(ranks: Ranks, keys: seq<string>, edges: seq<Need>, order: seq<string>, kahn: nat) {
    && kahn <= |order|
    && Distinct(order) && Elements(order) == Elements(keys)
    && KahnPrefix(ranks, Elements(keys), edges, order[..kahn])
    && FirstComeAll(ranks, Elements(keys), keys, edges, order[..kahn])
    && order[kahn..] == Missing(keys, order[..kahn])
    && (forall n :: n in keys ==> (n in order[kahn..] <==> ReachesCycle(NeedGraph(Elements(keys), edges), n)))
  }

  lemma {:induction false} MissingIsDistinct(keys: seq<string>, emitted: seq<string>)
    requires Distinct(keys)
    ensures Distinct(Missing(keys, emitted))
    ensures forall n :: n in Missing(keys, emitted) <==> n in keys && n !in emitted
  {
    MissingOneMore(keys, emitted, "");
    if keys != [] {
      var init, last := keys[..|keys| - 1], keys[|keys| - 1];
      MissingIsDistinct(init, emitted);
      assert last !in init;
      assert last !in Missing(init, emitted);
    }
  }

  /** The emitted files with the others behind them are all files, once each. */
  lemma AllOnce(keys: seq<string>, emitted: seq<string>, order: seq<string>)
    requires Distinct(keys) && Distinct(emitted) && Elements(emitted) <= Elements(keys)
    requires order == emitted + Missing(keys, emitted)
    ensures Distinct(order) && Elements(order) == Elements(keys)
  {
    MissingIsDistinct(keys, emitted);
    hide Missing;
    forall j, k | 0 <= j < k < |order|
      ensures order[j] != order[k]
    {
      if j < |emitted| <= k {
        assert order[k] in Missing(keys, emitted);
      }
    }
    hide Distinct;
    forall n
      ensures n in order <==> n in keys
    {
      assert n in emitted ==> n in Elements(keys);
    }
  }

  lemma EmittedAndRest(ranks: Ranks, keys: seq<string>, edges: seq<Need>, emitted: seq<string>, order: seq<string>)
    requires var names := Elements(keys);
      && InModule(names, edges) && KahnPrefix(ranks, names, edges, emitted)
      && FirstComeAll(ranks, names, keys, edges, emitted)
      && (forall n :: !ReadyAfter(names, edges, emitted, n))
    requires Distinct(keys) && order == emitted + Missing(keys, emitted)
    ensures IsPortingOrder(ranks, keys, edges, order, |emitted|)
  {
    var names := Elements(keys);
    PrefixIsDistinct(ranks, names, edges, emitted);
    AllOnce(keys, emitted, order);
    MissingIsDistinct(keys, emitted);
    hide InModule, KahnPrefix, ReadyAfter, ReachesCycle, NeedGraph, FirstComeAll, Missing;
    assert order[..|emitted|] == emitted && order[|emitted|..] == Missing(keys, emitted);
    forall n | n in keys
      ensures n in order[|emitted|..] <==> ReachesCycle(NeedGraph(names, edges), n)
    {
      if n in emitted {
        EmittedReachesNoCycle(ranks, names, edges, emitted, n);
      } else {
        StuckReachesCycle(names, edges, emitted, n);
      }
    }
  }

  /** The edges of the graph are the dependencies of the files. */
  lemma {:induction false} DependencyIsNeed(files: seq<FileDependencyInfo>, f: FileDependencyInfo, d: string)
    requires f in files && d in f.dependencies
    ensures Need(d, f.Name()) in EdgesOf(files)
  {
    var init, last := files[..|files| - 1], files[|files| - 1];
    if f == last {
      var j :| 0 <= j < |f.dependencies| && f.dependencies[j] == d;
      assert FileEdges(f.Name(), f.dependencies)[j] == Need(d, f.Name());
    } else {
      assert files == init + [last];
      DependencyIsNeed(init, f, d);
    }
  }

  /** A file of the emitted part comes after all its dependencies. */
  ghost predicate DependenciesFirst(files: seq<FileDependencyInfo>, order: seq<string>, kahn: nat)
    reads set f | f in files
  {
    forall f, k :: f in files && 0 <= k < kahn <= |order| && order[k] == f.Name() ==>
      forall d :: d in f.dependencies ==> d in order[..k]
  }

  lemma DependenciesComeFirst(ranks: Ranks, files: seq<FileDependencyInfo>, order: seq<string>, kahn: nat)
    requires IsPortingOrder(ranks, KeysOf(files), EdgesOf(files), order, kahn)
    ensures DependenciesFirst(files, order, kahn)
  {
    hide EdgesOf, KeysOf, FirstComeAll, Missing, SimplestReady, Distinct;
    forall f, k | f in files && 0 <= k < kahn && order[k] == f.Name()
      ensures forall d :: d in f.dependencies ==> d in order[..k]
    {
      forall d | d in f.dependencies
        ensures d in order[..k]
      {
        DependencyIsNeed(files, f, d);
        assert NeedsBefore(EdgesOf(files), order[..kahn], k);
        assert order[..kahn][..k] == order[..k];
      }
    }
  }

  method DeterminePortingOrder(files: seq<FileDependencyInfo>)
    returns (ordered: seq<FileDependencyInfo>, ghost order: seq<string>, ghost kahn: nat, ghost ranks: Ranks)
    modifies set f | f in files
    ensures forall f :: f in files ==> f.dependencies == Keep(old(f.dependencies), Names(files))
    ensures IsPortingOrder(ranks, KeysOf(files), EdgesOf(files), order, kahn)
    ensures DependenciesFirst(files, order, kahn)
    ensures |ordered| == |order|
    ensures forall k :: 0 <= k < |order| ==> IsLastNamed(files, order[k], ordered[k])
    ensures forall k :: 0 <= k < |order| ==> order[k] in ranks && ranks[order[k]] == ordered[k].complexity
  {
    hide Keep, KahnPrefix, DegreesAre, QueueIsReady, InModule, Distinct, IsLastNamed, EdgesOf, KeysOf, Missing, InTurn,
      FirstComeAll;
    var fileMap, rankMap, fileNames := MapFiles(files);
    ranks := rankMap;
    FilterDependencies(files, fileNames);
    EdgesStayInModule(files, fileNames);
    var keys, inDegree, graph := BuildGraph(files);
    var queue := ReadyAtFirst(keys, inDegree, rankMap, EdgesOf(files));
    var emitted := EmitReady(rankMap, graph, inDegree, queue, fileNames, keys, EdgesOf(files));
    var sorted := AppendRest(files, emitted);
    EmittedAndRest(rankMap, keys, EdgesOf(files), emitted, sorted);
    order, kahn := sorted, |emitted|;
    DependenciesComeFirst(rankMap, files, sorted, |emitted|);
    ordered := PickFiles(sorted, fileMap);
  }

  lemma PrefixIsDistinct(ranks: Ranks, names: set<string>, edges: seq<Need>, emitted: seq<string>)
    requires KahnPrefix(ranks, names, edges, emitted)
    ensures Distinct(emitted) && Elements(emitted) <= names
  {
  }

  method PickFiles(sorted: seq<string>, fileMap: map<string,
                   FileDependencyInfo>) returns (ordered: seq<FileDependencyInfo>)
    requires Elements(sorted) == fileMap.Keys
    ensures |ordered| == |sorted|
    ensures forall k :: 0 <= k < |sorted| ==> sorted[k] in fileMap && ordered[k] == fileMap[sorted[k]]
  {
    ordered := [];
    for i := 0 to |sorted|
      invariant |ordered| == i
      invariant forall k :: 0 <= k < i ==> sorted[k] in fileMap && ordered[k] == fileMap[sorted[k]]
    {
      assert sorted[i] in Elements(sorted);
      ordered := ordered + [fileMap[sorted[i]]];
    }
  }

  ghost predicate DistinctNames(files: seq<FileDependencyInfo>) {
    forall j, k :: 0 <= j < k < |files| ==> files[j].Name() != files[k].Name()
  }

  /** When the base names differ the result is a permutation of the files. */
  lemma {:induction false} OrderIsPermutation(files: seq<FileDependencyInfo>, order: seq<string>,
                                              ordered: seq<FileDependencyInfo>)
    requires DistinctNames(files) && Distinct(order) && Elements(order) == Names(files)
    requires |ordered| == |order| && forall k :: 0 <= k < |order| ==> IsLastNamed(files, order[k], ordered[k])
    ensures multiset(ordered) == multiset(files)
  {
    forall f: FileDependencyInfo
      ensures multiset(ordered)[f] == multiset(files)[f]
    {
      DistinctHasOne(files, f);
      assert forall j, k :: 0 <= j < k < |ordered| ==> ordered[j].Name() != ordered[k].Name();
      DistinctHasOne(ordered, f);
      if f in files {
        assert f.Name() in Elements(order);
        var k :| 0 <= k < |order| && order[k] == f.Name();
        assert ordered[k] == f;
      }
    }
  }

  lemma {:induction false} DistinctHasOne(files: seq<FileDependencyInfo>, f: FileDependencyInfo)
    requires DistinctNames(files)
    ensures multiset(files)[f] == if f in files then 1 else 0
  {
    if files != [] {
      var init := files[..|files| - 1];
      assert files == init + [files[|files| - 1]];
      DistinctHasOne(init, f);
    }
  }

  /** With no cycle among the needs, everything is emitted after what it needs. */
  lemma AcyclicIsComplete(ranks: Ranks, keys: seq<string>, edges: seq<Need>, order: seq<string>, kahn: nat)
    requires IsPortingOrder(ranks, keys, edges, order, kahn) && Acyclic(NeedGraph(Elements(keys), edges))
    ensures kahn == |order|
    ensures forall k :: 0 <= k < |order| ==> NeedsBefore(edges, order, k)
  {
    if kahn < |order| {
      assert order[kahn] in order[kahn..];
      assert order[kahn] in Elements(order);
      AcyclicReachesNoCycle(NeedGraph(Elements(keys), edges), order[kahn]);
    }
    assert order[..|order|] == order;
  }
}
