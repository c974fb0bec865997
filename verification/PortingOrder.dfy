/**
 The porting order of a module's files: a topological sort with a ready queue
 ordered by complexity, and a fallback for files on or behind a dependency cycle.
 */
module PortingOrder {
  import opened FiniteGraph

  datatype Complexity = Low | Medium | High | Unknown {
    function Rank(): nat {
      match this
      case Low => 0
      case Medium => 1
      case High => 2
      case Unknown => 3
    }

    /** Low before Medium before High before Unknown. */
    predicate SimplerThan(other: Complexity) {
      match this
      case Low => !other.Low?
      case Medium => other.High? || other.Unknown?
      case High => other.Unknown?
      case Unknown => false
    }
  }

  lemma SimplerRanksLower(a: Complexity, b: Complexity)
    ensures a.SimplerThan(b) <==> a.Rank() < b.Rank()
  {
  }

  /** A dependency edge: `dependent` needs `dependency`. */
  datatype Need = Need(dependency: string, dependent: string)

  // ---------------------------------------------------- edges as sequences

  function Occurrences(s: seq<string>, n: string): nat {
    if s == [] then 0 else (if s[0] == n then 1 else 0) + Occurrences(s[1..], n)
  }

  /** The dependents of `d`, once per edge, in order: the adjacency list of `d`. */
  function Dependents(edges: seq<Need>, d: string): seq<string> {
    if edges == [] then []
    else
      var last := edges[|edges| - 1];
      Dependents(edges[..|edges| - 1], d) + (if last.dependency == d then [last.dependent] else [])
  }

  /** How many edges into `n` come from files that are not done. */
  function OpenNeeds(edges: seq<Need>, done: set<string>, n: string): nat {
    if edges == [] then 0
    else
      var last := edges[|edges| - 1];
      OpenNeeds(edges[..|edges| - 1], done, n) + (if last.dependent == n && last.dependency !in done then 1 else 0)
  }

  lemma {:induction false} OccurrencesAppend(s: seq<string>, x: string, n: string)
    ensures Occurrences(s + [x], n) == Occurrences(s, n) + (if x == n then 1 else 0)
  {
    if s == [] {
      assert s + [x] == [x] && [x][1..] == [];
    } else {
      assert (s + [x])[1..] == s[1..] + [x];
      OccurrencesAppend(s[1..], x, n);
    }
  }

  lemma {:induction false} OccurrencesPrefix(s: seq<string>, j: nat, n: string)
    requires j < |s|
    ensures Occurrences(s[..j + 1], n) == Occurrences(s[..j], n) + (if s[j] == n then 1 else 0)
    ensures Occurrences(s[..j + 1], n) <= Occurrences(s, n)
    decreases |s| - j
  {
    assert s[..j + 1] == s[..j] + [s[j]];
    OccurrencesAppend(s[..j], s[j], n);
    if j + 1 < |s| {
      OccurrencesPrefix(s, j + 1, n);
    } else {
      assert s[..j + 1] == s;
    }
  }

  /** Finishing `d` closes exactly the needs that its adjacency list names. */
  lemma {:induction false} FinishingClosesNeeds(edges: seq<Need>, done: set<string>, d: string, n: string)
    requires d !in done
    ensures OpenNeeds(edges, done + {d}, n) + Occurrences(Dependents(edges, d), n) == OpenNeeds(edges, done, n)
  {
    if edges != [] {
      var init, last := edges[..|edges| - 1], edges[|edges| - 1];
      FinishingClosesNeeds(init, done, d, n);
      if last.dependency == d {
        OccurrencesAppend(Dependents(init, d), last.dependent, n);
      } else {
        assert Dependents(init, d) + [] == Dependents(init, d);
      }
    }
  }

  lemma {:induction false} NoOpenNeeds(edges: seq<Need>, done: set<string>, n: string)
    ensures OpenNeeds(edges, done, n) == 0
       <==> forall k :: 0 <= k < |edges| && edges[k].dependent == n ==> edges[k].dependency in done
  {
    if edges != [] {
      var init := edges[..|edges| - 1];
      NoOpenNeeds(init, done, n);
      assert forall k :: 0 <= k < |init| ==> init[k] == edges[k];
    }
  }

  lemma {:induction false} DependentsAreNamed(edges: seq<Need>, d: string, n: string)
    ensures n in Dependents(edges, d) ==> exists k :: 0 <= k < |edges| && edges[k] == Need(d, n)
  {
    if edges != [] {
      var init := edges[..|edges| - 1];
      DependentsAreNamed(init, d, n);
      if n in Dependents(init, d) {
        var k :| 0 <= k < |init| && init[k] == Need(d, n);
        assert edges[k] == Need(d, n);
      }
    }
  }

  // ------------------------------------------------------ the ready queue

  type Ranks = map<string, Complexity>

  function ComplexityOf(ranks: Ranks, n: string): Complexity {
    if n in ranks then ranks[n] else Unknown
  }

  function RankOf(ranks: Ranks, n: string): nat {
    ComplexityOf(ranks, n).Rank()
  }

  ghost predicate SortedByRank(ranks: Ranks, q: seq<string>) {
    forall j, k :: 0 <= j < k < |q| ==> RankOf(ranks, q[j]) <= RankOf(ranks, q[k])
  }

  /** `x` goes behind everything of the same rank. */
  function InsertStable(ranks: Ranks, q: seq<string>, x: string): seq<string> {
    if q == [] || RankOf(ranks, q[|q| - 1]) <= RankOf(ranks, x) then q + [x]
    else InsertStable(ranks, q[..|q| - 1], x) + [q[|q| - 1]]
  }

  /** The stable sort by rank. */
  function SortByRank(ranks: Ranks, q: seq<string>): seq<string> {
    if q == [] then [] else InsertStable(ranks, SortByRank(ranks, q[..|q| - 1]), q[|q| - 1])
  }

  lemma {:induction false} InsertStableSorts(ranks: Ranks, q: seq<string>, x: string)
    requires SortedByRank(ranks, q)
    ensures SortedByRank(ranks, InsertStable(ranks, q, x))
    ensures forall n :: n in InsertStable(ranks, q, x) <==> n in q || n == x
    ensures |InsertStable(ranks, q, x)| == |q| + 1
  {
    if !(q == [] || RankOf(ranks, q[|q| - 1]) <= RankOf(ranks, x)) {
      var init, last := q[..|q| - 1], q[|q| - 1];
      InsertStableSorts(ranks, init, x);
      assert forall n :: n in q <==> n in init || n == last;
      forall k | 0 <= k < |InsertStable(ranks, init, x)|
        ensures RankOf(ranks, InsertStable(ranks, init, x)[k]) <= RankOf(ranks, last)
      {
        var n := InsertStable(ranks, init, x)[k];
        assert n in InsertStable(ranks, init, x);
        if n != x {
          var j :| 0 <= j < |init| && init[j] == n;
        }
      }
    }
  }

  ghost predicate Distinct(s: seq<string>) {
    forall j, k :: 0 <= j < k < |s| ==> s[j] != s[k]
  }

  lemma {:induction false} InsertStableDistinct(ranks: Ranks, q: seq<string>, x: string)
    requires SortedByRank(ranks, q) && Distinct(q) && x !in q
    ensures Distinct(InsertStable(ranks, q, x))
  {
    if !(q == [] || RankOf(ranks, q[|q| - 1]) <= RankOf(ranks, x)) {
      var init, last := q[..|q| - 1], q[|q| - 1];
      InsertStableDistinct(ranks, init, x);
      InsertStableSorts(ranks, init, x);
      assert last !in init;
      assert last !in InsertStable(ranks, init, x);
    }
  }

  lemma {:induction false} SortByRankSorts(ranks: Ranks, q: seq<string>)
    ensures SortedByRank(ranks, SortByRank(ranks, q))
    ensures forall n :: n in SortByRank(ranks, q) <==> n in q
    ensures Distinct(q) ==> Distinct(SortByRank(ranks, q))
  {
    if q != [] {
      var init, last := q[..|q| - 1], q[|q| - 1];
      SortByRankSorts(ranks, init);
      InsertStableSorts(ranks, SortByRank(ranks, init), last);
      assert forall n :: n in q <==> n in init || n == last;
      if Distinct(q) {
        assert last !in init;
        InsertStableDistinct(ranks, SortByRank(ranks, init), last);
      }
    }
  }

  /** The files of one complexity, in order. */
  function OfComplexity(ranks: Ranks, q: seq<string>, c: Complexity): seq<string> {
    if q == [] then []
    else
      var last := q[|q| - 1];
      OfComplexity(ranks, q[..|q| - 1], c) + (if ComplexityOf(ranks, last) == c then [last] else [])
  }

  lemma OneMoreOf(ranks: Ranks, q: seq<string>, x: string, c: Complexity)
    ensures OfComplexity(ranks, q + [x], c)
         == OfComplexity(ranks, q, c) + (if ComplexityOf(ranks, x) == c then [x] else [])
  {
    assert (q + [x])[..|q|] == q;
  }

  lemma {:induction false} InsertIsStable(ranks: Ranks, q: seq<string>, x: string, c: Complexity)
    ensures OfComplexity(ranks, InsertStable(ranks, q, x), c)
         == OfComplexity(ranks, q, c) + (if ComplexityOf(ranks, x) == c then [x] else [])
  {
    hide OfComplexity;
    if q == [] || RankOf(ranks, q[|q| - 1]) <= RankOf(ranks, x) {
      OneMoreOf(ranks, q, x, c);
    } else {
      var init, last := q[..|q| - 1], q[|q| - 1];
      assert q == init + [last];
      InsertIsStable(ranks, init, x, c);
      OneMoreOf(ranks, InsertStable(ranks, init, x), last, c);
      OneMoreOf(ranks, init, last, c);
    }
  }

  /** Files of the same complexity stay in the order in which they came: none is lost, and
      none overtakes another. */
  lemma {:induction false} SortIsStable(ranks: Ranks, q: seq<string>, c: Complexity)
    ensures OfComplexity(ranks, SortByRank(ranks, q), c) == OfComplexity(ranks, q, c)
  {
    hide OfComplexity, InsertStable;
    if q != [] {
      var init, last := q[..|q| - 1], q[|q| - 1];
      assert q == init + [last];
      SortIsStable(ranks, init, c);
      InsertIsStable(ranks, SortByRank(ranks, init), last, c);
      OneMoreOf(ranks, init, last, c);
    }
  }

  // ------------------------------------------------- what the order promises

  /** The files `n` needs before it, as a graph over the files of the module. */
  ghost function NeedGraph(names: set<string>, edges: seq<Need>): Graph<string> {
    map n | n in names :: set k | 0 <= k < |edges| && edges[k].dependent == n :: edges[k].dependency
  }

  /** Every dependency of the file at `k` stands before it. */
  ghost predicate NeedsBefore(edges: seq<Need>, order: seq<string>, k: nat)
    requires k < |order|
  {
    forall e :: 0 <= e < |edges| && edges[e].dependent == order[k] ==> edges[e].dependency in order[..k]
  }

  /** Not yet emitted, and everything it needs is. */
  ghost predicate ReadyAfter(names: set<string>, edges: seq<Need>, emitted: seq<string>, n: string) {
    && n in names && n !in emitted
    && forall e :: 0 <= e < |edges| && edges[e].dependent == n ==> edges[e].dependency in emitted
  }

  ghost predicate NoneSimpler(ranks: Ranks, names: set<string>, edges: seq<Need>, emitted: seq<string>, n: string) {
    forall m :: ReadyAfter(names, edges, emitted, m) ==> !ComplexityOf(ranks, m).SimplerThan(ComplexityOf(ranks, n))
  }

  /** The file at `k` was ready, and no simpler one was. */
  ghost predicate SimplestReady(ranks: Ranks, names: set<string>, edges: seq<Need>, order: seq<string>, k: nat)
    requires k < |order|
  {
    ReadyAfter(names, edges, order[..k], order[k]) && NoneSimpler(ranks, names, edges, order[..k], order[k])
  }

  ghost predicate InModule(names: set<string>, edges: seq<Need>) {
    forall k :: 0 <= k < |edges| ==> edges[k].dependency in names && edges[k].dependent in names
  }

  ghost function Elements(s: seq<string>): set<string> {
    set n | n in s
  }

  /** A prefix that lists files after what they need, the simplest ready one first. */
  ghost predicate KahnPrefix(ranks: Ranks, names: set<string>, edges: seq<Need>, order: seq<string>) {
    && Distinct(order)
    && Elements(order) <= names
    && (forall k :: 0 <= k < |order| ==> NeedsBefore(edges, order, k))
    && (forall k :: 0 <= k < |order| ==> SimplestReady(ranks, names, edges, order, k))
  }

  lemma KahnPrefixExtends(ranks: Ranks, names: set<string>, edges: seq<Need>, order: seq<string>, n: string)
    requires KahnPrefix(ranks, names, edges, order)
    requires ReadyAfter(names, edges, order, n)
    requires NoneSimpler(ranks, names, edges, order, n)
    ensures KahnPrefix(ranks, names, edges, order + [n])
  {
    var next := order + [n];
    forall k | 0 <= k < |next|
      ensures NeedsBefore(edges, next, k) && SimplestReady(ranks, names, edges, next, k)
    {
      if k < |order| {
        assert next[..k] == order[..k];
        assert NeedsBefore(edges, order, k) && SimplestReady(ranks, names, edges, order, k);
      } else {
        assert next[..k] == order;
      }
    }
  }

  /** A file that was emitted cannot reach a dependency cycle. */
  lemma EmittedReachesNoCycle(ranks: Ranks, names: set<string>, edges: seq<Need>, order: seq<string>, n: string)
    requires KahnPrefix(ranks, names, edges, order) && n in order
    ensures !ReachesCycle(NeedGraph(names, edges), n)
  {
    var g := NeedGraph(names, edges);
    var index: map<string, nat> := map m | m in order :: IndexOf(order, m);
    forall x, y | x in index && Edge(g, x, y)
      ensures y in index && index[y] < index[x]
    {
      var k := IndexOf(order, x);
      assert NeedsBefore(edges, order, k);
      assert y in order[..k];
      var j :| 0 <= j < k && order[..k][j] == y;
      assert order[j] == y;
      assert index[y] == j;
    }
    DescendingReachesNoCycle(g, index, n);
  }

  ghost function IndexOf(s: seq<string>, n: string): (k: nat)
    requires n in s
    ensures k < |s| && s[k] == n
  {
    var k :| 0 <= k < |s| && s[k] == n;
    k
  }

  /** When nothing more is ready, every file left over reaches a cycle. */
  lemma StuckReachesCycle(names: set<string>, edges: seq<Need>, order: seq<string>, n: string)
    requires InModule(names, edges)
    requires forall m :: !ReadyAfter(names, edges, order, m)
    requires n in names && n !in order
    ensures ReachesCycle(NeedGraph(names, edges), n)
  {
    var g := NeedGraph(names, edges);
    var rest := set m | m in names && m !in order;
    forall x | x in rest
      ensures HasNext(g, rest, x)
    {
      assert !ReadyAfter(names, edges, order, x);
      var e :| 0 <= e < |edges| && edges[e].dependent == x && edges[e].dependency !in order;
      assert Edge(g, x, edges[e].dependency);
    }
    PointingBackReachesCycle(g, rest, n);
  }

  // ----------------------------------------------------------- the algorithm

  type Degrees = map<string, nat>

  ghost predicate DegreesAre(names: set<string>, edges: seq<Need>, done: set<string>, inDegree: Degrees) {
    inDegree.Keys == names && forall n :: n in names ==> inDegree[n] == OpenNeeds(edges, done, n)
  }

  /** The queue holds exactly the ready files, simplest first. */
  ghost predicate QueueIsReady(ranks: Ranks, names: set<string>, edges: seq<Need>, emitted: seq<string>,
                               queue: seq<string>) {
    && SortedByRank(ranks, queue)
    && Distinct(queue)
    && forall n :: n in queue <==> ReadyAfter(names, edges, emitted, n)
  }

  lemma ReadyIsClosed(names: set<string>, edges: seq<Need>, emitted: seq<string>, n: string)
    ensures ReadyAfter(names, edges, emitted, n) <==>
            n in names && n !in emitted && OpenNeeds(edges, Elements(emitted), n) == 0
  {
    NoOpenNeeds(edges, Elements(emitted), n);
  }

  lemma EmittedIsClosed(ranks: Ranks, names: set<string>, edges: seq<Need>, emitted: seq<string>, n: string)
    requires KahnPrefix(ranks, names, edges, emitted) && n in emitted
    ensures OpenNeeds(edges, Elements(emitted), n) == 0
  {
    var k := IndexOf(emitted, n);
    assert NeedsBefore(edges, emitted, k);
    NoOpenNeeds(edges, Elements(emitted), n);
  }

  /** State of the inner loop after `j` dependents of the file just emitted. */
  ghost predicate Finishing(ranks: Ranks, names: set<string>, edges: seq<Need>, emitted: seq<string>, current: string,
                            j: nat, inDegree: Degrees, queue: seq<string>) {
    var dependents := Dependents(edges, current);
    && j <= |dependents|
    && inDegree.Keys == names
    && (forall n ::
        n in names ==> inDegree[n] + Occurrences(dependents[..j], n) == OpenNeeds(edges, Elements(emitted), n))
    && SortedByRank(ranks, queue)
    && Distinct(queue)
    && (forall n :: n in queue <==> n in names && n !in emitted && n != current && inDegree[n] == 0)
  }

  lemma FinishingStarts(ranks: Ranks, names: set<string>, edges: seq<Need>, emitted: seq<string>, queue: seq<string>,
                        inDegree: Degrees)
    requires QueueIsReady(ranks, names, edges, emitted, queue) && queue != []
    requires DegreesAre(names, edges, Elements(emitted), inDegree)
    ensures Finishing(ranks, names, edges, emitted, queue[0], 0, inDegree, queue[1..])
  {
    forall n
      ensures n in queue[1..] <==> n in names && n !in emitted && n != queue[0] && inDegree[n] == 0
    {
      ReadyIsClosed(names, edges, emitted, n);
      assert n in queue <==> n in queue[1..] || n == queue[0];
    }
  }

  lemma FinishingEnds(ranks: Ranks, names: set<string>, edges: seq<Need>, emitted: seq<string>, current: string,
                      inDegree: Degrees, queue: seq<string>)
    requires Finishing(ranks, names, edges, emitted, current, |Dependents(edges, current)|, inDegree, queue)
    requires current !in emitted
    ensures DegreesAre(names, edges, Elements(emitted + [current]), inDegree)
    ensures QueueIsReady(ranks, names, edges, emitted + [current], queue)
  {
    var dependents := Dependents(edges, current);
    assert dependents[..|dependents|] == dependents;
    assert Elements(emitted + [current]) == Elements(emitted) + {current};
    forall n | n in names
      ensures inDegree[n] == OpenNeeds(edges, Elements(emitted + [current]), n)
    {
      FinishingClosesNeeds(edges, Elements(emitted), current, n);
    }
    forall n
      ensures n in queue <==> ReadyAfter(names, edges, emitted + [current], n)
    {
      ReadyIsClosed(names, edges, emitted + [current], n);
    }
  }

  /** The next dependent is still waiting, so its degree is positive and it is not queued. */
  lemma NextDependentWaits(ranks: Ranks, names: set<string>, edges: seq<Need>, emitted: seq<string>, current: string,
                           j: nat, inDegree: Degrees, queue: seq<string>)
    requires InModule(names, edges) && KahnPrefix(ranks, names, edges, emitted)
    requires ReadyAfter(names, edges, emitted, current)
    requires Finishing(ranks, names, edges, emitted, current, j, inDegree, queue) && j < |Dependents(edges, current)|
    ensures
      var d := Dependents(edges, current)[j];
      d in names && inDegree[d] > 0 && d !in emitted && d != current && d !in queue
  {
    var dependents := Dependents(edges, current);
    var d := dependents[j];
    DependentsAreNamed(edges, current, d);
    OccurrencesPrefix(dependents, j, d);
    FinishingClosesNeeds(edges, Elements(emitted), current, d);
    ReadyIsClosed(names, edges, emitted, current);
    if d in emitted {
      EmittedIsClosed(ranks, names, edges, emitted, d);
    }
  }

  /** One dependent: its degree drops, and at zero it joins the queue. */
  lemma FinishingStep(ranks: Ranks, names: set<string>, edges: seq<Need>, emitted: seq<string>, current: string,
                      j: nat, inDegree: Degrees, queue: seq<string>)
    requires InModule(names, edges) && KahnPrefix(ranks, names, edges, emitted)
    requires ReadyAfter(names, edges, emitted, current)
    requires Finishing(ranks, names, edges, emitted, current, j, inDegree, queue) && j < |Dependents(edges, current)|
    ensures
      var d := Dependents(edges, current)[j];
      && d in inDegree && inDegree[d] > 0
      && var left := inDegree[d] - 1;
      Finishing(ranks, names, edges, emitted, current, j + 1, inDegree[d := left],
                if left == 0 then SortByRank(ranks, queue + [d]) else queue)
  {
    NextDependentWaits(ranks, names, edges, emitted, current, j, inDegree, queue);
    var dependents := Dependents(edges, current);
    var d := dependents[j];
    forall n | n in names
      ensures Occurrences(dependents[..j + 1], n) == Occurrences(dependents[..j], n) + (if d == n then 1 else 0)
    {
      OccurrencesPrefix(dependents, j, n);
    }
    SortByRankSorts(ranks, queue + [d]);
    assert Distinct(queue + [d]);
    assert forall n :: n in queue + [d] <==> n in queue || n == d;
    hide KahnPrefix, ReadyAfter, Dependents, Occurrences, OpenNeeds, InModule, SortByRank, RankOf;
  }

  lemma HeadIsSimplest(ranks: Ranks, names: set<string>, edges: seq<Need>, emitted: seq<string>, queue: seq<string>)
    requires QueueIsReady(ranks, names, edges, emitted, queue) && queue != []
    ensures ReadyAfter(names, edges, emitted, queue[0]) && queue[0] in names && queue[0] !in emitted
    ensures NoneSimpler(ranks, names, edges, emitted, queue[0])
  {
    forall m | ReadyAfter(names, edges, emitted, m)
      ensures !ComplexityOf(ranks, m).SimplerThan(ComplexityOf(ranks, queue[0]))
    {
      var k := IndexOf(queue, m);
      SimplerRanksLower(ComplexityOf(ranks, m), ComplexityOf(ranks, queue[0]));
      hide Complexity.SimplerThan, Complexity.Rank;
      assert RankOf(ranks, queue[0]) <= RankOf(ranks, queue[k]);
    }
  }
}
