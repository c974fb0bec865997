/**
 First come, first served: of the ready files of one complexity, the porting order emits
 the one that became ready first. Together with the complexities that leaves no choice.
 */
module PortingArrival {
  import opened PortingOrder

  // ----------------------------------------------------------- becoming ready

  /** Everything the file needs is done. */
  ghost predicate NeedsMet(edges: seq<Need>, done: seq<string>, n: string) {
    forall e :: 0 <= e < |edges| && edges[e].dependent == n ==> edges[e].dependency in done
  }

  /** `m` is listed, and not after `n`. */
  ghost predicate ListedFirst(list: seq<string>, m: string, n: string) {
    exists i :: 0 <= i < |list| && list[i] == m && n !in list[..i]
  }

  /** The last mention of `m` is before that of `n`. */
  ghost predicate MentionedFirst(list: seq<string>, m: string, n: string) {
    exists i :: 0 <= i < |list| && list[i] == n && m !in list[i..]
  }

  /** When the first `j` files were done `m` had become ready, and `n` had not, or only at
      the same time: then the order of the files decides, or of the mentions in the
      adjacency list of the file that was done last. */
  ghost predicate CameFirstAt(keys: seq<string>, edges: seq<Need>, emitted: seq<string>, m: string, n: string, j: nat)
    requires j <= |emitted|
  {
    && NeedsMet(edges, emitted[..j], m)
    && (|| !NeedsMet(edges, emitted[..j], n)
        || (j == 0 && ListedFirst(keys, m, n))
        || (j > 0 && !NeedsMet(edges, emitted[..j - 1], m) && !NeedsMet(edges, emitted[..j - 1], n)
            && MentionedFirst(Dependents(edges, emitted[j - 1]), m, n)))
  }

  ghost predicate CameFirst(keys: seq<string>, edges: seq<Need>, emitted: seq<string>, m: string, n: string) {
    exists j :: 0 <= j <= |emitted| && CameFirstAt(keys, edges, emitted, m, n, j)
  }

  lemma CameFirstStays(keys: seq<string>, edges: seq<Need>, emitted: seq<string>, m: string, n: string, x: string)
    requires CameFirst(keys, edges, emitted, m, n)
    ensures CameFirst(keys, edges, emitted + [x], m, n)
  {
    hide NeedsMet, ListedFirst, MentionedFirst, Dependents;
    var j :| 0 <= j <= |emitted| && CameFirstAt(keys, edges, emitted, m, n, j);
    assert (emitted + [x])[..j] == emitted[..j];
    assert j > 0 ==> (emitted + [x])[..j - 1] == emitted[..j - 1] && (emitted + [x])[j - 1] == emitted[j - 1];
    assert CameFirstAt(keys, edges, emitted + [x], m, n, j);
  }

  // ------------------------------------------------------------- the queue

  /** Simpler, or as simple and there first. */
  ghost predicate GoesFirst(ranks: Ranks, keys: seq<string>, edges: seq<Need>, emitted: seq<string>, m: string,
                            n: string) {
    || RankOf(ranks, m) < RankOf(ranks, n)
    || (RankOf(ranks, m) == RankOf(ranks, n) && CameFirst(keys, edges, emitted, m, n))
  }

  ghost predicate InTurn(ranks: Ranks, keys: seq<string>, edges: seq<Need>, emitted: seq<string>, queue: seq<string>) {
    forall a, b :: 0 <= a < b < |queue| ==> GoesFirst(ranks, keys, edges, emitted, queue[a], queue[b])
  }

  lemma InTurnStays(ranks: Ranks, keys: seq<string>, edges: seq<Need>, emitted: seq<string>, queue: seq<string>,
                    x: string)
    requires InTurn(ranks, keys, edges, emitted, queue)
    ensures InTurn(ranks, keys, edges, emitted + [x], queue)
  {
    hide CameFirst, RankOf;
    forall a, b | 0 <= a < b < |queue|
      ensures GoesFirst(ranks, keys, edges, emitted + [x], queue[a], queue[b])
    {
      if CameFirst(keys, edges, emitted, queue[a], queue[b]) {
        CameFirstStays(keys, edges, emitted, queue[a], queue[b], x);
      }
    }
  }

  /** One that came after all others takes its turn behind those that are as simple. */
  lemma {:induction false} InsertInTurn(ranks: Ranks, keys: seq<string>, edges: seq<Need>, emitted: seq<string>,
                                        queue: seq<string>, x: string)
    requires InTurn(ranks, keys, edges, emitted, queue)
    requires forall n :: n in queue ==> CameFirst(keys, edges, emitted, n, x)
    ensures InTurn(ranks, keys, edges, emitted, InsertStable(ranks, queue, x))
    ensures forall n :: n in InsertStable(ranks, queue, x) <==> n in queue || n == x
  {
    hide CameFirst, RankOf;
    if !(queue == [] || RankOf(ranks, queue[|queue| - 1]) <= RankOf(ranks, x)) {
      var init, last := queue[..|queue| - 1], queue[|queue| - 1];
      assert forall n :: n in queue <==> n in init || n == last;
      InsertInTurn(ranks, keys, edges, emitted, init, x);
      var inserted := InsertStable(ranks, init, x);
      forall a | 0 <= a < |inserted|
        ensures GoesFirst(ranks, keys, edges, emitted, inserted[a], last)
      {
        assert inserted[a] in inserted;
        if inserted[a] != x {
          var i :| 0 <= i < |init| && init[i] == inserted[a];
          assert GoesFirst(ranks, keys, edges, emitted, queue[i], queue[|init|]);
        }
      }
    } else {
      LastInTurn(ranks, keys, edges, emitted, queue, x);
    }
  }

  lemma LastInTurn(ranks: Ranks, keys: seq<string>, edges: seq<Need>, emitted: seq<string>, queue: seq<string>,
                   x: string)
    requires InTurn(ranks, keys, edges, emitted, queue)
    requires forall n :: n in queue ==> CameFirst(keys, edges, emitted, n, x)
    requires queue == [] || RankOf(ranks, queue[|queue| - 1]) <= RankOf(ranks, x)
    ensures InTurn(ranks, keys, edges, emitted, queue + [x])
  {
    hide CameFirst, RankOf;
    forall a | 0 <= a < |queue|
      ensures GoesFirst(ranks, keys, edges, emitted, queue[a], x)
    {
      assert queue[a] in queue;
      assert a < |queue| - 1 ==> GoesFirst(ranks, keys, edges, emitted, queue[a], queue[|queue| - 1]);
    }
  }

  /** A queue that is sorted already stays as it is. */
  lemma {:induction false} SortedStays(ranks: Ranks, queue: seq<string>)
    requires SortedByRank(ranks, queue)
    ensures SortByRank(ranks, queue) == queue
  {
    if queue != [] {
      var init, last := queue[..|queue| - 1], queue[|queue| - 1];
      assert queue == init + [last];
      SortedStays(ranks, init);
    }
  }

  lemma SortingInserts(ranks: Ranks, queue: seq<string>, x: string)
    requires SortedByRank(ranks, queue)
    ensures SortByRank(ranks, queue + [x]) == InsertStable(ranks, queue, x)
  {
    SortedStays(ranks, queue);
    assert (queue + [x])[..|queue|] == queue;
  }

  // ------------------------------------------------------------- the start

  /** The first files are those without needs, in the order in which they are listed. */
  ghost predicate ListedInOrder(keys: seq<string>, queue: seq<string>) {
    forall a, b :: 0 <= a < b < |queue| ==> ListedFirst(keys, queue[a], queue[b])
  }

  lemma {:induction false} StartsInTurn(ranks: Ranks, keys: seq<string>, edges: seq<Need>, queue: seq<string>)
    requires ListedInOrder(keys, queue) && forall n :: n in queue ==> NeedsMet(edges, [], n)
    ensures InTurn(ranks, keys, edges, [], SortByRank(ranks, queue))
    ensures forall n :: n in SortByRank(ranks, queue) <==> n in queue
  {
    hide NeedsMet, ListedFirst, MentionedFirst, RankOf, GoesFirst;
    if queue != [] {
      var init, last := queue[..|queue| - 1], queue[|queue| - 1];
      assert forall n :: n in queue <==> n in init || n == last;
      StartsInTurn(ranks, keys, edges, init);
      forall n | n in SortByRank(ranks, init)
        ensures CameFirst(keys, edges, [], n, last)
      {
        var i :| 0 <= i < |init| && init[i] == n;
        assert queue[i] == n;
        var none: seq<string> := [];
        assert none[..0] == none;
        assert CameFirstAt(keys, edges, none, n, last, 0);
      }
      InsertInTurn(ranks, keys, edges, [], SortByRank(ranks, init), last);
    }
  }

  // ------------------------------------------------- finishing one file

  /** The file was ready before the current one was done, or its last mention in the
      adjacency list of that one is among the first `j`. */
  ghost predicate ArrivedBy(edges: seq<Need>, emitted: seq<string>, current: string, j: nat, n: string)
    requires j <= |Dependents(edges, current)|
  {
    || NeedsMet(edges, emitted, n)
    || (NeedsMet(edges, emitted + [current], n) && n !in Dependents(edges, current)[j..])
  }

  ghost predicate TakesTurns(ranks: Ranks, keys: seq<string>, edges: seq<Need>, emitted: seq<string>, current: string,
                             j: nat, queue: seq<string>) {
    && j <= |Dependents(edges, current)|
    && InTurn(ranks, keys, edges, emitted + [current], queue)
    && (forall n :: n in queue ==> ArrivedBy(edges, emitted, current, j, n))
  }

  lemma NextArrives(keys: seq<string>, edges: seq<Need>, emitted: seq<string>, current: string, j: nat, n: string)
    requires j < |Dependents(edges, current)| && ArrivedBy(edges, emitted, current, j, n)
    requires var d := Dependents(edges, current)[j];
      !NeedsMet(edges, emitted, d) && NeedsMet(edges, emitted + [current], d)
    ensures CameFirst(keys, edges, emitted + [current], n, Dependents(edges, current)[j])
  {
    var list := Dependents(edges, current);
    var d, all := list[j], emitted + [current];
    hide NeedsMet, Dependents, ListedFirst;
    assert all[..|emitted|] == emitted && all[..|emitted| + 1] == all && all[|emitted|] == current;
    if NeedsMet(edges, emitted, n) {
      assert CameFirstAt(keys, edges, all, n, d, |emitted|);
    } else {
      assert MentionedFirst(list, n, d);
      assert CameFirstAt(keys, edges, all, n, d, |emitted| + 1);
    }
  }

  lemma NotMoreMentions(edges: seq<Need>, emitted: seq<string>, current: string, j: nat, n: string)
    requires j < |Dependents(edges, current)| && ArrivedBy(edges, emitted, current, j, n)
    ensures ArrivedBy(edges, emitted, current, j + 1, n)
  {
    var list := Dependents(edges, current);
    hide NeedsMet, Dependents;
    assert forall m :: m in list[j + 1..] ==> m in list[j..];
  }

  /** The dependent at `j` is ready now: this is its last mention. */
  lemma TakesNextTurn(ranks: Ranks, keys: seq<string>, edges: seq<Need>, emitted: seq<string>, current: string, j: nat,
                      queue: seq<string>, arrives: bool)
    requires TakesTurns(ranks, keys, edges, emitted, current, j, queue) && j < |Dependents(edges, current)|
    requires SortedByRank(ranks, queue)
    requires var d := Dependents(edges, current)[j];
      arrives ==> !NeedsMet(edges, emitted, d) && NeedsMet(edges, emitted + [current], d)
                  && d !in Dependents(edges, current)[j + 1..]
    ensures var d := Dependents(edges, current)[j];
      TakesTurns(ranks, keys, edges, emitted, current, j + 1,
                 if arrives then SortByRank(ranks, queue + [d]) else queue)
  {
    var d := Dependents(edges, current)[j];
    hide NeedsMet, Dependents, InTurn, SortedByRank, SortByRank;
    forall n | n in queue
      ensures ArrivedBy(edges, emitted, current, j + 1, n)
      ensures arrives ==> CameFirst(keys, edges, emitted + [current], n, d)
    {
      NotMoreMentions(edges, emitted, current, j, n);
      if arrives {
        NextArrives(keys, edges, emitted, current, j, n);
      }
    }
    hide ArrivedBy, CameFirst;
    if arrives {
      assert ArrivedBy(edges, emitted, current, j + 1, d) by { LastMention(edges, emitted, current, j, d); }
      SortingInserts(ranks, queue, d);
      InsertInTurn(ranks, keys, edges, emitted + [current], queue, d);
    }
  }

  lemma LastMention(edges: seq<Need>, emitted: seq<string>, current: string, j: nat, d: string)
    requires j < |Dependents(edges, current)| && d !in Dependents(edges, current)[j + 1..]
    requires NeedsMet(edges, emitted + [current], d)
    ensures ArrivedBy(edges, emitted, current, j + 1, d)
  {
  }

  // --------------------------------------------------------- the promise

  /** Of the files as simple that were ready besides the one at `k`, none was there first. */
  ghost predicate FirstCome(ranks: Ranks, names: set<string>, keys: seq<string>, edges: seq<Need>, order: seq<string>,
                            k: nat)
    requires k < |order|
  {
    forall n | Rivals(ranks, names, edges, order[..k], order[k], n) :: CameFirst(keys, edges, order[..k], order[k], n)
  }

  /** Another file that is ready, and as simple. */
  ghost predicate Rivals(ranks: Ranks, names: set<string>, edges: seq<Need>, emitted: seq<string>, m: string,
                         n: string) {
    ReadyAfter(names, edges, emitted, n) && n != m && ComplexityOf(ranks, n) == ComplexityOf(ranks, m)
  }

  ghost predicate FirstComeAll(ranks: Ranks, names: set<string>, keys: seq<string>, edges: seq<Need>,
                               order: seq<string>)
  {
    forall k :: 0 <= k < |order| ==> FirstCome(ranks, names, keys, edges, order, k)
  }

  lemma HeadCameFirst(ranks: Ranks, names: set<string>, keys: seq<string>, edges: seq<Need>, emitted: seq<string>,
                      queue: seq<string>)
    requires QueueIsReady(ranks, names, edges, emitted, queue) && queue != []
    requires InTurn(ranks, keys, edges, emitted, queue) && FirstComeAll(ranks, names, keys, edges, emitted)
    ensures FirstComeAll(ranks, names, keys, edges, emitted + [queue[0]])
    ensures InTurn(ranks, keys, edges, emitted, queue[1..])
  {
    var next := emitted + [queue[0]];
    hide CameFirst, ReadyAfter, ComplexityOf;
    forall k | 0 <= k < |next|
      ensures FirstCome(ranks, names, keys, edges, next, k)
    {
      if k < |emitted| {
        assert next[..k] == emitted[..k];
        assert FirstCome(ranks, names, keys, edges, emitted, k);
      } else {
        assert next[..k] == emitted;
        forall n | Rivals(ranks, names, edges, emitted, queue[0], n)
          ensures CameFirst(keys, edges, emitted, queue[0], n)
        {
          assert n in queue;
          var b :| 0 <= b < |queue| && queue[b] == n;
          assert GoesFirst(ranks, keys, edges, emitted, queue[0], queue[b]);
        }
      }
    }
  }

  /** What is queued when a file is taken from the queue was ready before. */
  lemma TurnsStart(ranks: Ranks, names: set<string>, keys: seq<string>, edges: seq<Need>, emitted: seq<string>,
                   queue: seq<string>)
    requires QueueIsReady(ranks, names, edges, emitted, queue) && queue != []
    requires InTurn(ranks, keys, edges, emitted, queue[1..])
    ensures TakesTurns(ranks, keys, edges, emitted, queue[0], 0, queue[1..])
  {
    hide InTurn, Dependents;
    InTurnStays(ranks, keys, edges, emitted, queue[1..], queue[0]);
    forall n | n in queue[1..]
      ensures NeedsMet(edges, emitted, n)
    {
      assert n in queue;
    }
  }

  lemma {:induction false} OccurrencesSplit(list: seq<string>, k: nat, n: string)
    requires k <= |list|
    ensures Occurrences(list, n) == Occurrences(list[..k], n) + Occurrences(list[k..], n)
  {
    if k > 0 {
      assert list[1..][..k - 1] == list[..k][1..] && list[1..][k - 1..] == list[k..];
      OccurrencesSplit(list[1..], k - 1, n);
    } else {
      assert list[..0] == [] && list[0..] == list;
    }
  }

  lemma {:induction false} NoOccurrence(list: seq<string>, n: string)
    requires Occurrences(list, n) == 0
    ensures n !in list
  {
    if list != [] {
      NoOccurrence(list[1..], n);
    }
  }

  lemma NeedsMetIsClosed(edges: seq<Need>, done: seq<string>, n: string)
    ensures NeedsMet(edges, done, n) <==> OpenNeeds(edges, Elements(done), n) == 0
  {
    NoOpenNeeds(edges, Elements(done), n);
  }

  /** A degree that drops to zero has dropped at the last mention. */
  lemma LastNeedCloses(ranks: Ranks, names: set<string>, edges: seq<Need>, emitted: seq<string>, current: string,
                       j: nat, inDegree: Degrees, queue: seq<string>)
    requires Finishing(ranks, names, edges, emitted, current, j, inDegree, queue) && j < |Dependents(edges, current)|
    requires var d := Dependents(edges, current)[j];
      current !in emitted && d in names && inDegree[d] == 1
    ensures var d := Dependents(edges, current)[j];
      && !NeedsMet(edges, emitted, d) && NeedsMet(edges, emitted + [current], d)
      && d !in Dependents(edges, current)[j + 1..]
  {
    var list := Dependents(edges, current);
    var d := list[j];
    FinishingClosesNeeds(edges, Elements(emitted), current, d);
    assert Elements(emitted + [current]) == Elements(emitted) + {current};
    OccurrencesPrefix(list, j, d);
    OccurrencesSplit(list, j + 1, d);
    NeedsMetIsClosed(edges, emitted, d);
    NeedsMetIsClosed(edges, emitted + [current], d);
    hide NeedsMet, Dependents, OpenNeeds, SortedByRank, Occurrences;
    NoOccurrence(list[j + 1..], d);
  }

  lemma TurnsStep(ranks: Ranks, names: set<string>, keys: seq<string>, edges: seq<Need>, emitted: seq<string>,
                  current: string, j: nat, inDegree: Degrees, queue: seq<string>)
    requires Finishing(ranks, names, edges, emitted, current, j, inDegree, queue) && j < |Dependents(edges, current)|
    requires TakesTurns(ranks, keys, edges, emitted, current, j, queue) && current !in emitted
    ensures var d := Dependents(edges, current)[j];
      d in inDegree ==>
        TakesTurns(ranks, keys, edges, emitted, current, j + 1,
                   if inDegree[d] == 1 then SortByRank(ranks, queue + [d]) else queue)
  {
    var d := Dependents(edges, current)[j];
    if d in inDegree {
      if inDegree[d] == 1 {
        LastNeedCloses(ranks, names, edges, emitted, current, j, inDegree, queue);
      }
      TakesNextTurn(ranks, keys, edges, emitted, current, j, queue, inDegree[d] == 1);
    }
    hide *;
  }

  lemma TurnsEnd(ranks: Ranks, keys: seq<string>, edges: seq<Need>, emitted: seq<string>, current: string, j: nat,
                 queue: seq<string>)
    requires TakesTurns(ranks, keys, edges, emitted, current, j, queue)
    ensures InTurn(ranks, keys, edges, emitted + [current], queue)
  {
  }

  /** Kahn's algorithm proper: repeatedly emits the head of the queue and finishes it. */
  method EmitReady(ranks: Ranks, graph: map<string, seq<string>>, degrees: Degrees, ready: seq<string>,
                   ghost names: set<string>, ghost keys: seq<string>, ghost edges: seq<Need>)
    returns (sorted: seq<string>)
    requires InModule(names, edges) && graph.Keys == names
    requires forall n :: n in names ==> graph[n] == Dependents(edges, n)
    requires DegreesAre(names, edges, {}, degrees)
    requires QueueIsReady(ranks, names, edges, [], ready) && InTurn(ranks, keys, edges, [], ready)
    ensures KahnPrefix(ranks, names, edges, sorted) && FirstComeAll(ranks, names, keys, edges, sorted)
    ensures forall n :: !ReadyAfter(names, edges, sorted, n)
  {
    hide Dependents, OpenNeeds, SortByRank, ReadyAfter, Finishing, InModule, InTurn, TakesTurns, FirstCome;
    var inDegree, queue := degrees, ready;
    sorted := [];
    assert Elements([]) == {};
    while queue != []
      invariant KahnPrefix(ranks, names, edges, sorted)
      invariant DegreesAre(names, edges, Elements(sorted), inDegree)
      invariant QueueIsReady(ranks, names, edges, sorted, queue)
      invariant InTurn(ranks, keys, edges, sorted, queue) && FirstComeAll(ranks, names, keys, edges, sorted)
      decreases names - Elements(sorted)
    {
      var current := queue[0];
      FinishingStarts(ranks, names, edges, sorted, queue, inDegree);
      HeadIsSimplest(ranks, names, edges, sorted, queue);
      KahnPrefixExtends(ranks, names, edges, sorted, current);
      HeadCameFirst(ranks, names, keys, edges, sorted, queue);
      TurnsStart(ranks, names, keys, edges, sorted, queue);
      queue := queue[1..];
      ghost var before := sorted;
      sorted := sorted + [current];
      var dependents := graph[current];
      for j := 0 to |dependents|
        invariant Finishing(ranks, names, edges, before, current, j, inDegree, queue)
        invariant TakesTurns(ranks, keys, edges, before, current, j, queue)
      {
        TurnsStep(ranks, names, keys, edges, before, current, j, inDegree, queue);
        FinishingStep(ranks, names, edges, before, current, j, inDegree, queue);
        assert dependents[j] in inDegree && inDegree[dependents[j]] > 0;
        var dep := dependents[j];
        inDegree := inDegree[dep := inDegree[dep] - 1];
        if inDegree[dep] == 0 {
          queue := SortByRank(ranks, queue + [dep]);
        }
      }
      FinishingEnds(ranks, names, edges, before, current, inDegree, queue);
      TurnsEnd(ranks, keys, edges, before, current, |dependents|, queue);
      assert current in Elements(sorted) && Elements(before) <= Elements(sorted);
    }
  }
}
