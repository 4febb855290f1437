/** Searching the two-layer answer index: a merge of ranked pools by score, without repeated keys, cut at five. */
module AgentIndex {
  import S = Sequences

  const LIMIT := 5

  datatype Entry = Entry(key: string, score: real, answer: string)

  /** A pool as the store ranks it: best score first, each key once. */
  predicate Ranked(pool: seq<Entry>) {
    (forall i, j :: 0 <= i < j < |pool| ==> pool[i].score >= pool[j].score) &&
    (forall i, j :: 0 <= i < j < |pool| ==> pool[i].key != pool[j].key)
  }

  predicate AllRanked(pools: seq<seq<Entry>>) {
    forall i :: 0 <= i < |pools| ==> Ranked(pools[i])
  }

  /** What the store's search returns for a pool: its best five. */
  function Cut(pool: seq<Entry>): seq<Entry> {
    if |pool| <= LIMIT then pool else pool[..LIMIT]
  }

  function CutAll(pools: seq<seq<Entry>>): (r: seq<seq<Entry>>)
    ensures |r| == |pools| && forall i :: 0 <= i < |pools| ==> r[i] == Cut(pools[i])
  {
    seq(|pools|, i requires 0 <= i < |pools| => Cut(pools[i]))
  }

  // ---- The naive answer ----

  /** Insertion behind everything at least as good: a stable sort, best score first. */
  function InsertByScore(e: Entry, es: seq<Entry>): seq<Entry> {
    if es == [] || e.score >= es[0].score then [e] + es else [es[0]] + InsertByScore(e, es[1..])
  }

  function StableSort(es: seq<Entry>): seq<Entry> {
    if es == [] then [] else InsertByScore(es[0], StableSort(es[1..]))
  }

  /** All entries of all pools, the overlay pool first. */
  function Flatten(pools: seq<seq<Entry>>): seq<Entry> {
    if pools == [] then [] else pools[0] + Flatten(pools[1..])
  }

  /** The first n entries with keys not seen before. */
  function FirstNew(es: seq<Entry>, seen: set<string>, n: nat): seq<Entry> {
    if n == 0 || es == [] then []
    else if es[0].key in seen then FirstNew(es[1..], seen, n)
    else [es[0]] + FirstNew(es[1..], seen + {es[0].key}, n - 1)
  }

  /** Rank everything globally, ties to the earlier pool, drop repeated keys, keep five. */
  function GlobalTop(pools: seq<seq<Entry>>): seq<Entry> {
    FirstNew(StableSort(Flatten(pools)), {}, LIMIT)
  }

  // ---- The merge ----

  function Total(pools: seq<seq<Entry>>): nat {
    if pools == [] then 0 else |pools[0]| + Total(pools[1..])
  }

  /** The pool whose head is popped next: the first with the highest score; |pools| if all are empty. */
  function BestHead(pools: seq<seq<Entry>>): (b: nat)
    ensures b <= |pools| && (b < |pools| ==> pools[b] != [])
    ensures b == |pools| <==> forall i :: 0 <= i < |pools| ==> pools[i] == []
    ensures b < |pools| ==> forall i :: 0 <= i < |pools| && pools[i] != [] ==>
                              pools[i][0].score <= pools[b][0].score && (i < b ==> pools[i][0].score < pools[b][0].score)
  {
    if pools == [] then 0
    else
      var b := BestHead(pools[1..]) + 1;
      assert forall i :: 0 <= i < |pools[1..]| ==> pools[1..][i] == pools[i + 1];
      if pools[0] != [] && (b == |pools| || pools[0][0].score >= pools[b][0].score) then 0 else b
  }

  function Pop(pools: seq<seq<Entry>>, b: nat): seq<seq<Entry>>
    requires b < |pools| && pools[b] != []
  {
    pools[b := pools[b][1..]]
  }

  lemma {:induction false} PopTotal(pools: seq<seq<Entry>>, b: nat)
    requires b < |pools| && pools[b] != []
    ensures Total(Pop(pools, b)) == Total(pools) - 1
  {
    if b > 0 {
      PopTotal(pools[1..], b - 1);
      assert Pop(pools, b)[1..] == Pop(pools[1..], b - 1);
    } else {
      assert Pop(pools, b)[1..] == pools[1..];
    }
  }

  /** The search loop from a state: what is left of each pool, the keys seen, the room left. */
  function MergeFrom(pools: seq<seq<Entry>>, seen: set<string>, n: nat): seq<Entry>
    decreases Total(pools)
  {
    var b := BestHead(pools);
    if n == 0 || b == |pools| then []
    else
      PopTotal(pools, b);
      var e := pools[b][0];
      if e.key in seen then MergeFrom(Pop(pools, b), seen, n)
      else [e] + MergeFrom(Pop(pools, b), seen + {e.key}, n - 1)
  }

  /** One round of the search. */
  lemma MergeRound(pools: seq<seq<Entry>>, seen: set<string>, n: nat)
    ensures n == 0 || BestHead(pools) == |pools| ==> MergeFrom(pools, seen, n) == []
    ensures n > 0 && BestHead(pools) < |pools| ==>
              var b := BestHead(pools);
              var e := pools[b][0];
              Total(Pop(pools, b)) < Total(pools) &&
              MergeFrom(pools, seen, n) ==
              if e.key in seen then MergeFrom(Pop(pools, b), seen, n)
              else [e] + MergeFrom(Pop(pools, b), seen + {e.key}, n - 1)
  {
    if BestHead(pools) < |pools| { PopTotal(pools, BestHead(pools)); }
  }

  // ---- The merge pops entries in global rank order ----

  /** e at position k comes first in a stable sort: nothing earlier is as good, nothing later is better. */
  lemma {:induction false} SortPicksFirstBest(es: seq<Entry>, k: nat)
    requires k < |es|
    requires forall i :: 0 <= i < |es| ==> es[i].score <= es[k].score
    requires forall i :: 0 <= i < k ==> es[i].score < es[k].score
    ensures StableSort(es) == [es[k]] + StableSort(es[..k] + es[k + 1..])
  {
    if k == 0 {
      SortHead(es[1..]);
      assert es[..0] + es[1..] == es[1..];
      if es[1..] != [] { assert StableSort(es[1..])[0] in es[1..]; }
    } else {
      var rest := es[1..][..k - 1] + es[1..][k..];
      SortPicksFirstBest(es[1..], k - 1);
      assert es[..k] + es[k + 1..] == [es[0]] + rest;
      assert (es[..k] + es[k + 1..])[1..] == rest;
    }
  }

  lemma {:induction false} SortHead(es: seq<Entry>)
    ensures |StableSort(es)| == |es|
    ensures es != [] ==> StableSort(es)[0] in es
  {
    if es != [] {
      SortHead(es[1..]);
      InsertLength(es[0], StableSort(es[1..]));
    }
  }

  lemma {:induction false} InsertLength(e: Entry, es: seq<Entry>)
    ensures |InsertByScore(e, es)| == |es| + 1
    ensures InsertByScore(e, es)[0] == e || (es != [] && InsertByScore(e, es)[0] == es[0])
  {
    if es != [] { InsertLength(e, es[1..]); }
  }

  /** Where the head of pool b sits in the flattened pools. */
  lemma CutOut<T>(a: seq<T>, b: seq<T>, k: nat)
    requires k < |b|
    ensures var all := a + b;
            all[..|a| + k] + all[|a| + k + 1..] == a + (b[..k] + b[k + 1..]) && all[|a| + k] == b[k]
  {}

  /** Pool b has the first best head. */
  predicate BestAt(pools: seq<seq<Entry>>, b: nat) {
    b < |pools| && pools[b] != [] &&
    (forall i :: 0 <= i < |pools| && pools[i] != [] ==> pools[i][0].score <= pools[b][0].score) &&
    (forall i :: 0 <= i < b && pools[i] != [] ==> pools[i][0].score < pools[b][0].score)
  }

  /** Entry e stands at k, first among the best, and `rest` is what remains without it. */
  predicate TakesOut(all: seq<Entry>, k: nat, e: Entry, rest: seq<Entry>) {
    k < |all| && all[k] == e && all[..k] + all[k + 1..] == rest &&
    (forall i :: 0 <= i < |all| ==> all[i].score <= e.score) &&
    (forall i :: 0 <= i < k ==> all[i].score < e.score)
  }

  lemma {:induction false} FlattenAt(pools: seq<seq<Entry>>, b: nat) returns (k: nat)
    requires AllRanked(pools) && BestAt(pools, b)
    ensures TakesOut(Flatten(pools), k, pools[b][0], Flatten(Pop(pools, b)))
  {
    hide Flatten, Pop, Ranked, TakesOut;
    PopFlattens(pools, b);
    if b == 0 {
      k := 0;
      FirstBest(pools);
    } else {
      var k0 := FlattenAt(pools[1..], b - 1);
      k := |pools[0]| + k0;
      FirstBelow(pools, b);
      LaterBest(pools[0], Flatten(pools[1..]), k0, pools[b][0], Flatten(Pop(pools[1..], b - 1)));
    }
  }

  lemma FirstBelow(pools: seq<seq<Entry>>, b: nat)
    requires AllRanked(pools) && BestAt(pools, b) && b > 0
    ensures forall j :: 0 <= j < |pools[0]| ==> pools[0][j].score < pools[b][0].score
  {
    assert Ranked(pools[0]);
  }

  lemma FirstBest(pools: seq<seq<Entry>>)
    requires AllRanked(pools) && BestAt(pools, 0)
    ensures TakesOut(pools[0] + Flatten(pools[1..]), 0, pools[0][0], pools[0][1..] + Flatten(pools[1..]))
  {
    var a, tail := pools[0], Flatten(pools[1..]);
    assert Ranked(a);
    FlattenBound(pools[1..], a[0].score);
    hide Flatten, AllRanked, BestAt;
    S.TailOfConcat(a, tail);
    S.Empty((a + tail)[1..]);
  }

  lemma LaterBest(a: seq<Entry>, b: seq<Entry>, k: nat, e: Entry, rest: seq<Entry>)
    requires TakesOut(b, k, e, rest) && forall i :: 0 <= i < |a| ==> a[i].score < e.score
    ensures TakesOut(a + b, |a| + k, e, a + rest)
  {
    CutOut(a, b, k);
  }

  lemma PopFlattens(pools: seq<seq<Entry>>, b: nat)
    requires BestAt(pools, b)
    ensures Flatten(pools) == pools[0] + Flatten(pools[1..])
    ensures Flatten(Pop(pools, b)) == if b == 0 then pools[0][1..] + Flatten(pools[1..]) else pools[0] + Flatten(Pop(pools[1..], b - 1))
    ensures b > 0 ==> BestAt(pools[1..], b - 1)
  {
    if b == 0 {
      assert Pop(pools, b)[1..] == pools[1..];
    } else {
      assert Pop(pools, b)[1..] == Pop(pools[1..], b - 1);
    }
    hide Flatten;
  }

  lemma {:induction false} FlattenBound(pools: seq<seq<Entry>>, top: real)
    requires AllRanked(pools)
    requires forall i :: 0 <= i < |pools| && pools[i] != [] ==> pools[i][0].score <= top
    ensures forall i :: 0 <= i < |Flatten(pools)| ==> Flatten(pools)[i].score <= top
  {
    if pools != [] {
      FlattenBound(pools[1..], top);
      forall j | 0 <= j < |pools[0]| ensures pools[0][j].score <= pools[0][0].score {}
    }
  }

  lemma {:induction false} FlattenEmpty(pools: seq<seq<Entry>>)
    requires forall i :: 0 <= i < |pools| ==> pools[i] == []
    ensures Flatten(pools) == []
  {
    if pools != [] { FlattenEmpty(pools[1..]); }
  }

  lemma PopRanked(pools: seq<seq<Entry>>, b: nat)
    requires AllRanked(pools) && b < |pools| && pools[b] != []
    ensures AllRanked(Pop(pools, b))
  {
    forall i | 0 <= i < |pools| ensures Ranked(Pop(pools, b)[i]) {
      assert Ranked(pools[i]);
    }
  }

  lemma {:induction false} MergeIsGlobalOrder(pools: seq<seq<Entry>>, seen: set<string>, n: nat)
    requires AllRanked(pools)
    ensures MergeFrom(pools, seen, n) == FirstNew(StableSort(Flatten(pools)), seen, n)
    decreases Total(pools)
  {
    hide MergeFrom, StableSort, Flatten, Ranked, Pop, Total;
    MergeRound(pools, seen, n);
    var b := BestHead(pools);
    if b == |pools| {
      FlattenEmpty(pools);
      NothingSorted();
    } else if n > 0 {
      PopRanked(pools, b);
      var k := FlattenAt(pools, b);
      var all := Flatten(pools);
      SortPicksFirstBest(all, k);
      assert StableSort(all)[1..] == StableSort(Flatten(Pop(pools, b)));
      var e := pools[b][0];
      if e.key in seen {
        MergeIsGlobalOrder(Pop(pools, b), seen, n);
      } else {
        MergeIsGlobalOrder(Pop(pools, b), seen + {e.key}, n - 1);
      }
    }
  }

  lemma NothingSorted()
    ensures StableSort([]) == []
  {}

  // ---- Cutting the pools first changes nothing ----

  /** Number of entries whose key has not been seen. */
  function Unseen(es: seq<Entry>, seen: set<string>): nat {
    if es == [] then 0 else (if es[0].key in seen then 0 else 1) + Unseen(es[1..], seen)
  }

  /** cut is a prefix of full that still holds enough: all of it, or n entries with unseen keys. */
  predicate Enough(cut: seq<Entry>, full: seq<Entry>, seen: set<string>, n: nat) {
    cut <= full && (cut == full || Unseen(cut, seen) >= n)
  }

  predicate AllEnough(cuts: seq<seq<Entry>>, pools: seq<seq<Entry>>, seen: set<string>, n: nat) {
    |cuts| == |pools| && forall i :: 0 <= i < |pools| ==> Enough(cuts[i], pools[i], seen, n)
  }

  lemma {:induction false} UnseenAfterOneMore(es: seq<Entry>, seen: set<string>, key: string)
    requires Ranked(es)
    ensures Unseen(es, seen + {key}) + 1 >= Unseen(es, seen)
    ensures (forall e :: e in es ==> e.key != key) ==> Unseen(es, seen + {key}) == Unseen(es, seen)
  {
    if es != [] {
      RankedTail(es);
      UnseenAfterOneMore(es[1..], seen, key);
    }
  }

  lemma RankedTail(es: seq<Entry>)
    requires Ranked(es) && es != []
    ensures Ranked(es[1..]) && forall e :: e in es[1..] ==> e.key != es[0].key
  {
    forall e | e in es[1..] ensures e.key != es[0].key {
      var j :| 0 <= j < |es[1..]| && es[1..][j] == e;
      assert es[j + 1] == e;
    }
  }

  lemma {:induction false} UnseenInitially(es: seq<Entry>)
    ensures Unseen(es, {}) == |es|
  {
    if es != [] { UnseenInitially(es[1..]); }
  }

  /** The step that keeps cut and full pools in agreement. */
  lemma EnoughAfterPop(cuts: seq<seq<Entry>>, pools: seq<seq<Entry>>, seen: set<string>, n: nat, b: nat)
    requires AllRanked(pools) && AllEnough(cuts, pools, seen, n) && n > 0
    requires b < |cuts| && cuts[b] != [] && cuts[b][0] == pools[b][0]
    ensures var key := cuts[b][0].key;
            if key in seen then AllEnough(Pop(cuts, b), Pop(pools, b), seen, n)
            else AllEnough(Pop(cuts, b), Pop(pools, b), seen + {key}, n - 1)
  {
    var key := cuts[b][0].key;
    forall i | 0 <= i < |pools|
      ensures Enough(Pop(cuts, b)[i], Pop(pools, b)[i], if key in seen then seen else seen + {key},
                     if key in seen then n else n - 1)
    {
      assert Enough(cuts[i], pools[i], seen, n) && Ranked(pools[i]);
      PrefixRanked(cuts[i], pools[i]);
      UnseenAfterOneMore(cuts[i], seen, key);
      if i == b {
        RankedTail(cuts[b]);
        UnseenAfterOneMore(cuts[b][1..], seen, key);
        assert cuts[b][1..] <= pools[b][1..];
      }
    }
  }

  lemma PrefixRanked(a: seq<Entry>, b: seq<Entry>)
    requires a <= b && Ranked(b)
    ensures Ranked(a)
  {}

  lemma HeadsAgree(cuts: seq<seq<Entry>>, pools: seq<seq<Entry>>, seen: set<string>, n: nat)
    requires AllEnough(cuts, pools, seen, n) && n > 0
    ensures |cuts| == |pools| && BestHead(cuts) == BestHead(pools)
    ensures BestHead(cuts) < |cuts| ==> cuts[BestHead(cuts)][0] == pools[BestHead(pools)][0]
  {
    forall i | 0 <= i < |pools| ensures (cuts[i] == [] <==> pools[i] == []) && (cuts[i] != [] ==> cuts[i][0] == pools[i][0]) {
      assert Enough(cuts[i], pools[i], seen, n);
    }
  }

  lemma {:induction false} CutMergesAlike(cuts: seq<seq<Entry>>, pools: seq<seq<Entry>>, seen: set<string>, n: nat)
    requires AllRanked(pools) && AllEnough(cuts, pools, seen, n)
    ensures MergeFrom(cuts, seen, n) == MergeFrom(pools, seen, n)
    decreases Total(pools)
  {
    hide MergeFrom, Pop, Total, AllRanked, AllEnough;
    MergeRound(cuts, seen, n);
    MergeRound(pools, seen, n);
    if n > 0 {
      HeadsAgree(cuts, pools, seen, n);
      var b := BestHead(pools);
      if b < |pools| {
        PopRanked(pools, b);
        EnoughAfterPop(cuts, pools, seen, n, b);
        var e := pools[b][0];
        if e.key in seen {
          CutMergesAlike(Pop(cuts, b), Pop(pools, b), seen, n);
        } else {
          CutMergesAlike(Pop(cuts, b), Pop(pools, b), seen + {e.key}, n - 1);
        }
      }
    }
  }

  /** Main result: merging each pool's first five gives the first five of the global ranking of the full,
      uncut pools. */
  lemma SearchIsGlobalTop(pools: seq<seq<Entry>>)
    requires AllRanked(pools)
    ensures MergeFrom(CutAll(pools), {}, LIMIT) == GlobalTop(pools)
  {
    forall i | 0 <= i < |pools| ensures Enough(Cut(pools[i]), pools[i], {}, LIMIT) {
      UnseenInitially(Cut(pools[i]));
    }
    CutMergesAlike(CutAll(pools), pools, {}, LIMIT);
    MergeIsGlobalOrder(pools, {}, LIMIT);
  }

  // ---- The loop as it runs ----

  /** A list with a read position. */
  class ListIter {
    const wrapped: seq<Entry>
    var ptr: nat

    constructor (wrapped: seq<Entry>)
      ensures this.wrapped == wrapped && ptr == 0
    {
      this.wrapped := wrapped;
      ptr := 0;
    }

    function Remaining(): seq<Entry>
      reads this
    {
      if ptr >= |wrapped| then [] else wrapped[ptr..]
    }

    method Pop() returns (e: Entry)
      requires Remaining() != []
      modifies this
      ensures e == old(Remaining())[0] && Remaining() == old(Remaining())[1..]
    {
      e := wrapped[ptr];
      ptr := ptr + 1;
    }
  }

  ghost function Remainders(its: seq<ListIter>): (pools: seq<seq<Entry>>)
    reads its
    ensures |pools| == |its|
  {
    seq(|its|, i requires 0 <= i < |its| reads its => its[i].Remaining())
  }

  predicate Distinct(its: seq<ListIter>) {
    forall i, j :: 0 <= i < j < |its| ==> its[i] != its[j]
  }

  /** Popping one list of several. */
  method PopAt(its: seq<ListIter>, m: nat) returns (e: Entry)
    requires Distinct(its) && m < |its| && Remainders(its)[m] != []
    modifies its[m]
    ensures e == old(Remainders(its))[m][0] && Remainders(its) == Pop(old(Remainders(its)), m)
  {
    e := its[m].Pop();
  }

  /** `max` over the heads, first among equals; None when every list is exhausted. */
  method PickBest(its: seq<ListIter>) returns (b: nat)
    ensures b == BestHead(Remainders(its))
  {
    hide ListIter.Remaining, BestHead;
    var found := false;
    b := |its|;
    ghost var pools: seq<seq<Entry>> := Remainders(its);
    for i := 0 to |its|
      invariant if found then b < i && pools[b] != [] else b == |its|
      invariant !found ==> forall j :: 0 <= j < i ==> pools[j] == []
      invariant found ==> forall j :: 0 <= j < i && pools[j] != [] ==>
                  pools[j][0].score <= pools[b][0].score && (j < b ==> pools[j][0].score < pools[b][0].score)
    {
      if its[i].Remaining() != [] && (!found || its[i].Remaining()[0].score > its[b].Remaining()[0].score) {
        b, found := i, true;
      }
    }
    ghost var r := Remainders(its);
    assert forall j :: 0 <= j < |its| ==> r[j] == its[j].Remaining();
  }

  /** The search over the pool results: at most five entries, in the order the merge pops them. */
  method Search(its: seq<ListIter>) returns (context: seq<Entry>)
    requires Distinct(its)
    modifies its
    ensures context == MergeFrom(old(Remainders(its)), {}, LIMIT)
  {
    hide MergeFrom, Total, Remainders, BestHead, Pop, Distinct;
    context := [];
    var seen: set<string> := {};
    ghost var found := MergeFrom(Remainders(its), {}, LIMIT);
    S.Empty(found);
    while true
      invariant |context| < LIMIT
      invariant found == context + MergeFrom(Remainders(its), seen, LIMIT - |context|)
      decreases Total(Remainders(its))
    {
      var m := PickBest(its);
      ghost var before := Remainders(its);
      MergeRound(before, seen, LIMIT - |context|);
      S.Empty(context);
      if m == |its| {
        return;
      }
      var popped := PopAt(its, m);
      if popped.key in seen {
        continue;
      }
      seen := seen + {popped.key};
      S.Assoc(context, [popped], MergeFrom(Remainders(its), seen, LIMIT - |context| - 1));
      context := context + [popped];
      if |context| == LIMIT {
        MergeRound(Remainders(its), seen, 0);
        S.Empty(context);
        return;
      }
    }
  }

  /** The whole search, on what the store returns for each pool. */
  method SearchPools(pools: seq<seq<Entry>>) returns (context: seq<Entry>)
    requires AllRanked(pools)
    ensures context == GlobalTop(pools)
  {
    var its: seq<ListIter> := [];
    for i := 0 to |pools|
      invariant |its| == i && Distinct(its) && fresh(its)
      invariant forall j :: 0 <= j < i ==> its[j].Remaining() == Cut(pools[j])
    {
      var it := new ListIter(Cut(pools[i]));
      its := its + [it];
    }
    assert Remainders(its) == CutAll(pools);
    context := Search(its);
    SearchIsGlobalTop(pools);
  }

  /** Distinct keys, taken from the ranking in its order. */
  lemma {:induction false} TopProperties(es: seq<Entry>, seen: set<string>, n: nat)
    ensures |FirstNew(es, seen, n)| <= n
    ensures forall e :: e in FirstNew(es, seen, n) ==> e in es && e.key !in seen
    ensures forall i, j :: 0 <= i < j < |FirstNew(es, seen, n)| ==>
                             FirstNew(es, seen, n)[i].key != FirstNew(es, seen, n)[j].key
  {
    if n > 0 && es != [] {
      if es[0].key in seen {
        TopProperties(es[1..], seen, n);
      } else {
        TopProperties(es[1..], seen + {es[0].key}, n - 1);
        var r := FirstNew(es[1..], seen + {es[0].key}, n - 1);
        assert FirstNew(es, seen, n) == [es[0]] + r;
        hide FirstNew;
        forall j | 0 <= j < |r| ensures r[j] in es[1..] && r[j].key != es[0].key {
          assert r[j] in r;
        }
      }
    }
  }

  predicate Descending(es: seq<Entry>) {
    forall i, j :: 0 <= i < j < |es| ==> es[i].score >= es[j].score
  }

  lemma DescendingCons(e: Entry, r: seq<Entry>)
    requires Descending(r) && forall x :: x in r ==> x.score <= e.score
    ensures Descending([e] + r)
  {}

  lemma {:induction false} TopDescending(es: seq<Entry>, seen: set<string>, n: nat)
    requires Descending(es)
    ensures Descending(FirstNew(es, seen, n))
  {
    if n > 0 && es != [] {
      if es[0].key in seen {
        TopDescending(es[1..], seen, n);
      } else {
        TopDescending(es[1..], seen + {es[0].key}, n - 1);
        TopProperties(es[1..], seen + {es[0].key}, n - 1);
        var r := FirstNew(es[1..], seen + {es[0].key}, n - 1);
        assert FirstNew(es, seen, n) == [es[0]] + r;
        hide FirstNew;
        forall x | x in r ensures x.score <= es[0].score {
          var k :| 0 <= k < |es[1..]| && es[1..][k] == x;
          assert es[k + 1] == x;
        }
        DescendingCons(es[0], r);
      }
    }
  }

  lemma {:induction false} SortDescending(es: seq<Entry>)
    ensures Descending(StableSort(es)) && multiset(StableSort(es)) == multiset(es)
  {
    if es != [] {
      SortDescending(es[1..]);
      InsertDescending(es[0], StableSort(es[1..]));
      assert es == [es[0]] + es[1..];
    }
  }

  lemma {:induction false} InsertAdds(e: Entry, es: seq<Entry>)
    ensures multiset(InsertByScore(e, es)) == multiset(es) + multiset{e}
  {
    if es != [] {
      assert es == [es[0]] + es[1..];
      InsertAdds(e, es[1..]);
    }
  }

  lemma {:induction false} InsertDescending(e: Entry, es: seq<Entry>)
    requires Descending(es)
    ensures Descending(InsertByScore(e, es)) && multiset(InsertByScore(e, es)) == multiset(es) + multiset{e}
  {
    InsertAdds(e, es);
    if es != [] && e.score < es[0].score {
      InsertDescending(e, es[1..]);
      var r := InsertByScore(e, es[1..]);
      forall x | x in r ensures x.score <= es[0].score {
        assert x in multiset(r);
        if x != e {
          var k :| 0 <= k < |es[1..]| && es[1..][k] == x;
          assert es[k + 1] == x;
        }
      }
      DescendingCons(es[0], r);
    } else {
      assert forall x :: x in es ==> x.score <= e.score;
      DescendingCons(e, es);
    }
    hide InsertByScore, Descending;
  }

  /** e is outdone: its key is answered by something at least as good, or there are n entries, none of them worse. */
  predicate Outdone(r: seq<Entry>, n: nat, e: Entry) {
    (exists x :: x in r && x.key == e.key && x.score >= e.score) || (|r| == n && forall x :: x in r ==> x.score >= e.score)
  }

  lemma OutdoneCons(head: Entry, r: seq<Entry>, n: nat, e: Entry)
    requires Outdone(r, n, e) && head.score >= e.score
    ensures Outdone([head] + r, n + 1, e)
  {
    if x :| x in r && x.key == e.key && x.score >= e.score { assert x in [head] + r; }
  }

  /** Taking the first new keys of a ranked list leaves out nothing better. */
  lemma {:induction false} FirstNewOutdoes(es: seq<Entry>, seen: set<string>, n: nat)
    requires Descending(es)
    ensures forall e :: e in es && e.key !in seen ==> Outdone(FirstNew(es, seen, n), n, e)
  {
    if n > 0 && es != [] {
      var tail := es[1..];
      S.HeadAndTail(es);
      assert forall i :: 0 <= i < |tail| ==> tail[i] == es[i + 1];
      hide Outdone;
      if es[0].key in seen {
        FirstNewOutdoes(tail, seen, n);
      } else {
        FirstNewOutdoes(tail, seen + {es[0].key}, n - 1);
        var r := FirstNew(tail, seen + {es[0].key}, n - 1);
        assert FirstNew(es, seen, n) == [es[0]] + r;
        hide FirstNew;
        forall e | e in es && e.key !in seen ensures Outdone([es[0]] + r, n, e) {
          if e.key == es[0].key { AnswersKey(es[0], r, n, e); } else { OutdoneCons(es[0], r, n - 1, e); }
        }
      }
    } else {
      NoRoom(es, seen, n);
    }
  }

  lemma AnswersKey(head: Entry, r: seq<Entry>, n: nat, e: Entry)
    requires head.key == e.key && head.score >= e.score
    ensures Outdone([head] + r, n, e)
  {
    assert ([head] + r)[0] == head;
  }

  lemma NoRoom(es: seq<Entry>, seen: set<string>, n: nat)
    requires n == 0 || es == []
    ensures forall e :: e in es && e.key !in seen ==> Outdone(FirstNew(es, seen, n), n, e)
  {}

  /** The answer to a search is the best there is: of every entry in the pools, the key is answered with at least its
      score, or five entries at least as good are. */
  lemma NothingBetterIsLeftOut(pools: seq<seq<Entry>>, e: Entry)
    requires e in Flatten(pools)
    ensures Outdone(GlobalTop(pools), 5, e)
  {
    var all := Flatten(pools);
    SortDescending(all);
    FirstNewOutdoes(StableSort(all), {}, LIMIT);
    assert e in multiset(StableSort(all));
    hide Outdone;
  }

  /** The answer to a search: at most five entries of the pools, best first, no key twice. */
  lemma GlobalTopShape(pools: seq<seq<Entry>>)
    ensures var r := GlobalTop(pools);
            |r| <= 5 && Descending(r) && (forall e :: e in r ==> e in Flatten(pools)) &&
            forall i, j :: 0 <= i < j < |r| ==> r[i].key != r[j].key
  {
    var all := Flatten(pools);
    SortDescending(all);
    TopProperties(StableSort(all), {}, LIMIT);
    TopDescending(StableSort(all), {}, LIMIT);
    forall e | e in GlobalTop(pools) ensures e in all {
      assert e in multiset(StableSort(all));
    }
  }
}
