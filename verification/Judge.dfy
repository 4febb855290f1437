/** The requirements judge: checking its answer, and issuing the requirements stamp. */
module Judge {
  import opened Wrappers

  datatype Classification = SATISFIED | LIKELY | PARTIAL | VIOLATED | INCONCLUSIVE

  datatype Analysis = Analysis(classification: Classification, requirement: string, number: int)

  datatype Rejection =
    | DraftNotRead
    | WrongCount(expected: nat, received: nat)
    | SeenTwice(number: int)
    | NoSuchNumber(number: int)
    | TextDiffers(number: int)

  /** Analysis i is for an existing requirement and quotes it exactly. */
  predicate Quotes(reqs: seq<string>, a: Analysis) {
    1 <= a.number <= |reqs| && a.requirement == reqs[a.number - 1]
  }

  predicate DistinctNumbers(rs: seq<Analysis>) {
    forall i, j :: 0 <= i < j < |rs| ==> rs[i].number != rs[j].number
  }

  predicate Complete(reqs: seq<string>, rs: seq<Analysis>) {
    |rs| == |reqs| && DistinctNumbers(rs) && forall i :: 0 <= i < |rs| ==> Quotes(reqs, rs[i])
  }

  /** What a rejection says is so. */
  predicate Justified(reqs: seq<string>, rs: seq<Analysis>, draftUnread: bool, r: Rejection) {
    match r
    case DraftNotRead => draftUnread
    case WrongCount(expected, received) => expected == |reqs| && received == |rs| && expected != received
    case SeenTwice(n) => exists i, j :: 0 <= i < j < |rs| && rs[i].number == n && rs[j].number == n
    case NoSuchNumber(n) => !(1 <= n <= |reqs|) && exists i :: 0 <= i < |rs| && rs[i].number == n
    case TextDiffers(n) =>
      1 <= n <= |reqs| && exists i :: 0 <= i < |rs| && rs[i].number == n && rs[i].requirement != reqs[n - 1]
  }

  /** The check as it runs: it accepts exactly the complete answers, given that the rough draft was read. */
  method CheckResult(reqs: seq<string>, rs: seq<Analysis>, draftUnread: bool) returns (r: Option<Rejection>)
    ensures r.None? <==> !draftUnread && Complete(reqs, rs)
    ensures r.Some? ==> Justified(reqs, rs, draftUnread, r.value)
  {
    if draftUnread {
      return Some(DraftNotRead);
    }
    if |reqs| != |rs| {
      return Some(WrongCount(|reqs|, |rs|));
    }
    var seenNums: set<int> := {};
    for i := 0 to |rs|
      invariant DistinctNumbers(rs[..i]) && forall k :: 0 <= k < i ==> Quotes(reqs, rs[k])
      invariant seenNums == set k | 0 <= k < i :: rs[k].number
    {
      var j := rs[i];
      if j.number in seenNums {
        assert exists k :: 0 <= k < i && rs[k].number == rs[i].number;
        return Some(SeenTwice(j.number));
      }
      assert forall k :: 0 <= k < i ==> rs[k].number in seenNums;
      seenNums := seenNums + {j.number};
      if !(1 <= j.number < |reqs| + 1) {
        return Some(NoSuchNumber(j.number));
      }
      if j.requirement != reqs[j.number - 1] {
        return Some(TextDiffers(j.number));
      }
    }
    assert rs[..|rs|] == rs;
    r := None;
  }

  function Numbers(rs: seq<Analysis>): set<int> {
    set k | 0 <= k < |rs| :: rs[k].number
  }

  lemma {:induction false} CountNumbers(rs: seq<Analysis>)
    requires DistinctNumbers(rs)
    ensures |Numbers(rs)| == |rs|
  {
    if rs != [] {
      var n := |rs| - 1;
      CountNumbers(rs[..n]);
      assert forall k :: 0 <= k < n ==> rs[..n][k] == rs[k];
      assert Numbers(rs) == Numbers(rs[..n]) + {rs[n].number};
      assert rs[n].number !in Numbers(rs[..n]);
    }
  }

  function Range(n: nat): (r: set<int>)
    ensures |r| == n && forall k :: k in r <==> 1 <= k <= n
  {
    if n == 0 then {} else Range(n - 1) + {n}
  }

  lemma {:induction false} SubsetOfSameSize<T>(a: set<T>, b: set<T>)
    requires a <= b && |a| == |b|
    ensures a == b
  {
    if a != b {
      var x :| x in b && x !in a;
      SmallerInside(a, b - {x});
    }
  }

  lemma {:induction false} SmallerInside<T>(a: set<T>, b: set<T>)
    requires a <= b
    ensures |a| <= |b|
  {
    if a != {} {
      var x :| x in a;
      SmallerInside(a - {x}, b - {x});
    }
  }

  /** Pigeonhole: a complete answer judges every requirement 1..n exactly once, with its own text. */
  lemma CompleteIsABijection(reqs: seq<string>, rs: seq<Analysis>, n: int)
    requires Complete(reqs, rs) && 1 <= n <= |reqs|
    ensures exists i :: 0 <= i < |rs| && rs[i].number == n && rs[i].requirement == reqs[n - 1] &&
                        forall j :: 0 <= j < |rs| && j != i ==> rs[j].number != n
  {
    CountNumbers(rs);
    forall x | x in Numbers(rs) ensures x in Range(|reqs|) {
      var k :| 0 <= k < |rs| && rs[k].number == x;
      assert Quotes(reqs, rs[k]);
    }
    SubsetOfSameSize(Numbers(rs), Range(|reqs|));
    assert n in Numbers(rs);
    var i :| 0 <= i < |rs| && rs[i].number == n;
    assert Quotes(reqs, rs[i]);
    forall j | 0 <= j < |rs| && j != i ensures rs[j].number != n {
      assert rs[if i < j then i else j].number != rs[if i < j then j else i].number;
    }
  }

  /** One entry judges requirement n, and no other does. */
  predicate JudgedOnce(rs: seq<Analysis>, n: int) {
    exists i :: 0 <= i < |rs| && rs[i].number == n && forall j :: 0 <= j < |rs| && j != i ==> rs[j].number != n
  }

  /** An answer is complete exactly when every entry is for some requirement and quotes it, and every requirement has
      exactly one entry, wherever it stands. */
  lemma CompleteExactlyWhenBijection(reqs: seq<string>, rs: seq<Analysis>)
    ensures Complete(reqs, rs) <==>
            (forall i :: 0 <= i < |rs| ==> 1 <= rs[i].number <= |reqs| && rs[i].requirement == reqs[rs[i].number - 1]) &&
            (forall n :: 1 <= n <= |reqs| ==> JudgedOnce(rs, n))
  {
    if Complete(reqs, rs) {
      forall n | 1 <= n <= |reqs| ensures JudgedOnce(rs, n) { CompleteIsABijection(reqs, rs, n); }
      assert forall i :: 0 <= i < |rs| ==> Quotes(reqs, rs[i]);
    }
    if (forall i :: 0 <= i < |rs| ==> Quotes(reqs, rs[i])) && (forall n :: 1 <= n <= |reqs| ==> JudgedOnce(rs, n)) {
      OnceEachIsComplete(reqs, rs);
    }
  }

  lemma OnceEachIsComplete(reqs: seq<string>, rs: seq<Analysis>)
    requires forall i :: 0 <= i < |rs| ==> Quotes(reqs, rs[i])
    requires forall n :: 1 <= n <= |reqs| ==> JudgedOnce(rs, n)
    ensures Complete(reqs, rs)
  {
    forall i, j | 0 <= i < j < |rs| ensures rs[i].number != rs[j].number {
      assert Quotes(reqs, rs[i]);
      assert JudgedOnce(rs, rs[i].number);
    }
    CountNumbers(rs);
    forall n ensures n in Range(|reqs|) <==> n in Numbers(rs) {
      if n in Range(|reqs|) { assert JudgedOnce(rs, n); }
      if n in Numbers(rs) {
        var k :| 0 <= k < |rs| && rs[k].number == n;
        assert Quotes(reqs, rs[k]);
      }
    }
    assert Numbers(rs) == Range(|reqs|);
  }

  predicate Acceptable(a: Analysis, skipped: set<int>) {
    a.classification.LIKELY? || a.classification.SATISFIED? || a.number in skipped
  }

  /** The loop that decides whether to stamp. */
  method AllSatisfied(rs: seq<Analysis>, skipped: set<int>) returns (all: bool)
    ensures all <==> forall i :: 0 <= i < |rs| ==> Acceptable(rs[i], skipped)
  {
    all := true;
    for i := 0 to |rs|
      invariant all && forall k :: 0 <= k < i ==> Acceptable(rs[k], skipped)
    {
      if !rs[i].classification.LIKELY? && !rs[i].classification.SATISFIED? {
        if rs[i].number !in skipped {
          all := false;
          break;
        }
      }
    }
  }

  /** Requirement n was judged SATISFIED or LIKELY, or is skipped. */
  predicate RequirementMet(rs: seq<Analysis>, skipped: set<int>, n: int) {
    n in skipped ||
    exists i :: 0 <= i < |rs| && rs[i].number == n && (rs[i].classification.LIKELY? || rs[i].classification.SATISFIED?)
  }

  lemma SameNumberSamePlace(rs: seq<Analysis>, i: nat, j: nat)
    requires DistinctNumbers(rs) && i < |rs| && j < |rs| && rs[i].number == rs[j].number
    ensures i == j
  {}

  /** The stamp is issued for an accepted answer exactly when every requirement 1..n is met. */
  lemma StampMeansEveryRequirementMet(reqs: seq<string>, rs: seq<Analysis>, skipped: set<int>)
    requires Complete(reqs, rs)
    ensures (forall i :: 0 <= i < |rs| ==> Acceptable(rs[i], skipped)) <==>
            (forall n :: 1 <= n <= |reqs| ==> RequirementMet(rs, skipped, n))
  {
    if forall i :: 0 <= i < |rs| ==> Acceptable(rs[i], skipped) {
      forall n | 1 <= n <= |reqs| ensures RequirementMet(rs, skipped, n) {
        CompleteIsABijection(reqs, rs, n);
        var i :| 0 <= i < |rs| && rs[i].number == n;
        assert Acceptable(rs[i], skipped);
      }
    }
    if forall n :: 1 <= n <= |reqs| ==> RequirementMet(rs, skipped, n) {
      forall i | 0 <= i < |rs| ensures Acceptable(rs[i], skipped) {
        assert Quotes(reqs, rs[i]);
        assert RequirementMet(rs, skipped, rs[i].number);
        if rs[i].number !in skipped {
          var j :| 0 <= j < |rs| && rs[j].number == rs[i].number &&
                   (rs[j].classification.LIKELY? || rs[j].classification.SATISFIED?);
          SameNumberSamePlace(rs, i, j);
        }
      }
    }
  }
}
