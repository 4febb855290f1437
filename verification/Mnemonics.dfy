/** Mnemonic allocation with a put-if-absent claim, for any number of concurrent callers. Each step below is
    one store operation; candidates are chosen by the environment. */
module Mnemonics {
  import opened Wrappers

  const ATTEMPTS := 10

  /** A caller's position. `Trying(i)` is about to claim with attempt i; `Claimed` holds a slot and is about to
      record it for its thread; `Returned` tells whether the mnemonic was claimed by this caller or read from the
      table; `GaveUp` is the failed assertion after the last attempt. */
  datatype Position =
    | Reading
    | Trying(attempt: nat)
    | Claimed(slot: string)
    | Returned(mnemonic: string, won: bool)
    | GaveUp

  datatype Caller = Caller(tid: string, at: Position)

  /** slots: mnemonic to thread (the `mnem` namespace); threads: thread to mnemonic (the `thread` namespace). */
  datatype World = World(slots: map<string, string>, threads: map<string, string>, callers: map<int, Caller>)

  datatype Move =
    | Call(c: int, tid: string)
    | Read(c: int)
    | TryClaim(c: int, candidate: string)
    | Record(c: int)

  predicate Enabled(w: World, m: Move) {
    match m
    case Call(c, _) => c !in w.callers
    case Read(c) => c in w.callers && w.callers[c].at.Reading?
    case TryClaim(c, _) => c in w.callers && w.callers[c].at.Trying? && w.callers[c].at.attempt < ATTEMPTS
    case Record(c) => c in w.callers && w.callers[c].at.Claimed?
  }

  function MoveTo(w: World, c: int, p: Position): map<int, Caller>
    requires c in w.callers
  {
    w.callers[c := Caller(w.callers[c].tid, p)]
  }

  function Apply(w: World, m: Move): World
    requires Enabled(w, m)
  {
    match m
    case Call(c, tid) => w.(callers := w.callers[c := Caller(tid, Reading)])
    case Read(c) =>
      var tid := w.callers[c].tid;
      w.(callers := MoveTo(w, c, if tid in w.threads then Returned(w.threads[tid], false) else Trying(0)))
    case TryClaim(c, candidate) =>
      var i := w.callers[c].at.attempt;
      if candidate in w.slots then w.(callers := MoveTo(w, c, if i + 1 == ATTEMPTS then GaveUp else Trying(i + 1)))
      else w.(slots := w.slots[candidate := w.callers[c].tid], callers := MoveTo(w, c, Claimed(candidate)))
    case Record(c) =>
      var slot := w.callers[c].at.slot;
      w.(threads := w.threads[w.callers[c].tid := slot], callers := MoveTo(w, c, Returned(slot, true)))
  }

  const INITIAL := World(map[], map[], map[])

  function Perform(from: World, moves: seq<Move>): Option<World> {
    if moves == [] then Some(from)
    else
      var w := Perform(from, moves[..|moves| - 1]);
      if w.Some? && Enabled(w.value, moves[|moves| - 1]) then Some(Apply(w.value, moves[|moves| - 1])) else None
  }

  // ---- Safety ----

  /** Every mnemonic a caller holds, has returned, or the thread table names, is a slot owned by that thread. */
  predicate Safe(w: World) {
    (forall t :: t in w.threads ==> w.threads[t] in w.slots && w.slots[w.threads[t]] == t) &&
    (forall c :: c in w.callers && w.callers[c].at.Claimed? ==>
       w.callers[c].at.slot in w.slots && w.slots[w.callers[c].at.slot] == w.callers[c].tid) &&
    (forall c :: c in w.callers && w.callers[c].at.Returned? ==>
       w.callers[c].at.mnemonic in w.slots && w.slots[w.callers[c].at.mnemonic] == w.callers[c].tid) &&
    (forall c :: c in w.callers && w.callers[c].at.Trying? ==> w.callers[c].at.attempt < ATTEMPTS)
  }

  /** Slots are never reassigned, callers keep their thread, returned mnemonics stay. */
  predicate Grows(v: World, w: World) {
    (forall s :: s in v.slots ==> s in w.slots && w.slots[s] == v.slots[s]) &&
    (forall t :: t in v.threads ==> t in w.threads) &&
    (forall c :: c in v.callers ==> c in w.callers && w.callers[c].tid == v.callers[c].tid &&
                                    (v.callers[c].at.Returned? ==> w.callers[c] == v.callers[c]))
  }

  lemma MoveIsSafe(w: World, m: Move)
    requires Safe(w) && Enabled(w, m)
    ensures Safe(Apply(w, m)) && Grows(w, Apply(w, m))
  {}

  lemma {:induction false} RunsAreSafe(from: World, moves: seq<Move>)
    requires Safe(from)
    ensures Perform(from, moves).Some? ==> Safe(Perform(from, moves).value) && Grows(from, Perform(from, moves).value)
  {
    if moves != [] {
      RunsAreSafe(from, moves[..|moves| - 1]);
      var w := Perform(from, moves[..|moves| - 1]);
      if w.Some? && Enabled(w.value, moves[|moves| - 1]) {
        MoveIsSafe(w.value, moves[|moves| - 1]);
      }
    }
  }

  /** For every interleaving: callers for different threads never return the same mnemonic, and a returned
      mnemonic resolves to its caller's thread then and in every later state. */
  lemma MnemonicsAreUnique(moves: seq<Move>, more: seq<Move>, c: int, d: int)
    requires var w := Perform(INITIAL, moves);
             w.Some? && c in w.value.callers && w.value.callers[c].at.Returned? && Perform(w.value, more).Some?
    ensures var w := Perform(INITIAL, moves).value;
            var later := Perform(w, more).value;
            var mnem := w.callers[c].at.mnemonic;
            mnem in later.slots && later.slots[mnem] == w.callers[c].tid &&
            (d in later.callers && later.callers[d].at.Returned? && later.callers[d].at.mnemonic == mnem ==> later.callers[d].tid == w.callers[c].tid)
  {
    RunsAreSafe(INITIAL, moves);
    RunsAreSafe(Perform(INITIAL, moves).value, more);
  }

  // ---- One thread, several callers ----

  /** No caller for the thread is between reading the table and recording its slot. */
  predicate Settled(w: World, tid: string) {
    forall c :: c in w.callers && w.callers[c].tid == tid ==> !w.callers[c].at.Trying? && !w.callers[c].at.Claimed?
  }

  lemma {:induction false} SettledStays(w: World, moves: seq<Move>, tid: string)
    requires Safe(w) && tid in w.threads && Settled(w, tid) && Perform(w, moves).Some?
    ensures var v := Perform(w, moves).value;
            Settled(v, tid) && tid in v.threads && v.threads[tid] == w.threads[tid]
  {
    if moves != [] {
      var n := |moves| - 1;
      SettledStays(w, moves[..n], tid);
    }
  }

  /** Once a thread is recorded and no caller for it is in flight, its mnemonic is final: the table entry never
      changes again and every caller that had not read yet, or comes later, returns it. */
  lemma {:induction false} SettledThreadIsFinal(w: World, moves: seq<Move>, tid: string, c: int)
    requires Safe(w) && tid in w.threads && Settled(w, tid) && Perform(w, moves).Some?
    ensures var v := Perform(w, moves).value;
            tid in v.threads && v.threads[tid] == w.threads[tid] &&
            (c in v.callers && v.callers[c].tid == tid && v.callers[c].at.Returned? &&
             !(c in w.callers && w.callers[c].at.Returned?)
             ==> v.callers[c].at.mnemonic == w.threads[tid])
  {
    SettledStays(w, moves, tid);
    if moves != [] {
      var n := |moves| - 1;
      SettledStays(w, moves[..n], tid);
      SettledThreadIsFinal(w, moves[..n], tid, c);
      RunsAreSafe(w, moves[..n]);
    }
  }

  /** The slot a caller has claimed itself. */
  function Won(p: Position): Option<string> {
    if p.Claimed? then Some(p.slot) else if p.Returned? && p.won then Some(p.mnemonic) else None
  }

  /** A caller of the thread that claimed the mnemonic itself and has returned it. */
  predicate Winner(w: World, c: int, tid: string, mnem: string) {
    c in w.callers && w.callers[c] == Caller(tid, Returned(mnem, true))
  }

  ghost predicate HasWinner(w: World, tid: string, mnem: string) {
    exists c :: Winner(w, c, tid, mnem)
  }

  predicate ClaimsDiffer(w: World) {
    (forall c :: c in w.callers && Won(w.callers[c].at).Some? ==> Won(w.callers[c].at).value in w.slots) &&
    (forall c, d :: c in w.callers && d in w.callers && c != d && Won(w.callers[c].at).Some? ==>
       Won(w.callers[c].at) != Won(w.callers[d].at))
  }

  ghost predicate TableSourced(w: World) {
    forall t :: t in w.threads ==> HasWinner(w, t, w.threads[t])
  }

  ghost predicate ReturnsSourced(w: World) {
    forall d :: d in w.callers && w.callers[d].at.Returned? ==> HasWinner(w, w.callers[d].tid, w.callers[d].at.mnemonic)
  }

  /** Where mnemonics come from: claims are of different slots, and what the table names or a caller has returned
      was claimed by a caller of the thread that has returned. */
  ghost predicate Sourced(w: World) {
    ClaimsDiffer(w) && TableSourced(w) && ReturnsSourced(w)
  }

  lemma WinnersStay(w: World, m: Move, tid: string, mnem: string)
    requires Enabled(w, m) && HasWinner(w, tid, mnem)
    ensures HasWinner(Apply(w, m), tid, mnem)
  {
    var c :| Winner(w, c, tid, mnem);
    assert Winner(Apply(w, m), c, tid, mnem);
  }

  lemma ClaimsStayDifferent(w: World, m: Move)
    requires ClaimsDiffer(w) && Enabled(w, m)
    ensures ClaimsDiffer(Apply(w, m))
  {}

  lemma TableStaysSourced(w: World, m: Move, t: string)
    requires TableSourced(w) && Enabled(w, m) && t in Apply(w, m).threads
    ensures HasWinner(Apply(w, m), t, Apply(w, m).threads[t])
  {
    if m.Record? && t == w.callers[m.c].tid {
      assert Winner(Apply(w, m), m.c, t, w.callers[m.c].at.slot);
    } else {
      WinnersStay(w, m, t, w.threads[t]);
    }
  }

  lemma ReturnsStaySourced(w: World, m: Move, d: int)
    requires TableSourced(w) && ReturnsSourced(w) && Enabled(w, m)
    requires d in Apply(w, m).callers && Apply(w, m).callers[d].at.Returned?
    ensures HasWinner(Apply(w, m), Apply(w, m).callers[d].tid, Apply(w, m).callers[d].at.mnemonic)
  {
    if d in w.callers && w.callers[d].at.Returned? {
      WinnersStay(w, m, w.callers[d].tid, w.callers[d].at.mnemonic);
    } else if m.Read? {
      WinnersStay(w, m, w.callers[d].tid, w.threads[w.callers[d].tid]);
    } else {
      assert Winner(Apply(w, m), d, w.callers[d].tid, w.callers[d].at.slot);
    }
  }

  lemma MoveIsSourced(w: World, m: Move)
    requires Sourced(w) && Enabled(w, m)
    ensures Sourced(Apply(w, m))
  {
    ClaimsStayDifferent(w, m);
    forall t | t in Apply(w, m).threads ensures HasWinner(Apply(w, m), t, Apply(w, m).threads[t]) {
      TableStaysSourced(w, m, t);
    }
    forall d | d in Apply(w, m).callers && Apply(w, m).callers[d].at.Returned?
      ensures HasWinner(Apply(w, m), Apply(w, m).callers[d].tid, Apply(w, m).callers[d].at.mnemonic)
    {
      ReturnsStaySourced(w, m, d);
    }
    hide Apply, HasWinner, ClaimsDiffer;
  }

  lemma {:induction false} RunsAreSourced(from: World, moves: seq<Move>)
    requires Sourced(from)
    ensures Perform(from, moves).Some? ==> Sourced(Perform(from, moves).value)
  {
    if moves != [] {
      RunsAreSourced(from, moves[..|moves| - 1]);
      var w := Perform(from, moves[..|moves| - 1]);
      if w.Some? && Enabled(w.value, moves[|moves| - 1]) {
        MoveIsSourced(w.value, moves[|moves| - 1]);
      }
    }
  }

  predicate HasReturned(w: World, c: int, tid: string) {
    c in w.callers && w.callers[c].tid == tid && w.callers[c].at.Returned?
  }

  /** All callers that have returned for the thread got the same mnemonic. */
  ghost predicate Agree(w: World, tid: string) {
    forall c, d :: HasReturned(w, c, tid) && HasReturned(w, d, tid) ==> w.callers[c].at.mnemonic == w.callers[d].at.mnemonic
  }

  /** At most one caller that has returned for the thread got its mnemonic by a claim. */
  ghost predicate OneClaim(w: World, tid: string) {
    forall c, d :: HasReturned(w, c, tid) && HasReturned(w, d, tid) && w.callers[c].at.won && w.callers[d].at.won ==> c == d
  }

  /** In every reachable state, the callers that have returned for a thread agree if and only if at most one of
      them got its mnemonic by a claim. */
  lemma OneMnemonicExactlyWithoutRace(moves: seq<Move>, tid: string)
    requires Perform(INITIAL, moves).Some?
    ensures Agree(Perform(INITIAL, moves).value, tid) <==> OneClaim(Perform(INITIAL, moves).value, tid)
  {
    RunsAreSourced(INITIAL, moves);
    var w := Perform(INITIAL, moves).value;
    if OneClaim(w, tid) {
      forall c, d | HasReturned(w, c, tid) && HasReturned(w, d, tid)
        ensures w.callers[c].at.mnemonic == w.callers[d].at.mnemonic
      {
        var a := Source(w, c, tid);
        var b := Source(w, d, tid);
        assert a == b;
      }
    } else {
      var c, d :| HasReturned(w, c, tid) && HasReturned(w, d, tid) && w.callers[c].at.won && w.callers[d].at.won && c != d;
      ClaimsAreDifferent(w, c, d);
    }
    hide Perform, Sourced;
  }

  lemma Source(w: World, c: int, tid: string) returns (a: int)
    requires Sourced(w) && HasReturned(w, c, tid)
    ensures HasReturned(w, a, tid) && w.callers[a].at.won && w.callers[a].at.mnemonic == w.callers[c].at.mnemonic
  {
    assert HasWinner(w, tid, w.callers[c].at.mnemonic);
    a :| Winner(w, a, tid, w.callers[c].at.mnemonic);
  }

  lemma ClaimsAreDifferent(w: World, c: int, d: int)
    requires Sourced(w) && c in w.callers && d in w.callers && c != d
    requires w.callers[c].at.Returned? && w.callers[c].at.won && w.callers[d].at.Returned? && w.callers[d].at.won
    ensures w.callers[c].at.mnemonic != w.callers[d].at.mnemonic
  {
    assert Won(w.callers[c].at) != Won(w.callers[d].at);
  }

  lemma {:induction false} FreshString(taken: set<string>) returns (s: string)
    ensures s !in taken && forall t :: t in taken ==> |t| < |s|
  {
    s := "x";
    if taken != {} {
      var t :| t in taken;
      s := FreshString(taken - {t});
      if |s| <= |t| { s := t + "x"; }
    }
  }

  /** While a caller of a recorded thread is between reading the table and recording its claim, some continuation
      changes the thread's entry. */
  lemma UnsettledCanChange(w: World, tid: string) returns (more: seq<Move>)
    requires Safe(w) && Sourced(w) && tid in w.threads && !Settled(w, tid)
    ensures Perform(w, more).Some? && tid in Perform(w, more).value.threads
    ensures Perform(w, more).value.threads[tid] != w.threads[tid]
  {
    var c :| c in w.callers && w.callers[c].tid == tid && (w.callers[c].at.Trying? || w.callers[c].at.Claimed?);
    assert Perform(w, []) == Some(w);
    if w.callers[c].at.Claimed? {
      ClaimIsNotInTable(w, tid, c);
      hide Sourced, Safe, Perform;
      more := Follow(w, [], Record(c), w);
    } else {
      var slot := FreshString(w.slots.Keys);
      assert w.threads[tid] in w.slots && w.callers[c].at.attempt < ATTEMPTS;
      hide Sourced, Safe, Perform;
      var one := Follow(w, [], TryClaim(c, slot), w);
      more := Follow(w, one, Record(c), Apply(w, TryClaim(c, slot)));
    }
  }

  lemma ClaimIsNotInTable(w: World, tid: string, c: int)
    requires Sourced(w) && tid in w.threads && c in w.callers && w.callers[c].at.Claimed?
    ensures w.callers[c].at.slot != w.threads[tid]
  {
    assert HasWinner(w, tid, w.threads[tid]);
    var d :| Winner(w, d, tid, w.threads[tid]);
    assert Won(w.callers[d].at) != Won(w.callers[c].at);
  }

  /** In every reachable state a thread's entry is final, whatever happens next, if and only if no caller for the
      thread is between reading the table and recording its claim. */
  lemma FinalExactlyWhenSettled(moves: seq<Move>, tid: string)
    requires Perform(INITIAL, moves).Some? && tid in Perform(INITIAL, moves).value.threads
    ensures var w := Perform(INITIAL, moves).value;
            (forall more :: Perform(w, more).Some? ==>
                              tid in Perform(w, more).value.threads &&
                              Perform(w, more).value.threads[tid] == w.threads[tid]) <==>
            Settled(w, tid)
  {
    RunsAreSafe(INITIAL, moves);
    RunsAreSourced(INITIAL, moves);
    var w := Perform(INITIAL, moves).value;
    hide Perform, Settled;
    if Settled(w, tid) {
      forall more | Perform(w, more).Some?
        ensures tid in Perform(w, more).value.threads && Perform(w, more).value.threads[tid] == w.threads[tid]
      {
        SettledStays(w, more, tid);
      }
    } else {
      var more := UnsettledCanChange(w, tid);
    }
  }

  // ---- Progress ----

  /** In every reachable state a caller can come, one that is there can read, then try any candidate, and record
      what it has claimed. */
  lemma NobodyIsStuck(moves: seq<Move>, c: int, tid: string, candidate: string)
    requires Perform(INITIAL, moves).Some?
    ensures var w := Perform(INITIAL, moves).value;
            if c !in w.callers then Enabled(w, Call(c, tid))
            else
              match w.callers[c].at
              case Reading => Enabled(w, Read(c))
              case Trying(_) => Enabled(w, TryClaim(c, candidate))
              case Claimed(_) => Enabled(w, Record(c))
              case _ => !exists m :: Enabled(w, m) && m.c == c
  {
    RunsAreSafe(INITIAL, moves);
    hide Perform;
  }

  // ---- Giving up ----

  /** The candidates a caller has tried to claim. */
  function Tried(moves: seq<Move>, c: int): seq<string> {
    if moves == [] then []
    else
      var last := moves[|moves| - 1];
      Tried(moves[..|moves| - 1], c) + if last.TryClaim? && last.c == c then [last.candidate] else []
  }

  predicate AllTaken(w: World, candidates: seq<string>) {
    forall s :: s in candidates ==> s in w.slots
  }

  /** How a caller's position follows from the candidates it has tried. */
  predicate TriesFit(w: World, c: int, tried: seq<string>) {
    if c !in w.callers then tried == []
    else
      match w.callers[c].at
      case Reading => tried == []
      case Trying(i) => |tried| == i && i < ATTEMPTS && AllTaken(w, tried)
      case Claimed(slot) => 0 < |tried| <= ATTEMPTS && tried[|tried| - 1] == slot && AllTaken(w, tried)
      case Returned(mnemonic, won) =>
        if won then 0 < |tried| <= ATTEMPTS && tried[|tried| - 1] == mnemonic && AllTaken(w, tried) else tried == []
      case GaveUp => |tried| == ATTEMPTS && AllTaken(w, tried)
  }

  lemma MoveKeepsTries(w: World, m: Move, c: int, tried: seq<string>)
    requires Enabled(w, m) && TriesFit(w, c, tried)
    ensures TriesFit(Apply(w, m), c, tried + if m.TryClaim? && m.c == c then [m.candidate] else [])
  {
    assert tried + [] == tried;
  }

  lemma {:induction false} TriesAlwaysFit(moves: seq<Move>, c: int)
    requires Perform(INITIAL, moves).Some?
    ensures TriesFit(Perform(INITIAL, moves).value, c, Tried(moves, c))
  {
    if moves != [] {
      var init := moves[..|moves| - 1];
      TriesAlwaysFit(init, c);
      MoveKeepsTries(Perform(INITIAL, init).value, moves[|moves| - 1], c, Tried(init, c));
      hide TriesFit, Apply;
    }
  }

  /** In every reachable state: a caller has given up exactly when it was refused ten candidates, all of them taken;
      with fewer refusals it goes on trying; and what it has claimed is the last candidate it tried. */
  lemma GivesUpAfterTenTaken(moves: seq<Move>, c: int)
    requires Perform(INITIAL, moves).Some? && c in Perform(INITIAL, moves).value.callers
    ensures var w := Perform(INITIAL, moves).value;
            var at := w.callers[c].at;
            var tried := Tried(moves, c);
            |tried| <= 10 && AllTaken(w, tried) &&
            (at.GaveUp? <==> |tried| == 10 && !at.Claimed? && !at.Returned?) &&
            (0 < |tried| < 10 && !at.Claimed? && !at.Returned? ==> at == Trying(|tried|)) &&
            (at.Claimed? || (at.Returned? && at.won) ==>
               tried != [] && tried[|tried| - 1] == if at.Claimed? then at.slot else at.mnemonic)
  {
    TriesAlwaysFit(moves, c);
    hide Perform;
  }

  /** Two callers that both read before either records do get two different mnemonics for one thread; the
      table keeps the one recorded last, the other slot stays claimed by the thread. */
  lemma RacingCallersLeaveAnOrphan(tid: string, x: string, y: string)
    requires x != y
    ensures var w := Perform(INITIAL, [Call(0, tid), Call(1, tid), Read(0), Read(1), TryClaim(0, x), TryClaim(1, y),
                                       Record(1), Record(0)]);
            w.Some? && w.value.callers == map[0 := Caller(tid, Returned(x, true)), 1 := Caller(tid, Returned(y, true))] &&
            w.value.threads == map[tid := x] && w.value.slots == map[x := tid, y := tid]
  {
    BothRead(tid);
    var s4, w4 := [Call(0, tid), Call(1, tid), Read(0), Read(1)], BothTrying(tid);
    hide Perform;
    var s5 := Follow(INITIAL, s4, TryClaim(0, x), w4);
    var w5 := Apply(w4, TryClaim(0, x));
    var s6 := Follow(INITIAL, s5, TryClaim(1, y), w5);
    var w6 := Apply(w5, TryClaim(1, y));
    BothClaimed(tid, x, y);
    var s7 := Follow(INITIAL, s6, Record(1), w6);
    var s8 := Follow(INITIAL, s7, Record(0), Apply(w6, Record(1)));
    hide Apply;
    assert s8 == [Call(0, tid), Call(1, tid), Read(0), Read(1), TryClaim(0, x), TryClaim(1, y), Record(1), Record(0)];
  }

  function BothTrying(tid: string): World {
    World(map[], map[], map[0 := Caller(tid, Trying(0)), 1 := Caller(tid, Trying(0))])
  }

  lemma BothRead(tid: string)
    ensures Perform(INITIAL, [Call(0, tid), Call(1, tid), Read(0), Read(1)]) == Some(BothTrying(tid))
  {
    var s1 := Follow(INITIAL, [], Call(0, tid), INITIAL);
    var w1 := Apply(INITIAL, Call(0, tid));
    var s2 := Follow(INITIAL, s1, Call(1, tid), w1);
    var w2 := Apply(w1, Call(1, tid));
    var s3 := Follow(INITIAL, s2, Read(0), w2);
    var w3 := Apply(w2, Read(0));
    var s4 := Follow(INITIAL, s3, Read(1), w3);
    hide Perform;
    assert s4 == [Call(0, tid), Call(1, tid), Read(0), Read(1)];
    assert Apply(w3, Read(1)).callers == map[0 := Caller(tid, Trying(0)), 1 := Caller(tid, Trying(0))];
  }

  lemma BothClaimed(tid: string, x: string, y: string)
    requires x != y
    ensures var w4 := BothTrying(tid);
            var w5 := Apply(w4, TryClaim(0, x));
            Enabled(w5, TryClaim(1, y)) &&
            var w6 := Apply(w5, TryClaim(1, y));
            Enabled(w6, Record(1)) &&
            var w7 := Apply(w6, Record(1));
            Enabled(w7, Record(0)) &&
            Apply(w7, Record(0)) == World(map[x := tid, y := tid], map[tid := x],
                                          map[0 := Caller(tid, Returned(x, true)), 1 := Caller(tid, Returned(y, true))])
  {}

  lemma Follow(from: World, moves: seq<Move>, m: Move, w: World) returns (longer: seq<Move>)
    requires Perform(from, moves) == Some(w) && Enabled(w, m)
    ensures longer == moves + [m] && Perform(from, longer) == Some(Apply(w, m))
  {
    longer := moves + [m];
    assert longer[..|moves|] == moves;
  }
}
