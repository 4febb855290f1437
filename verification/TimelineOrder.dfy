/** What a timeline shows and in which order, said by places in the history and not by the scan that builds it. */
module TimelineOrder {
  import opened Wrappers
  import opened T = Timeline
  import S = Sequences

  /** Message `slot` of visit `visit`, or, for slot -1, the marker before its messages. */
  datatype Place = Place(visit: nat, slot: int)

  predicate Before(p: Place, q: Place) {
    p.visit < q.visit || (p.visit == q.visit && p.slot < q.slot)
  }

  /** No message before message k of visit i has its id. */
  predicate FirstOfItsId(h: seq<Visit>, i: nat, k: nat)
    requires i < |h| && k < |h[i].messages|
  {
    h[i].messages[k].id.None? ||
    ((forall n :: 0 <= n < k ==> h[i].messages[n].id != h[i].messages[k].id) &&
     (forall v, m :: v in h[..i] && m in v.messages ==> m.id != h[i].messages[k].id))
  }

  /** Visit i and the one before it both hold messages with ids, and have no id in common. */
  predicate NothingLeftOver(h: seq<Visit>, i: nat)
    requires i < |h|
  {
    i > 0 && (exists m :: m in h[i - 1].messages && m.id.Some?) && (exists m :: m in h[i].messages && m.id.Some?) &&
    forall m, n :: m in h[i - 1].messages && n in h[i].messages && m.id.Some? ==> m.id != n.id
  }

  /** What has its place in the timeline. */
  predicate Due(h: seq<Visit>, p: Place) {
    p.visit < |h| &&
    if p.slot == -1 then NothingLeftOver(h, p.visit)
    else 0 <= p.slot < |h[p.visit].messages| && FirstOfItsId(h, p.visit, p.slot)
  }

  /** The item for a place: the whole message, content and all, under its checkpoint. */
  predicate StandsFor(h: seq<Visit>, p: Place, item: Item) {
    p.visit < |h| &&
    if p.slot == -1 then item == SummarizationMarker(h[p.visit].cid)
    else 0 <= p.slot < |h[p.visit].messages| && item == Shown(h[p.visit].messages[p.slot], h[p.visit].cid)
  }

  /** The items are those of the places, the places are in order, and they are exactly the ones due. */
  ghost predicate Lists(h: seq<Visit>, items: seq<Item>, places: seq<Place>) {
    |places| == |items| &&
    (forall j :: 0 <= j < |items| ==> StandsFor(h, places[j], items[j])) &&
    (forall j, k :: 0 <= j < k < |places| ==> Before(places[j], places[k])) &&
    (forall p :: p in places <==> Due(h, p))
  }

  // ---- One visit ----

  lemma {:induction false} FreshLast(ms: seq<Message>, m: Message, seen: set<string>, cid: string)
    ensures Fresh(ms + [m], seen, cid) ==
            Fresh(ms, seen, cid) + if m.id.Some? && m.id.value in seen + Ids(ms) then [] else [Shown(m, cid)]
  {
    if ms == [] {
      assert [] + [m] == [m] && [m][1..] == [];
    } else {
      S.TailOfConcat(ms, [m]);
      IdsStep(ms);
      var seen' := if ms[0].id.Some? then seen + {ms[0].id.value} else seen;
      FreshLast(ms[1..], m, seen, cid);
      FreshLast(ms[1..], m, seen', cid);
      assert seen' + Ids(ms[1..]) == seen + Ids(ms);
    }
  }

  predicate NewAt(ms: seq<Message>, seen: set<string>, k: nat)
    requires k < |ms|
  {
    ms[k].id.None? || (ms[k].id.value !in seen && forall n :: 0 <= n < k ==> ms[n].id != ms[k].id)
  }

  /** The slots shown of one visit. */
  ghost predicate ListsSlots(ms: seq<Message>, seen: set<string>, cid: string, items: seq<Item>, slots: seq<nat>) {
    |slots| == |items| &&
    (forall j :: 0 <= j < |items| ==> slots[j] < |ms| && items[j] == Shown(ms[slots[j]], cid)) &&
    (forall j, k :: 0 <= j < k < |slots| ==> slots[j] < slots[k]) &&
    (forall k: nat :: k in slots <==> k < |ms| && NewAt(ms, seen, k))
  }

  lemma {:induction false} FreshSlots(ms: seq<Message>, seen: set<string>, cid: string) returns (slots: seq<nat>)
    ensures ListsSlots(ms, seen, cid, Fresh(ms, seen, cid), slots)
  {
    if ms == [] {
      slots := [];
    } else {
      var init, m := ms[..|ms| - 1], ms[|ms| - 1];
      assert ms == init + [m];
      slots := FreshSlots(init, seen, cid);
      FreshLast(init, m, seen, cid);
      var shown := !(m.id.Some? && m.id.value in seen + Ids(init));
      assert shown <==> NewAt(ms, seen, |init|);
      hide Fresh, Ids;
      SlotsStep(init, m, seen, cid, Fresh(init, seen, cid), slots);
      slots := slots + if shown then [|init|] else [];
    }
  }

  lemma SlotsStep(init: seq<Message>, m: Message, seen: set<string>, cid: string, items: seq<Item>, slots: seq<nat>)
    requires ListsSlots(init, seen, cid, items, slots)
    ensures var new_ := NewAt(init + [m], seen, |init|);
            ListsSlots(init + [m], seen, cid, items + (if new_ then [Shown(m, cid)] else []),
                       slots + if new_ then [|init|] else [])
  {
    var ms := init + [m];
    assert forall k :: 0 <= k < |init| ==> ms[k] == init[k];
    assert forall k :: 0 <= k < |init| ==> (NewAt(ms, seen, k) <==> NewAt(init, seen, k));
  }

  // ---- One more visit ----

  lemma {:induction false} InAllIds(h: seq<Visit>, id: string)
    ensures id in AllIds(h) <==> exists v, m :: v in h && m in v.messages && m.id == Some(id)
  {
    if h != [] {
      InAllIds(h[1..], id);
      S.HeadAndTail(h);
    }
  }

  lemma TimelineLast(init: seq<Visit>, v: Visit)
    ensures T.Timeline(init + [v]) ==
            T.Timeline(init) + ((if Wiped(LastIds(init, {}), Ids(v.messages)) then [SummarizationMarker(v.cid)] else []) +
                              Fresh(v.messages, AllIds(init), v.cid))
  {
    BuildConcat(init, [v], {}, {});
    assert {} + AllIds(init) == AllIds(init);
    hide Fresh, Ids, AllIds, Wiped;
    assert [v][1..] == [];
    var prev, curr := LastIds(init, {}), Ids(v.messages);
    S.Empty((if Wiped(prev, curr) then [SummarizationMarker(v.cid)] else []) + Fresh(v.messages, AllIds(init), v.cid));
  }

  lemma MarkIsDue(init: seq<Visit>, v: Visit)
    ensures NothingLeftOver(init + [v], |init|) <==> Wiped(LastIds(init, {}), Ids(v.messages))
  {
    var h := init + [v];
    if init != [] {
      var a, b := h[|init| - 1].messages, v.messages;
      assert LastIds(init, {}) == Ids(a);
      IdsThere(a);
      IdsThere(b);
      IdsApart(a, b);
    }
  }

  lemma IdsThere(ms: seq<Message>)
    ensures (exists m :: m in ms && m.id.Some?) <==> Ids(ms) != {}
  {
    if m :| m in ms && m.id.Some? { assert m.id.value in Ids(ms); }
  }

  lemma IdsApart(a: seq<Message>, b: seq<Message>)
    ensures (forall m, n :: m in a && n in b && m.id.Some? ==> m.id != n.id) <==> Ids(a) !! Ids(b)
  {
    if m, n :| m in a && n in b && m.id.Some? && m.id == n.id {
      assert m.id.value in Ids(a) && m.id.value in Ids(b);
    }
  }

  lemma SlotIsDue(init: seq<Visit>, v: Visit, k: nat)
    requires k < |v.messages|
    ensures FirstOfItsId(init + [v], |init|, k) <==> NewAt(v.messages, AllIds(init), k)
  {
    assert (init + [v])[..|init|] == init;
    if v.messages[k].id.Some? { InAllIds(init, v.messages[k].id.value); }
  }

  lemma EarlierPlace(init: seq<Visit>, v: Visit, p: Place)
    requires p.visit < |init|
    ensures Due(init + [v], p) <==> Due(init, p)
    ensures forall item :: StandsFor(init + [v], p, item) <==> StandsFor(init, p, item)
  {
    var h := init + [v];
    assert h[..p.visit] == init[..p.visit];
  }

  /** The places one visit takes. */
  function PlacesOf(i: nat, marked: bool, slots: seq<nat>): seq<Place> {
    (if marked then [Place(i, -1)] else []) + seq(|slots|, j requires 0 <= j < |slots| => Place(i, slots[j]))
  }

  function ItemsOf(v: Visit, marked: bool, fresh_: seq<Item>): seq<Item> {
    (if marked then [SummarizationMarker(v.cid)] else []) + fresh_
  }

  lemma VisitStands(init: seq<Visit>, v: Visit, seen: set<string>, marked: bool, fresh_: seq<Item>, slots: seq<nat>)
    requires ListsSlots(v.messages, seen, v.cid, fresh_, slots)
    ensures var h, items, places := init + [v], ItemsOf(v, marked, fresh_), PlacesOf(|init|, marked, slots);
            |items| == |places| &&
            (forall j :: 0 <= j < |items| ==> StandsFor(h, places[j], items[j]) && places[j].visit == |init|) &&
            (forall j, k :: 0 <= j < k < |places| ==> Before(places[j], places[k]))
  {}

  lemma VisitPlaces(h: seq<Visit>, i: nat, seen: set<string>, marked: bool, slots: seq<nat>, slot: int)
    requires i < |h| && (marked <==> NothingLeftOver(h, i))
    requires forall k: nat :: k in slots <==> k < |h[i].messages| && FirstOfItsId(h, i, k)
    ensures Place(i, slot) in PlacesOf(i, marked, slots) <==> Due(h, Place(i, slot))
  {
    hide FirstOfItsId, NothingLeftOver;
    InPlaces(i, marked, slots, slot);
  }

  lemma InPlaces(i: nat, marked: bool, slots: seq<nat>, slot: int)
    ensures Place(i, slot) in PlacesOf(i, marked, slots) <==> (slot == -1 && marked) || (slot >= 0 && slot as nat in slots)
  {
    var places := PlacesOf(i, marked, slots);
    var off := if marked then 1 else 0;
    if slot >= 0 && slot as nat in slots {
      var j :| 0 <= j < |slots| && slots[j] == slot;
      assert places[off + j] == Place(i, slot);
    }
  }

  /** What the last visit adds: items, and places for them. */
  function Added(init: seq<Visit>, v: Visit): seq<Item> {
    ItemsOf(v, Wiped(LastIds(init, {}), Ids(v.messages)), Fresh(v.messages, AllIds(init), v.cid))
  }

  ghost predicate Adds(init: seq<Visit>, v: Visit, more: seq<Item>, places: seq<Place>) {
    |more| == |places| &&
    (forall j :: 0 <= j < |more| ==> StandsFor(init + [v], places[j], more[j]) && places[j].visit == |init|) &&
    (forall j, k :: 0 <= j < k < |places| ==> Before(places[j], places[k])) &&
    (forall slot :: Place(|init|, slot) in places <==> Due(init + [v], Place(|init|, slot)))
  }

  lemma LastVisit(init: seq<Visit>, v: Visit) returns (places: seq<Place>)
    ensures Adds(init, v, Added(init, v), places)
  {
    var marked := Wiped(LastIds(init, {}), Ids(v.messages));
    var seen := AllIds(init);
    MarkIsDue(init, v);
    var slots := FreshSlots(v.messages, seen, v.cid);
    forall k: nat ensures k in slots <==> k < |v.messages| && FirstOfItsId(init + [v], |init|, k) {
      if k < |v.messages| { SlotIsDue(init, v, k); }
      hide FirstOfItsId, NewAt, AllIds;
    }
    VisitStands(init, v, seen, marked, Fresh(v.messages, seen, v.cid), slots);
    hide *;
    places := PlacesOf(|init|, marked, slots);
    forall slot ensures Place(|init|, slot) in places <==> Due(init + [v], Place(|init|, slot)) {
      VisitPlaces(init + [v], |init|, seen, marked, slots, slot);
    }
  }

  lemma StandMore(init: seq<Visit>, v: Visit, items: seq<Item>, places: seq<Place>, more: seq<Item>, morePlaces: seq<Place>)
    requires Lists(init, items, places) && Adds(init, v, more, morePlaces)
    ensures forall j :: 0 <= j < |items + more| ==> StandsFor(init + [v], (places + morePlaces)[j], (items + more)[j])
    ensures forall j :: 0 <= j < |places| ==> places[j].visit < |init|
  {
    forall j | 0 <= j < |items| ensures StandsFor(init + [v], places[j], items[j]) && places[j].visit < |init| {
      assert StandsFor(init, places[j], items[j]);
      EarlierPlace(init, v, places[j]);
      hide Due;
    }
    hide StandsFor, Due;
  }

  lemma OrderMore(n: nat, places: seq<Place>, morePlaces: seq<Place>)
    requires forall j, k :: 0 <= j < k < |places| ==> Before(places[j], places[k])
    requires forall j, k :: 0 <= j < k < |morePlaces| ==> Before(morePlaces[j], morePlaces[k])
    requires forall j :: 0 <= j < |places| ==> places[j].visit < n
    requires forall j :: 0 <= j < |morePlaces| ==> morePlaces[j].visit == n
    ensures var all := places + morePlaces; forall j, k :: 0 <= j < k < |all| ==> Before(all[j], all[k])
  {}

  lemma ListsMore(init: seq<Visit>, v: Visit, items: seq<Item>, places: seq<Place>, more: seq<Item>, morePlaces: seq<Place>)
    requires Lists(init, items, places) && Adds(init, v, more, morePlaces)
    ensures Lists(init + [v], items + more, places + morePlaces)
  {
    hide Due, StandsFor, Before;
    forall p: Place ensures p in places + morePlaces <==> Due(init + [v], p) {
      DueMore(init, v, items, places, more, morePlaces, p);
    }
    StandMore(init, v, items, places, more, morePlaces);
    OrderMore(|init|, places, morePlaces);
  }

  lemma DueMore(init: seq<Visit>, v: Visit, items: seq<Item>, places: seq<Place>, more: seq<Item>, morePlaces: seq<Place>, p: Place)
    requires Lists(init, items, places) && Adds(init, v, more, morePlaces)
    ensures p in places + morePlaces <==> Due(init + [v], p)
  {
    if p.visit < |init| {
      EarlierPlace(init, v, p);
    } else if p.visit == |init| {
      assert p == Place(|init|, p.slot);
      assert p !in places by { assert !Due(init, p); }
    }
    hide NothingLeftOver, FirstOfItsId, StandsFor;
  }

  /** Main result: each item of a timeline stands for a place in the history; the items follow the order of the
      places; and what is shown is exactly the messages whose id did not occur before them, whole and under their
      checkpoint, with a marker before those visits that share no id with the one before. */
  lemma {:induction false} TimelineInOrder(h: seq<Visit>) returns (places: seq<Place>)
    ensures Lists(h, T.Timeline(h), places)
  {
    if h == [] {
      places := [];
    } else {
      var init, v := h[..|h| - 1], h[|h| - 1];
      assert h == init + [v];
      places := TimelineInOrder(init);
      TimelineLast(init, v);
      assert T.Timeline(h) == T.Timeline(init) + Added(init, v);
      hide *;
      var more := LastVisit(init, v);
      ListsMore(init, v, T.Timeline(init), places, Added(init, v), more);
      places := places + more;
    }
  }
}
