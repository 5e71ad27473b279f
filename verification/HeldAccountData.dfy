/**
 * Room account data that arrives before its room is known (src/nio/client/sliding_sync.py): the latest event
 * of each wire type is held and handed over by the first response that ends with the room known.
 */
module HeldAccountData {
  import opened Wrappers
  import opened Sequences

  type RoomId = string

  /** One account-data event; `event` identifies it, the wire type may be missing or no string. */
  datatype Item = Item(wireType: Option<string>, event: nat)

  /** One entry of the per-room dict, which keeps the position of a type's first event. */
  datatype Entry = Entry(wireType: string, event: nat)

  /** A response: its account data by room, and the client's rooms once it is processed. */
  datatype Response = Response(data: map<RoomId, seq<Item>>, known: set<RoomId>)

  /** Assigning to a key of an ordered dict. */
  function Put(held: seq<Entry>, t: string, event: nat): seq<Entry> {
    if held == [] then [Entry(t, event)]
    else if held[0].wireType == t then [Entry(t, event)] + held[1..]
    else [held[0]] + Put(held[1..], t, event)
  }

  function Absorb(held: seq<Entry>, items: seq<Item>): seq<Entry> {
    if items == [] then held
    else
      var before := Absorb(held, items[..|items| - 1]);
      var last := items[|items| - 1];
      if last.wireType.Some? then Put(before, last.wireType.value, last.event) else before
  }

  function HeldFor(pending: map<RoomId, seq<Entry>>, room: RoomId): seq<Entry> {
    if room in pending then pending[room] else []
  }

  function ItemsFor(response: Response, room: RoomId): seq<Item> {
    if room in response.data then response.data[room] else []
  }

  function Collected(pending: map<RoomId, seq<Entry>>, response: Response): map<RoomId, seq<Entry>> {
    map r | r in pending.Keys + response.data.Keys :: Absorb(HeldFor(pending, r), ItemsFor(response, r))
  }

  /** What one response leaves pending and what it hands to each room. */
  function Process(pending: map<RoomId, seq<Entry>>, response: Response)
    : (map<RoomId, seq<Entry>>, map<RoomId, seq<Entry>>)
  {
    var all := Collected(pending, response);
    (all - response.known, Within(all, response.known))
  }

  /** One account-data item handed to the application. */
  datatype Delivery = Delivery(room: RoomId, entry: Entry)

  /** The rooms of an ordered dict after assignments to these rooms. */
  function AddRooms(order: seq<RoomId>, rooms: seq<RoomId>): seq<RoomId> {
    if rooms == [] then order
    else
      var before := AddRooms(order, rooms[..|rooms| - 1]);
      if rooms[|rooms| - 1] in before then before else before + [rooms[|rooms| - 1]]
  }

  /** The rooms that stay after the known ones were popped. */
  function Unknown(order: seq<RoomId>, known: set<RoomId>): seq<RoomId> {
    if order == [] then []
    else
      var before := Unknown(order[..|order| - 1], known);
      if order[|order| - 1] in known then before else before + [order[|order| - 1]]
  }

  function Tagged(room: RoomId, entries: seq<Entry>): seq<Delivery> {
    seq(|entries|, i requires 0 <= i < |entries| => Delivery(room, entries[i]))
  }

  /** The known rooms in the order of the dict, each with its entries in their order. */
  function HandOver(pending: map<RoomId, seq<Entry>>, order: seq<RoomId>, known: set<RoomId>): seq<Delivery> {
    if order == [] then []
    else
      var before, room := HandOver(pending, order[..|order| - 1], known), order[|order| - 1];
      if room in known then before + Tagged(room, HeldFor(pending, room)) else before
  }

  class AccountDataHolder {
    var pending: map<RoomId, seq<Entry>>
    var order: seq<RoomId>

    ghost predicate Valid()
      reads this
    {
      NoDuplicates(order) && forall room :: room in order <==> room in pending
    }

    constructor ()
      ensures Valid() && pending == map[] && order == []
    {
      pending, order := map[], [];
    }

    /** The account-data part of `iter_sliding_sync`; `listed` is the order of the response's rooms. */
    method Handle(response: Response, listed: seq<RoomId>) returns (delivered: seq<Delivery>)
      requires Valid() && Elements(listed) == response.data.Keys && NoDuplicates(listed)
      modifies this
      ensures Valid() && pending == Process(old(pending), response).0
      ensures order == Unknown(AddRooms(old(order), listed), response.known)
      ensures delivered == HandOver(Collected(old(pending), response), AddRooms(old(order), listed), response.known)
    {
      HoldAll(response, listed);
      delivered := Release(response.known);
    }

    method HoldAll(response: Response, listed: seq<RoomId>)
      requires Valid() && Elements(listed) == response.data.Keys && NoDuplicates(listed)
      modifies this
      ensures Valid() && pending == Collected(old(pending), response) && order == AddRooms(old(order), listed)
    {
      ghost var start := pending;
      ghost var todo := response.data.Keys;
      NothingHeldYet(start, response);
      assert forall room :: room in listed <==> room in Elements(listed);
      for i := 0 to |listed|
        invariant Valid() && order == AddRooms(old(order), listed[..i])
        invariant todo == Elements(listed[i..]) <= response.data.Keys
        invariant pending == PartlyHeld(start, response, todo)
      {
        SplitAround(listed, i);
        HoldOne(start, response, todo, listed[i]);
        ghost var next := PartlyHeld(start, response, todo - {listed[i]});
        HoldRoom(listed[i], response.data[listed[i]]);
        assert pending == next;
        todo := todo - {listed[i]};
      }
      assert listed[..|listed|] == listed && todo == {};
      AllHeld(start, response);
    }

    /** One turn of the collecting loop. */
    method HoldRoom(room: RoomId, items: seq<Item>)
      requires Valid()
      modifies this
      ensures Valid() && pending == old(pending)[room := Absorb(HeldFor(old(pending), room), items)]
      ensures order == if room in old(order) then old(order) else old(order) + [room]
    {
      AppendDistinct(order, room);
      var held := AbsorbAll(if room in pending then pending[room] else [], items);
      if room !in pending {
        order := order + [room];
      }
      pending := pending[room := held];
    }

    method Release(known: set<RoomId>) returns (delivered: seq<Delivery>)
      requires Valid()
      modifies this
      ensures Valid() && pending == old(pending) - known && order == Unknown(old(order), known)
      ensures delivered == HandOver(old(pending), old(order), known)
    {
      delivered := [];
      var rooms := order;
      ghost var start := pending;
      NothingReleased(start, rooms, known);
      for i := 0 to |rooms|
        invariant (pending, order) == Released(start, rooms, known, i)
        invariant delivered == HandOver(start, rooms[..i], known)
      {
        assert rooms[..i + 1][..i] == rooms[..i];
        ReleaseNext(start, rooms, known, i);
        if rooms[i] in known {
          var entries := Pop(rooms[i]);
          delivered := delivered + Tagged(rooms[i], entries);
        }
      }
      assert rooms[..|rooms|] == rooms;
      AllReleased(start, rooms, known);
    }

    method Pop(room: RoomId) returns (entries: seq<Entry>)
      requires room in pending
      modifies this
      ensures entries == old(pending)[room]
      ensures pending == old(pending) - {room} && order == Without(old(order), room)
    {
      entries := pending[room];
      pending, order := pending - {room}, Without(order, room);
    }
  }

  /** The dict, and its order, after the known ones among the first `i` rooms were popped. */
  ghost function Released(start: map<RoomId, seq<Entry>>, rooms: seq<RoomId>, known: set<RoomId>, i: nat)
    : (map<RoomId, seq<Entry>>, seq<RoomId>)
    requires i <= |rooms|
  {
    (start - (known * Elements(rooms[..i])), Unknown(rooms[..i], known) + rooms[i..])
  }

  lemma NothingReleased(start: map<RoomId, seq<Entry>>, rooms: seq<RoomId>, known: set<RoomId>)
    ensures Released(start, rooms, known, 0) == (start, rooms)
  {
    assert start - (known * Elements(rooms[..0])) == start && Unknown(rooms[..0], known) + rooms[0..] == rooms;
  }

  lemma ReleaseNext(start: map<RoomId, seq<Entry>>, rooms: seq<RoomId>, known: set<RoomId>, i: nat)
    requires NoDuplicates(rooms) && i < |rooms| && forall room :: room in rooms <==> room in start
    ensures var (pending, order) := Released(start, rooms, known, i);
            && rooms[i] in pending && pending[rooms[i]] == HeldFor(start, rooms[i])
            && Released(start, rooms, known, i + 1) ==
               if rooms[i] in known then (pending - {rooms[i]}, Without(order, rooms[i])) else (pending, order)
  {
    PopNext(rooms, known, i);
    PopPending(start, rooms, known, i);
  }

  lemma PopAll(start: map<RoomId, seq<Entry>>, known: set<RoomId>)
    ensures start - (known * start.Keys) == start - known
  {
  }

  lemma AllReleased(start: map<RoomId, seq<Entry>>, rooms: seq<RoomId>, known: set<RoomId>)
    requires NoDuplicates(rooms) && forall room :: room in rooms <==> room in start
    ensures Released(start, rooms, known, |rooms|) == (start - known, Unknown(rooms, known))
    ensures NoDuplicates(Unknown(rooms, known)) && forall room :: room in Unknown(rooms, known) <==> room in start - known
  {
    assert Elements(rooms) == start.Keys;
    PopAll(start, known);
    assert rooms[..|rooms|] == rooms && Unknown(rooms, known) + rooms[|rooms|..] == Unknown(rooms, known);
    UnknownExact(rooms, known);
  }

  /** The next room of the walk, popped from the dict if it is known. */
  lemma PopPending(start: map<RoomId, seq<Entry>>, rooms: seq<RoomId>, known: set<RoomId>, i: nat)
    requires NoDuplicates(rooms) && i < |rooms| && forall room :: room in rooms <==> room in start
    ensures var now := start - (known * Elements(rooms[..i]));
            && rooms[i] in now && now[rooms[i]] == HeldFor(start, rooms[i])
            && start - (known * Elements(rooms[..i + 1])) == if rooms[i] in known then now - {rooms[i]} else now
  {
    SplitAround(rooms, i);
    assert rooms[i] !in Elements(rooms[..i]);
  }

  /** The next room of the walk, popped from the order if it is known. */
  lemma PopNext(rooms: seq<RoomId>, known: set<RoomId>, i: nat)
    requires NoDuplicates(rooms) && i < |rooms|
    ensures Unknown(rooms[..i + 1], known) + rooms[i + 1..] ==
              if rooms[i] in known then Without(Unknown(rooms[..i], known) + rooms[i..], rooms[i])
              else Unknown(rooms[..i], known) + rooms[i..]
  {
    SplitAround(rooms, i);
    UnknownExact(rooms[..i], known);
    var left, room, after := Unknown(rooms[..i], known), rooms[i], rooms[i + 1..];
    assert left + rooms[i..] == left + [room] + after;
    if room in known {
      WithoutMiddle(left, room, after);
    }
  }

  lemma {:induction false} UnknownExact(order: seq<RoomId>, known: set<RoomId>)
    requires NoDuplicates(order)
    ensures NoDuplicates(Unknown(order, known))
    ensures forall room :: room in Unknown(order, known) <==> room in order && room !in known
  {
    if order != [] {
      var before, last := order[..|order| - 1], order[|order| - 1];
      assert order == before + [last];
      UnknownExact(before, known);
      AppendDistinct(Unknown(before, known), last);
    }
  }

  /** Rooms that were held before keep their place; new ones follow in the order of the response. */
  lemma {:induction false} AddRoomsExact(order: seq<RoomId>, rooms: seq<RoomId>)
    requires NoDuplicates(order) && NoDuplicates(rooms)
    ensures var r := AddRooms(order, rooms);
            && NoDuplicates(r) && |order| <= |r| && r[..|order|] == order
            && (forall x :: x in r <==> x in order || x in rooms)
            && (forall a :: |order| <= a < |r| ==> r[a] in rooms)
            && (forall a, b :: |order| <= a < b < |r| ==> FirstIndex(rooms, r[a]) < FirstIndex(rooms, r[b]))
  {
    if rooms != [] {
      var before, last := rooms[..|rooms| - 1], rooms[|rooms| - 1];
      assert rooms == before + [last];
      DistinctParts(before, [last]);
      assert last in [last];
      AddRoomsExact(order, before);
      var r := AddRooms(order, before);
      AppendDistinct(r, last);
      forall a | |order| <= a < |r| ensures FirstIndex(rooms, r[a]) == FirstIndex(before, r[a]) < |before| {
        FirstIndexExtends(before, last, r[a]);
      }
      FirstIndexExtends(before, last, last);
    }
  }

  /** Where a room first occurs is not moved by one more room that is new. */
  lemma OneMoreRoom(before: seq<RoomId>, last: RoomId, room: RoomId)
    requires last !in before
    ensures room in before ==> FirstIndex(before + [last], room) == FirstIndex(before, room) < |before|
    ensures FirstIndex(before + [last], last) >= |before|
  {
    FirstIndexExtends(before, last, room);
    FirstIndexExtends(before, last, last);
  }

  /** What stays held keeps its order. */
  lemma {:induction false} UnknownInOrder(order: seq<RoomId>, known: set<RoomId>)
    requires NoDuplicates(order)
    ensures forall a, b :: 0 <= a < b < |Unknown(order, known)| ==>
              FirstIndex(order, Unknown(order, known)[a]) < FirstIndex(order, Unknown(order, known)[b])
  {
    if order != [] {
      var before, last := order[..|order| - 1], order[|order| - 1];
      SplitAround(order, |order| - 1);
      assert order == before + [last];
      UnknownInOrder(before, known);
      UnknownExact(before, known);
      var r, all := Unknown(before, known), Unknown(order, known);
      forall a, b | 0 <= a < b < |all| ensures FirstIndex(order, all[a]) < FirstIndex(order, all[b]) {
        assert all[a] == r[a] && r[a] in r;
        OneMoreRoom(before, last, all[a]);
        if b < |r| {
          assert r[b] in r;
          OneMoreRoom(before, last, r[b]);
        }
      }
    }
  }

  /** Items are handed over room by room, in the order in which the rooms are held. */
  lemma {:induction false} HandOverInOrder(pending: map<RoomId, seq<Entry>>, order: seq<RoomId>, known: set<RoomId>)
    requires NoDuplicates(order)
    ensures forall a :: 0 <= a < |HandOver(pending, order, known)| ==>
              HandOver(pending, order, known)[a].room in order && HandOver(pending, order, known)[a].room in known
    ensures forall a, b :: 0 <= a < b < |HandOver(pending, order, known)| ==>
              FirstIndex(order, HandOver(pending, order, known)[a].room) <= FirstIndex(order, HandOver(pending, order, known)[b].room)
  {
    if order != [] {
      var before, last := order[..|order| - 1], order[|order| - 1];
      SplitAround(order, |order| - 1);
      assert order == before + [last];
      HandOverInOrder(pending, before, known);
      var out, all := HandOver(pending, before, known), HandOver(pending, order, known);
      forall a | 0 <= a < |all|
        ensures all[a].room in order && all[a].room in known
        ensures a >= |out| ==> all[a].room == last
        ensures a < |out| ==> all[a].room in before && FirstIndex(order, all[a].room) == FirstIndex(before, all[a].room)
      {
        if a < |out| {
          assert all[a] == out[a] && out[a].room in before;
          OneMoreRoom(before, last, out[a].room);
        }
      }
      forall a, b | 0 <= a < b < |all| ensures FirstIndex(order, all[a].room) <= FirstIndex(order, all[b].room) {
        if a < |out| {
          OneMoreRoom(before, last, all[a].room);
        }
        if b < |out| {
          assert all[a] == out[a] && all[b] == out[b];
        }
      }
    }
  }

  /** What is handed to one room. */
  function ForRoom(out: seq<Delivery>, room: RoomId): seq<Entry> {
    if out == [] then []
    else
      var before := ForRoom(out[..|out| - 1], room);
      if out[|out| - 1].room == room then before + [out[|out| - 1].entry] else before
  }

  lemma {:induction false} ForRoomSplit(a: seq<Delivery>, b: seq<Delivery>, room: RoomId)
    ensures ForRoom(a + b, room) == ForRoom(a, room) + ForRoom(b, room)
  {
    if b == [] {
      assert a + b == a;
    } else {
      assert (a + b)[..|a + b| - 1] == a + b[..|b| - 1];
      ForRoomSplit(a, b[..|b| - 1], room);
    }
  }

  lemma {:induction false} ForRoomTagged(at: RoomId, entries: seq<Entry>, room: RoomId)
    ensures ForRoom(Tagged(at, entries), room) == if at == room then entries else []
  {
    if entries != [] {
      var before, last := entries[..|entries| - 1], entries[|entries| - 1];
      assert Tagged(at, entries)[..|entries| - 1] == Tagged(at, before);
      ForRoomTagged(at, before, room);
      assert entries == before + [last];
    }
  }

  /** Each room is handed exactly its own entries, in their order: those held for it, if it is known. */
  lemma {:induction false} EachRoomGetsItsOwn(pending: map<RoomId, seq<Entry>>, order: seq<RoomId>, known: set<RoomId>, room: RoomId)
    requires NoDuplicates(order)
    ensures ForRoom(HandOver(pending, order, known), room) ==
              if room in order && room in known then HeldFor(pending, room) else []
  {
    if order != [] {
      var before, last := order[..|order| - 1], order[|order| - 1];
      assert order == before + [last];
      DistinctParts(before, [last]);
      EachRoomGetsItsOwn(pending, before, known, room);
      ForRoomSplit(HandOver(pending, before, known), Tagged(last, HeldFor(pending, last)), room);
      ForRoomTagged(last, HeldFor(pending, last), room);
      assert last in [last];
    }
  }

  function Within(m: map<RoomId, seq<Entry>>, rooms: set<RoomId>): map<RoomId, seq<Entry>> {
    map r | r in m && r in rooms :: m[r]
  }

  /** The pending map while the rooms `todo` of the response are still to be absorbed. */
  ghost function PartlyHeld(start: map<RoomId, seq<Entry>>, response: Response, todo: set<RoomId>): map<RoomId, seq<Entry>> {
    map r | r in start.Keys + (response.data.Keys - todo) ::
      if r in todo then HeldFor(start, r) else Absorb(HeldFor(start, r), ItemsFor(response, r))
  }

  lemma NothingHeldYet(start: map<RoomId, seq<Entry>>, response: Response)
    ensures PartlyHeld(start, response, response.data.Keys) == start
  {
  }

  lemma AllHeld(start: map<RoomId, seq<Entry>>, response: Response)
    ensures PartlyHeld(start, response, {}) == Collected(start, response)
  {
  }

  lemma HoldOne(start: map<RoomId, seq<Entry>>, response: Response, todo: set<RoomId>, room: RoomId)
    requires room in todo && todo <= response.data.Keys
    ensures HeldFor(PartlyHeld(start, response, todo), room) == HeldFor(start, room)
    ensures PartlyHeld(start, response, todo - {room})
            == PartlyHeld(start, response, todo)[room := Absorb(HeldFor(start, room), response.data[room])]
  {
  }

  method AbsorbAll(start: seq<Entry>, items: seq<Item>) returns (held: seq<Entry>)
    ensures held == Absorb(start, items)
  {
    held := start;
    for i := 0 to |items|
      invariant held == Absorb(start, items[..i])
    {
      assert items[..i + 1][..i] == items[..i];
      if items[i].wireType.Some? {
        held := Put(held, items[i].wireType.value, items[i].event);
      }
    }
    assert items[..|items|] == items;
  }

  // ----- What a held list means -----

  /** The item at this index is the last of its wire type. */
  ghost predicate LastOfType(items: seq<Item>, i: nat, t: string)
    requires i < |items|
  {
    items[i].wireType == Some(t) && forall j :: i < j < |items| ==> items[j].wireType != Some(t)
  }

  /** The wire type of each item. */
  function WireTypes(items: seq<Item>): seq<Option<string>> {
    seq(|items|, i requires 0 <= i < |items| => items[i].wireType)
  }

  ghost predicate Occurs(items: seq<Item>, t: string) {
    Some(t) in WireTypes(items)
  }

  function FirstOf(items: seq<Item>, t: string): nat {
    FirstIndex(WireTypes(items), Some(t))
  }

  ghost predicate TypesDistinct(held: seq<Entry>) {
    forall a, b :: 0 <= a < b < |held| ==> held[a].wireType != held[b].wireType
  }

  /** The list holds exactly the last event of each type that occurs, in the order types first occur. */
  ghost predicate IsLatest(held: seq<Entry>, items: seq<Item>) {
    && TypesDistinct(held)
    && (forall e :: e in held ==> exists i :: 0 <= i < |items| && LastOfType(items, i, e.wireType) && items[i].event == e.event)
    && (forall t :: Occurs(items, t) ==> exists e :: e in held && e.wireType == t)
    && (forall a, b :: 0 <= a < b < |held| ==> FirstOf(items, held[a].wireType) < FirstOf(items, held[b].wireType))
  }

  /** Assignment replaces the type's entry in place, or appends a new one. */
  lemma {:induction false} PutShape(held: seq<Entry>, t: string, event: nat) returns (k: nat)
    ensures k <= |held| && forall a :: 0 <= a < k ==> held[a].wireType != t
    ensures k < |held| ==> held[k].wireType == t && Put(held, t, event) == held[k := Entry(t, event)]
    ensures k == |held| ==> Put(held, t, event) == held + [Entry(t, event)]
  {
    if held == [] || held[0].wireType == t {
      k := 0;
    } else {
      var rest := held[1..];
      var j := PutShape(rest, t, event);
      k := j + 1;
      assert held == [held[0]] + rest;
    }
  }

  lemma FirstOfExtends(items: seq<Item>, x: Item, t: string)
    ensures Occurs(items, t) ==> FirstOf(items + [x], t) == FirstOf(items, t) && FirstOf(items, t) < |items|
    ensures !Occurs(items, t) ==> FirstOf(items + [x], t) >= |items|
    ensures Occurs(items + [x], t) <==> Occurs(items, t) || x.wireType == Some(t)
  {
    assert WireTypes(items + [x]) == WireTypes(items) + [x.wireType];
    FirstIndexExtends(WireTypes(items), x.wireType, Some(t));
  }

  lemma {:induction false} AbsorbIsLatest(items: seq<Item>)
    ensures IsLatest(Absorb([], items), items)
  {
    if items != [] {
      var before := items[..|items| - 1];
      var x := items[|items| - 1];
      assert items == before + [x];
      AbsorbIsLatest(before);
      LatestStep(Absorb([], before), before, x);
    }
  }

  /** What the next item makes of the held list. */
  function Hold(held: seq<Entry>, x: Item): seq<Entry> {
    if x.wireType.Some? then Put(held, x.wireType.value, x.event) else held
  }

  lemma LatestStep(held: seq<Entry>, before: seq<Item>, x: Item)
    requires IsLatest(held, before)
    ensures IsLatest(Hold(held, x), before + [x])
  {
    var items, r := before + [x], Hold(held, x);
    LatestOrder(held, before, x);
    forall e | e in r
      ensures exists i :: 0 <= i < |items| && LastOfType(items, i, e.wireType) && items[i].event == e.event
    {
      LatestEvent(held, before, x, e);
    }
    forall t | Occurs(items, t) ensures exists e :: e in r && e.wireType == t {
      LatestOccurs(held, before, x, t);
    }
  }

  lemma LatestEvent(held: seq<Entry>, before: seq<Item>, x: Item, e: Entry)
    requires IsLatest(held, before) && e in Hold(held, x)
    ensures exists i :: 0 <= i < |before + [x]| && LastOfType(before + [x], i, e.wireType) && (before + [x])[i].event == e.event
  {
    var items := before + [x];
    if x.wireType.Some? {
      var k := PutShape(held, x.wireType.value, x.event);
    }
    if x.wireType == Some(e.wireType) {
      assert LastOfType(items, |before|, e.wireType);
    } else {
      assert e in held;
      var i :| 0 <= i < |before| && LastOfType(before, i, e.wireType) && before[i].event == e.event;
      assert LastOfType(items, i, e.wireType);
    }
  }

  lemma LatestOccurs(held: seq<Entry>, before: seq<Item>, x: Item, t: string)
    requires IsLatest(held, before) && Occurs(before + [x], t)
    ensures exists e :: e in Hold(held, x) && e.wireType == t
  {
    var r := Hold(held, x);
    if x.wireType == Some(t) {
      var k := PutShape(held, t, x.event);
      assert r[k] == Entry(t, x.event);
    } else {
      FirstOfExtends(before, x, t);
      var e :| e in held && e.wireType == t;
      var a :| 0 <= a < |held| && held[a] == e;
      if x.wireType.Some? {
        var k := PutShape(held, x.wireType.value, x.event);
      }
      assert r[a] == e;
    }
  }

  /** Types stay distinct and in the order of their first occurrence. */
  lemma LatestOrder(held: seq<Entry>, before: seq<Item>, x: Item)
    requires IsLatest(held, before)
    ensures TypesDistinct(Hold(held, x))
    ensures var r := Hold(held, x);
            forall a, b :: 0 <= a < b < |r| ==> FirstOf(before + [x], r[a].wireType) < FirstOf(before + [x], r[b].wireType)
  {
    var r := Hold(held, x);
    forall a | 0 <= a < |held| ensures FirstOf(before + [x], held[a].wireType) == FirstOf(before, held[a].wireType) < |before| {
      assert held[a] in held;
      var i :| 0 <= i < |before| && LastOfType(before, i, held[a].wireType) && before[i].event == held[a].event;
      assert WireTypes(before)[i] == Some(held[a].wireType);
      FirstOfExtends(before, x, held[a].wireType);
    }
    if x.wireType.Some? {
      var t := x.wireType.value;
      var k := PutShape(held, t, x.event);
      if k == |held| {
        assert !Occurs(before, t);
        FirstOfExtends(before, x, t);
      }
    }
  }

  // ----- Whole runs -----

  function Run(responses: seq<Response>): map<RoomId, seq<Entry>> {
    if responses == [] then map[] else Process(Run(responses[..|responses| - 1]), responses[|responses| - 1]).0
  }

  /** What the last response of a run hands to a room. */
  function Delivered(responses: seq<Response>, room: RoomId): seq<Entry>
    requires responses != []
  {
    HeldFor(Process(Run(responses[..|responses| - 1]), responses[|responses| - 1]).1, room)
  }

  /** The room's items that arrived up to and including the last response and after the room was last known. */
  function Outstanding(responses: seq<Response>, room: RoomId): seq<Item> {
    if responses == [] then []
    else
      var before := responses[..|responses| - 1];
      var earlier := if before != [] && room in before[|before| - 1].known then [] else Outstanding(before, room);
      earlier + ItemsFor(responses[|responses| - 1], room)
  }

  lemma {:induction false} AbsorbSplit(a: seq<Item>, b: seq<Item>)
    ensures Absorb([], a + b) == Absorb(Absorb([], a), b)
  {
    if b == [] {
      assert a + b == a;
    } else {
      assert (a + b)[..|a + b| - 1] == a + b[..|b| - 1];
      AbsorbSplit(a, b[..|b| - 1]);
    }
  }

  /** After any run the held list of an unknown room is made of exactly its outstanding items, and no known room has one. */
  lemma {:induction false} PendingIsOutstanding(responses: seq<Response>, room: RoomId)
    requires responses != []
    ensures room in responses[|responses| - 1].known ==> room !in Run(responses)
    ensures room !in responses[|responses| - 1].known ==> HeldFor(Run(responses), room) == Absorb([], Outstanding(responses, room))
  {
    CollectedIsOutstanding(responses, room);
  }

  lemma {:induction false} CollectedIsOutstanding(responses: seq<Response>, room: RoomId)
    requires responses != []
    ensures HeldFor(Collected(Run(responses[..|responses| - 1]), responses[|responses| - 1]), room)
            == Absorb([], Outstanding(responses, room))
  {
    var before := responses[..|responses| - 1];
    var last := responses[|responses| - 1];
    if before != [] {
      CollectedIsOutstanding(before, room);
    }
    if before != [] && room !in before[|before| - 1].known {
      AbsorbSplit(Outstanding(before, room), ItemsFor(last, room));
    } else {
      assert [] + ItemsFor(last, room) == ItemsFor(last, room);
    }
  }

  /**
   * A response delivers to a room exactly when it ends with the room known, and then exactly the latest event of
   * each wire type that arrived since the room was last known, in the order the types first came.
   */
  lemma DeliveryIsLatest(responses: seq<Response>, room: RoomId)
    requires responses != []
    ensures room !in responses[|responses| - 1].known ==> Delivered(responses, room) == []
    ensures room in responses[|responses| - 1].known ==> IsLatest(Delivered(responses, room), Outstanding(responses, room))
  {
    CollectedIsOutstanding(responses, room);
    AbsorbIsLatest(Outstanding(responses, room));
  }

  /** Of what the last response hands over, whatever the order of the rooms, a room's part is what is delivered to it. */
  lemma HandOverDelivers(responses: seq<Response>, order: seq<RoomId>, room: RoomId)
    requires responses != [] && NoDuplicates(order)
    requires var all := Collected(Run(responses[..|responses| - 1]), responses[|responses| - 1]);
             forall r :: r in order <==> r in all
    ensures var last := responses[|responses| - 1];
            ForRoom(HandOver(Collected(Run(responses[..|responses| - 1]), last), order, last.known), room)
            == Delivered(responses, room)
  {
    var last := responses[|responses| - 1];
    EachRoomGetsItsOwn(Collected(Run(responses[..|responses| - 1]), last), order, last.known, room);
  }

  // ----- Which response delivers which item -----

  /** The event a list holds for a type. */
  function LatestOf(items: seq<Item>, t: string): Option<nat> {
    if items == [] then None
    else if items[|items| - 1].wireType == Some(t) then Some(items[|items| - 1].event)
    else LatestOf(items[..|items| - 1], t)
  }

  lemma {:induction false} LatestOfSplit(a: seq<Item>, b: seq<Item>, t: string)
    ensures LatestOf(a + b, t) == if LatestOf(b, t).Some? then LatestOf(b, t) else LatestOf(a, t)
  {
    if b == [] {
      assert a + b == a;
    } else {
      assert (a + b)[..|a + b| - 1] == a + b[..|b| - 1];
      LatestOfSplit(a, b[..|b| - 1], t);
    }
  }

  /** A held list holds an entry exactly when it is the latest of its type. */
  lemma {:induction false} HeldIsLatest(items: seq<Item>, e: Entry)
    ensures e in Absorb([], items) <==> LatestOf(items, e.wireType) == Some(e.event)
  {
    if items != [] {
      var before, x := items[..|items| - 1], items[|items| - 1];
      HeldIsLatest(before, e);
      AbsorbIsLatest(before);
      if x.wireType.Some? {
        var held := Absorb([], before);
        var k := PutShape(held, x.wireType.value, x.event);
        PutHolds(held, x.wireType.value, x.event, k, e);
      }
    }
  }

  lemma PutHolds(held: seq<Entry>, t: string, event: nat, k: nat, e: Entry)
    requires TypesDistinct(held) && k <= |held|
    requires forall a :: 0 <= a < k ==> held[a].wireType != t
    requires k < |held| ==> held[k].wireType == t && Put(held, t, event) == held[k := Entry(t, event)]
    requires k == |held| ==> Put(held, t, event) == held + [Entry(t, event)]
    ensures e in Put(held, t, event) <==> if e.wireType == t then e.event == event else e in held
  {
    var r := Put(held, t, event);
    assert r[k] == Entry(t, event);
    if e.wireType != t && e in held {
      var a :| 0 <= a < |held| && held[a] == e;
      assert r[a] == e;
    }
  }

  /** The item at a position of a response's data for the room. */
  predicate At(responses: seq<Response>, room: RoomId, k: nat, i: nat) {
    k < |responses| && i < |ItemsFor(responses[k], room)|
  }

  function ItemAt(responses: seq<Response>, room: RoomId, k: nat, i: nat): Item
    requires At(responses, room, k, i)
  {
    ItemsFor(responses[k], room)[i]
  }

  /** A position comes after another one. */
  predicate Later(k: nat, i: nat, j: nat, n: nat) {
    j > k || (j == k && n > i)
  }

  /** No later item of the type arrived for the room, up to the end of the responses. */
  ghost predicate Newest(responses: seq<Response>, room: RoomId, k: nat, i: nat, t: string) {
    forall j: nat, n: nat :: At(responses, room, j, n) && Later(k, i, j, n) ==> ItemAt(responses, room, j, n).wireType != Some(t)
  }

  /** None of the responses from this one to the last but one ended with the room known. */
  ghost predicate UnknownSince(responses: seq<Response>, room: RoomId, k: nat) {
    forall j :: k <= j < |responses| - 1 ==> room !in responses[j].known
  }

  /** This position carries the type's event that the last response finds for the room. */
  ghost predicate Carries(responses: seq<Response>, room: RoomId, k: nat, i: nat, t: string) {
    && At(responses, room, k, i) && ItemAt(responses, room, k, i).wireType == Some(t)
    && UnknownSince(responses, room, k) && Newest(responses, room, k, i, t)
  }

  /** The latest item of a list sits at its last position of the type. */
  lemma {:induction false} LatestPosition(items: seq<Item>, t: string) returns (i: nat)
    ensures LatestOf(items, t).None? ==> forall n :: 0 <= n < |items| ==> items[n].wireType != Some(t)
    ensures LatestOf(items, t).Some? ==> i < |items| && LastOfType(items, i, t) && items[i].event == LatestOf(items, t).value
  {
    i := 0;
    if items != [] {
      if items[|items| - 1].wireType == Some(t) {
        i := |items| - 1;
      } else {
        i := LatestPosition(items[..|items| - 1], t);
        assert forall n :: 0 <= n < |items| - 1 ==> items[n] == items[..|items| - 1][n];
      }
    }
  }

  /** What is outstanding of a type is carried by some position, and nothing is when no position carries it. */
  lemma {:induction false} OutstandingPosition(responses: seq<Response>, room: RoomId, t: string) returns (k: nat, i: nat)
    requires responses != []
    ensures var latest := LatestOf(Outstanding(responses, room), t);
            && (latest.Some? ==> Carries(responses, room, k, i, t) && ItemAt(responses, room, k, i).event == latest.value)
            && (latest.None? ==> forall j: nat, n: nat :: !Carries(responses, room, j, n, t))
  {
    var before, last := responses[..|responses| - 1], responses[|responses| - 1];
    assert responses == before + [last];
    var items := ItemsFor(last, room);
    var forgets := before != [] && room in before[|before| - 1].known;
    var earlier := if forgets then [] else Outstanding(before, room);
    LatestOfSplit(earlier, items, t);
    k := |before|;
    i := LatestPosition(items, t);
    if LatestOf(items, t).None? {
      assert forall n: nat :: !Carries(responses, room, |before|, n, t);
      if !forgets && before != [] {
        k, i := OutstandingPosition(before, room, t);
        forall j: nat, n: nat | j < |before| ensures Carries(responses, room, j, n, t) <==> Carries(before, room, j, n, t) {
          CarriesOn(before, last, room, j, n, t);
        }
      }
    }
  }

  /** A response without the type, after one that did not end with the room known, changes nothing about who carries it. */
  lemma CarriesOn(before: seq<Response>, last: Response, room: RoomId, k: nat, i: nat, t: string)
    requires before != [] && room !in before[|before| - 1].known && k < |before|
    requires forall n :: 0 <= n < |ItemsFor(last, room)| ==> ItemsFor(last, room)[n].wireType != Some(t)
    ensures Carries(before + [last], room, k, i, t) <==> Carries(before, room, k, i, t)
  {
    var responses := before + [last];
    assert forall j :: 0 <= j < |before| ==> responses[j] == before[j];
    assert forall j: nat, n: nat :: At(before, room, j, n) ==> At(responses, room, j, n) && ItemAt(responses, room, j, n) == ItemAt(before, room, j, n);
    assert forall j: nat, n: nat :: At(responses, room, j, n) ==> At(before, room, j, n) || responses[j] == last;
  }

  /** At most one position carries a type. */
  lemma OneCarries(responses: seq<Response>, room: RoomId, k: nat, i: nat, j: nat, n: nat, t: string)
    requires Carries(responses, room, k, i, t) && Carries(responses, room, j, n, t)
    ensures k == j && i == n
  {
    assert !Later(k, i, j, n) && !Later(j, n, k, i);
  }

  /**
   * What the last response delivers to a room, by position: an entry is delivered if and only if the response ends with the
   * room known and the entry is the item of a position since which the room was unknown and no item of its type came.
   */
  lemma DeliveredFrom(responses: seq<Response>, room: RoomId, e: Entry)
    requires responses != []
    ensures e in Delivered(responses, room) <==>
              && room in responses[|responses| - 1].known
              && exists k: nat, i: nat :: Carries(responses, room, k, i, e.wireType) && ItemAt(responses, room, k, i).event == e.event
  {
    CollectedIsOutstanding(responses, room);
    HeldIsLatest(Outstanding(responses, room), e);
    var k, i := OutstandingPosition(responses, room, e.wireType);
    forall j: nat, n: nat | Carries(responses, room, j, n, e.wireType) && LatestOf(Outstanding(responses, room), e.wireType).Some?
      ensures j == k && n == i
    {
      OneCarries(responses, room, k, i, j, n, e.wireType);
    }
  }

  /** Every item of the room is an event object of its own, as each is parsed anew. */
  ghost predicate DistinctEvents(responses: seq<Response>, room: RoomId) {
    forall k: nat, i: nat, j: nat, n: nat :: At(responses, room, k, i) && At(responses, room, j, n) && (k != j || i != n) ==>
      ItemAt(responses, room, k, i).event != ItemAt(responses, room, j, n).event
  }

  /** The response at this index hands this event to the room. */
  ghost predicate DeliveredBy(responses: seq<Response>, room: RoomId, m: nat, event: nat)
    requires m < |responses|
  {
    exists e :: e in Delivered(responses[..m + 1], room) && e.event == event
  }

  /**
   * An item is delivered by a response if and only if it has a wire type, the response is the first from the item's own on
   * that ends with the room known, and no later item of that type has arrived for the room by then.
   */
  lemma DeliveredByIff(responses: seq<Response>, room: RoomId, k: nat, i: nat, m: nat)
    requires DistinctEvents(responses, room) && At(responses, room, k, i) && m < |responses|
    ensures var item := ItemAt(responses, room, k, i);
            DeliveredBy(responses, room, m, item.event) <==>
              && k <= m && item.wireType.Some?
              && room in responses[m].known && (forall j :: k <= j < m ==> room !in responses[j].known)
              && Newest(responses[..m + 1], room, k, i, item.wireType.value)
  {
    var seen, item := responses[..m + 1], ItemAt(responses, room, k, i);
    assert forall j: nat, n: nat :: At(seen, room, j, n) ==> At(responses, room, j, n) && ItemAt(seen, room, j, n) == ItemAt(responses, room, j, n);
    if DeliveredBy(responses, room, m, item.event) {
      var e :| e in Delivered(seen, room) && e.event == item.event;
      DeliveredFrom(seen, room, e);
      var j: nat, n: nat :| Carries(seen, room, j, n, e.wireType) && ItemAt(seen, room, j, n).event == e.event;
      assert j == k && n == i;
      assert forall x :: k <= x < m ==> responses[x] == seen[x];
    } else if k <= m && item.wireType.Some? {
      var e := Entry(item.wireType.value, item.event);
      DeliveredFrom(seen, room, e);
      assert At(seen, room, k, i) && ItemAt(seen, room, k, i) == item;
      assert e !in Delivered(seen, room);
      assert room !in seen[m].known || !Carries(seen, room, k, i, e.wireType);
    }
  }

  lemma EntriesDiffer(seen: seq<Response>, room: RoomId, a: nat, b: nat)
    requires seen != [] && DistinctEvents(seen, room) && a < b < |Delivered(seen, room)|
    ensures Delivered(seen, room)[a].event != Delivered(seen, room)[b].event
  {
    var d := Delivered(seen, room);
    DeliveryIsLatest(seen, room);
    assert d[a] in d && d[b] in d;
    assert room in seen[|seen| - 1].known && d[a].wireType != d[b].wireType;
    DeliveredFrom(seen, room, d[a]);
    DeliveredFrom(seen, room, d[b]);
    var k: nat, i: nat :| Carries(seen, room, k, i, d[a].wireType) && ItemAt(seen, room, k, i).event == d[a].event;
    var j: nat, n: nat :| Carries(seen, room, j, n, d[b].wireType) && ItemAt(seen, room, j, n).event == d[b].event;
    assert !(k == j && i == n);
  }

  /** No item is delivered by two responses, and no response delivers an event twice to a room. */
  lemma DeliveredOnce(responses: seq<Response>, room: RoomId, k: nat, i: nat, m: nat, later: nat)
    requires DistinctEvents(responses, room) && At(responses, room, k, i) && m < later < |responses|
    ensures var event := ItemAt(responses, room, k, i).event;
            !(DeliveredBy(responses, room, m, event) && DeliveredBy(responses, room, later, event))
    ensures var d := Delivered(responses[..m + 1], room); forall a, b :: 0 <= a < b < |d| ==> d[a].event != d[b].event
  {
    DeliveredByIff(responses, room, k, i, m);
    DeliveredByIff(responses, room, k, i, later);
    var seen := responses[..m + 1];
    assert forall j: nat, n: nat :: At(seen, room, j, n) ==> At(responses, room, j, n) && ItemAt(seen, room, j, n) == ItemAt(responses, room, j, n);
    forall a, b | 0 <= a < b < |Delivered(seen, room)| ensures Delivered(seen, room)[a].event != Delivered(seen, room)[b].event {
      EntriesDiffer(seen, room, a, b);
    }
  }
}
