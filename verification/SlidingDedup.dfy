/**
 * At-most-once delivery of timeline events with a bounded memory (src/nio/client/base_client.py,
 * src/nio/client/sliding_sync.py). Per room the client remembers the last 4096 event ids it recorded, and
 * whether each was still ciphertext; a generator asks a map that its consumer changes between two yields.
 */
module SlidingDedup {
  import opened Wrappers
  import opened Sequences

  const WINDOW := 4096

  type RoomId = string
  type EventId = string

  /** An ordered dict from event id to "still encrypted". */
  datatype Seen = Seen(order: seq<EventId>, encrypted: map<EventId, bool>)

  const NOTHING_SEEN := Seen([], map[])

  /** A timeline event after the attempt to decrypt it; some events have no id, and an empty one counts as none. */
  datatype TimelineEvent = TimelineEvent(id: Option<EventId>, encrypted: bool)

  datatype Item = Item(room: RoomId, event: TimelineEvent)

  /** Assigning to a key of the dict: a known key keeps its position. */
  function Assign(s: Seen, id: EventId, encrypted: bool): Seen {
    Seen(if id in s.encrypted then s.order else s.order + [id], s.encrypted[id := encrypted])
  }

  /** Deletes the oldest entries until the limit holds. */
  function Evict(s: Seen, limit: nat): Seen
    decreases |s.order|
  {
    if |s.order| <= limit then s else Evict(Seen(s.order[1..], s.encrypted - {s.order[0]}), limit)
  }

  function ClearIds(s: Seen): set<EventId> {
    set id | id in s.encrypted && !s.encrypted[id]
  }

  /** What one room remembers, suppresses in this response, has delivered, and has ever recorded. */
  datatype Room = Room(seen: Seen, completed: set<EventId>, log: seq<TimelineEvent>, recorded: seq<EventId>)

  const NEW_ROOM := Room(NOTHING_SEEN, {}, [], [])

  /** A response begins: ids delivered in clear are suppressed. */
  function Begin(r: Room): Room {
    r.(completed := ClearIds(r.seen))
  }

  /** One event: the generator's check, the consumer's bookkeeping, and the delivery. */
  function Arrive(r: Room, e: TimelineEvent, limit: nat): Room {
    if e.id.None? then r.(log := r.log + [e])
    else
      var id := e.id.value;
      if id in r.completed then r
      else
        var known := id in r.seen.encrypted;
        var t := r.(seen := Evict(Assign(r.seen, id, e.encrypted), limit),
                    recorded := if known then r.recorded else r.recorded + [id]);
        if e.encrypted && known then t
        else t.(completed := if e.encrypted then r.completed else r.completed + {id}, log := r.log + [e])
  }

  // ----- The client's own object -----

  /** The timeline part of a response, room by room. */
  datatype Window = Window(room: RoomId, timeline: seq<TimelineEvent>)

  /** All rooms together, with what has been handed to the application. */
  datatype Client = Client(rooms: map<RoomId, Room>, out: seq<Item>)

  function RoomOf(c: Client, room: RoomId): Room {
    if room in c.rooms then c.rooms[room] else NEW_ROOM
  }

  function ArriveIn(c: Client, room: RoomId, e: TimelineEvent, limit: nat): Client {
    var before := RoomOf(c, room);
    var after := Arrive(before, e, limit);
    Client(c.rooms[room := after], if |after.log| > |before.log| then c.out + [Item(room, e)] else c.out)
  }

  function ArriveAll(c: Client, room: RoomId, timeline: seq<TimelineEvent>, limit: nat): Client {
    if timeline == [] then c
    else ArriveIn(ArriveAll(c, room, timeline[..|timeline| - 1], limit), room, timeline[|timeline| - 1], limit)
  }

  function ArriveWindows(c: Client, windows: seq<Window>, limit: nat): Client {
    if windows == [] then c
    else
      var w := windows[|windows| - 1];
      ArriveAll(ArriveWindows(c, windows[..|windows| - 1], limit), w.room, w.timeline, limit)
  }

  function BeginAll(c: Client): Client {
    c.(rooms := map r | r in c.rooms :: Begin(c.rooms[r]))
  }

  class SlidingClient {
    const limit: nat
    var seenEvents: map<RoomId, Seen>
    var completed: map<RoomId, set<EventId>>
    var out: seq<Item>
    ghost var view: Client

    /** The real tables are the room records without their histories. */
    ghost predicate Tracks()
      reads this
    {
      && view.out == out
      && (forall r :: SeenIn(r) == RoomOf(view, r).seen)
      && (forall r :: CompletedIn(r) == RoomOf(view, r).completed)
    }

    function SeenIn(room: RoomId): Seen
      reads this
    {
      if room in seenEvents then seenEvents[room] else NOTHING_SEEN
    }

    function CompletedIn(room: RoomId): set<EventId>
      reads this
    {
      if room in completed then completed[room] else {}
    }

    constructor (limit: nat)
      ensures this.limit == limit && Tracks() && view == Client(map[], [])
    {
      this.limit := limit;
      seenEvents, completed, out, view := map[], map[], [], Client(map[], []);
    }

    /** `_iter_ordinary_sliding_sync` driven to its end. */
    method HandleResponse(windows: seq<Window>)
      requires Tracks()
      modifies this
      ensures Tracks() && view == ArriveWindows(BeginAll(old(view)), windows, limit)
    {
      completed := map r | r in seenEvents :: ClearIds(seenEvents[r]);
      view := BeginAll(view);
      assert forall r :: RoomOf(view, r) == Begin(RoomOf(old(view), r));
      for i := 0 to |windows|
        invariant Tracks() && view == ArriveWindows(BeginAll(old(view)), windows[..i], limit)
      {
        assert windows[..i + 1][..i] == windows[..i];
        ghost var start := view;
        for k := 0 to |windows[i].timeline|
          invariant Tracks() && view == ArriveAll(start, windows[i].room, windows[i].timeline[..k], limit)
        {
          assert windows[i].timeline[..k + 1][..k] == windows[i].timeline[..k];
          HandleEvent(windows[i].room, windows[i].timeline[k]);
        }
        assert windows[i].timeline[..|windows[i].timeline|] == windows[i].timeline;
      }
      assert windows[..|windows|] == windows;
    }

    /** The generator skips a suppressed event; any other is yielded to the consumer. */
    method HandleEvent(room: RoomId, e: TimelineEvent)
      requires Tracks()
      modifies this
      ensures Tracks() && view == ArriveIn(old(view), room, e, limit)
    {
      view := ArriveIn(view, room, e, limit);
      assert forall r :: RoomOf(view, r) == if r == room then Arrive(RoomOf(old(view), r), e, limit) else RoomOf(old(view), r);
      if e.id.None? {
        out := out + [Item(room, e)];
        return;
      }
      if e.id.value in CompletedIn(room) {
        return;
      }
      Consume(room, e);
    }

    /** The consumer records the event, evicts, and passes it on unless it repeats known ciphertext. */
    method Consume(room: RoomId, e: TimelineEvent)
      requires e.id.Some?
      modifies this
      ensures view == old(view)
      ensures seenEvents == old(seenEvents)[room := Evict(Assign(old(SeenIn(room)), e.id.value, e.encrypted), limit)]
      ensures var duplicate := e.encrypted && e.id.value in old(SeenIn(room)).encrypted;
              && out == (if duplicate then old(out) else old(out) + [Item(room, e)])
              && completed == if duplicate || e.encrypted then old(completed)
                else old(completed)[room := old(CompletedIn(room)) + {e.id.value}]
    {
      var id := e.id.value;
      var seen := SeenIn(room);
      var duplicateCiphertext := e.encrypted && id in seen.encrypted;
      seen := Assign(seen, id, e.encrypted);
      while |seen.order| > limit
        invariant Evict(seen, limit) == Evict(Assign(old(SeenIn(room)), id, e.encrypted), limit)
        decreases |seen.order|
      {
        seen := Seen(seen.order[1..], seen.encrypted - {seen.order[0]});
      }
      seenEvents := seenEvents[room := seen];
      if duplicateCiphertext {
        return;
      }
      if !e.encrypted {
        completed := completed[room := CompletedIn(room) + {id}];
      }
      out := out + [Item(room, e)];
    }
  }

  // ----- One room over whole runs -----

  datatype Step = ResponseBegins | EventArrives(event: TimelineEvent)

  function Next(r: Room, step: Step, limit: nat): Room {
    match step
    case ResponseBegins => Begin(r)
    case EventArrives(e) => Arrive(r, e, limit)
  }

  function Run(steps: seq<Step>, limit: nat): Room {
    if steps == [] then NEW_ROOM else Next(Run(steps[..|steps| - 1], limit), steps[|steps| - 1], limit)
  }

  /** The events of one id that were delivered. */
  function Deliveries(log: seq<TimelineEvent>, id: EventId): seq<TimelineEvent> {
    if log == [] then []
    else
      var before := Deliveries(log[..|log| - 1], id);
      if log[|log| - 1].id == Some(id) then before + [log[|log| - 1]] else before
  }

  function TimesRecorded(recorded: seq<EventId>, id: EventId): nat {
    if recorded == [] then 0
    else TimesRecorded(recorded[..|recorded| - 1], id) + if recorded[|recorded| - 1] == id then 1 else 0
  }

  /** What was forgotten, followed by what is remembered: the memory is the end of the record. */
  ghost predicate EndOfRecord(recorded: seq<EventId>, forgotten: seq<EventId>, s: Seen, limit: nat) {
    && recorded == forgotten + s.order
    && |s.order| <= limit
    && (forgotten != [] ==> |s.order| == limit)
    && NoDuplicates(s.order)
    && forall id :: id in s.order <==> id in s.encrypted
  }

  ghost predicate Remembers(r: Room, forgotten: seq<EventId>, limit: nat) {
    EndOfRecord(r.recorded, forgotten, r.seen, limit)
  }

  lemma EvictOne(s: Seen, limit: nat)
    requires limit > 0 && |s.order| == limit + 1
    ensures Evict(s, limit) == Seen(s.order[1..], s.encrypted - {s.order[0]})
  {
  }

  /** A new id pushes out the oldest one when the memory is full. */
  lemma RecordNew(recorded: seq<EventId>, forgotten: seq<EventId>, s: Seen, id: EventId, encrypted: bool, limit: nat)
    returns (after: seq<EventId>)
    requires limit > 0 && EndOfRecord(recorded, forgotten, s, limit) && id !in s.encrypted
    ensures EndOfRecord(recorded + [id], after, Evict(Assign(s, id, encrypted), limit), limit)
  {
    var t := Assign(s, id, encrypted);
    AppendDistinct(s.order, id);
    assert recorded + [id] == forgotten + t.order;
    if |t.order| <= limit {
      after := forgotten;
    } else {
      EvictOne(t, limit);
      after := forgotten + [t.order[0]];
      assert t.order == [t.order[0]] + t.order[1..];
      DistinctParts([t.order[0]], t.order[1..]);
      assert t.order[0] in [t.order[0]];
      assert recorded + [id] == after + t.order[1..];
    }
  }

  /** Recording an id keeps the memory at the end of the record and within its limit. */
  lemma RecordStep(r: Room, forgotten: seq<EventId>, e: TimelineEvent, limit: nat) returns (after: seq<EventId>)
    requires limit > 0 && Remembers(r, forgotten, limit)
    ensures Remembers(Arrive(r, e, limit), after, limit)
  {
    after := forgotten;
    if e.id.Some? && e.id.value !in r.completed && e.id.value !in r.seen.encrypted {
      after := RecordNew(r.recorded, forgotten, r.seen, e.id.value, e.encrypted, limit);
    }
  }

  lemma {:induction false} RunRemembers(steps: seq<Step>, limit: nat) returns (forgotten: seq<EventId>)
    requires limit > 0
    ensures Remembers(Run(steps, limit), forgotten, limit)
  {
    if steps == [] {
      forgotten := [];
    } else {
      var before := RunRemembers(steps[..|steps| - 1], limit);
      match steps[|steps| - 1]
      case ResponseBegins => forgotten := before;
      case EventArrives(e) => forgotten := RecordStep(Run(steps[..|steps| - 1], limit), before, e, limit);
    }
  }

  /** The memory never exceeds its limit. */
  lemma BoundedMemory(steps: seq<Step>, limit: nat)
    requires limit > 0
    ensures |Run(steps, limit).seen.encrypted| <= limit
  {
    var forgotten := RunRemembers(steps, limit);
    DistinctSize(Run(steps, limit).seen.order);
    assert Elements(Run(steps, limit).seen.order) == Run(steps, limit).seen.encrypted.Keys;
    assert |Run(steps, limit).seen.encrypted.Keys| == |Run(steps, limit).seen.encrypted|;
  }

  // ----- What a retained id has been delivered as -----

  /** Everything retained in clear is suppressed for the rest of the response. */
  ghost predicate ClearSuppressed(r: Room) {
    ClearIds(r.seen) <= r.completed
  }

  lemma ArriveSeen(r: Room, e: TimelineEvent, limit: nat, x: EventId)
    requires limit > 0 && |r.seen.order| <= limit && NoDuplicates(r.seen.order)
    requires forall id :: id in r.seen.order <==> id in r.seen.encrypted
    requires x in Arrive(r, e, limit).seen.encrypted
    ensures var t := Arrive(r, e, limit).seen.encrypted;
            if e.id == Some(x) && x !in r.completed then t[x] == e.encrypted
            else x in r.seen.encrypted && t[x] == r.seen.encrypted[x]
  {
    if e.id.Some? && e.id.value !in r.completed {
      var s := Assign(r.seen, e.id.value, e.encrypted);
      if |s.order| > limit {
        EvictOne(s, limit);
      }
    }
  }

  lemma StepSuppresses(r: Room, forgotten: seq<EventId>, step: Step, limit: nat)
    requires limit > 0 && Remembers(r, forgotten, limit) && ClearSuppressed(r)
    ensures ClearSuppressed(Next(r, step, limit))
  {
    if step.EventArrives? {
      var t := Arrive(r, step.event, limit);
      forall x | x in ClearIds(t.seen) ensures x in t.completed {
        ArriveSeen(r, step.event, limit, x);
        if !(step.event.id == Some(x) && x !in r.completed) {
          assert x in ClearIds(r.seen);
        }
      }
    }
  }

  lemma {:induction false} RunSuppresses(steps: seq<Step>, limit: nat)
    requires limit > 0
    ensures ClearSuppressed(Run(steps, limit))
  {
    if steps != [] {
      var before := steps[..|steps| - 1];
      RunSuppresses(before, limit);
      var forgotten := RunRemembers(before, limit);
      StepSuppresses(Run(before, limit), forgotten, steps[|steps| - 1], limit);
    }
  }

  /** A retained entry never goes from clear back to encrypted. */
  lemma NoDowngrade(steps: seq<Step>, step: Step, limit: nat, x: EventId)
    requires limit > 0
    requires var s := Run(steps, limit).seen.encrypted; x in s && !s[x]
    ensures var t := Next(Run(steps, limit), step, limit).seen.encrypted; x in t ==> !t[x]
  {
    var r := Run(steps, limit);
    RunSuppresses(steps, limit);
    var forgotten := RunRemembers(steps, limit);
    assert x in ClearIds(r.seen);
    if step.EventArrives? && x in Arrive(r, step.event, limit).seen.encrypted {
      ArriveSeen(r, step.event, limit, x);
    }
  }

  /** The memory holds exactly the ids among the last `limit` recorded. */
  lemma RetainedIff(steps: seq<Step>, limit: nat, id: EventId)
    requires limit > 0
    ensures var recorded := Run(steps, limit).recorded;
            id in Run(steps, limit).seen.encrypted <==>
            exists k :: 0 <= k < |recorded| && k >= |recorded| - limit && recorded[k] == id
  {
    var forgotten := RunRemembers(steps, limit);
    var r := Run(steps, limit);
    if id in r.seen.encrypted {
      var j :| 0 <= j < |r.seen.order| && r.seen.order[j] == id;
      assert r.recorded[|forgotten| + j] == id;
    }
    if k :| 0 <= k < |r.recorded| && k >= |r.recorded| - limit && r.recorded[k] == id {
      assert r.seen.order[k - |forgotten|] == id;
    }
  }

  lemma RecordExtends(recorded: seq<EventId>, x: EventId, id: EventId)
    ensures id in recorded ==> FirstIndex(recorded + [x], id) == FirstIndex(recorded, id) < |recorded|
    ensures id !in recorded ==> TimesRecorded(recorded, id) == 0
    ensures id in recorded ==> recorded[FirstIndex(recorded, id)] == id
    ensures TimesRecorded(recorded + [x], id) == TimesRecorded(recorded, id) + if x == id then 1 else 0
  {
    assert (recorded + [x])[..|recorded|] == recorded;
    FirstIndexExtends(recorded, x, id);
    NotRecorded(recorded, id);
  }

  lemma {:induction false} NotRecorded(recorded: seq<EventId>, id: EventId)
    ensures id !in recorded <==> TimesRecorded(recorded, id) == 0
  {
    if recorded != [] {
      var before := recorded[..|recorded| - 1];
      assert recorded == before + [recorded[|recorded| - 1]];
      NotRecorded(before, id);
    }
  }

  /** An id comes back into the record only after `limit` others were recorded. */
  ghost predicate ComesBackLate(recorded: seq<EventId>, id: EventId, limit: nat) {
    TimesRecorded(recorded, id) >= 2 ==> |recorded| >= FirstIndex(recorded, id) + limit + 2
  }

  lemma LateStep(r: Room, forgotten: seq<EventId>, e: TimelineEvent, limit: nat, id: EventId)
    requires limit > 0 && Remembers(r, forgotten, limit) && ComesBackLate(r.recorded, id, limit)
    ensures ComesBackLate(Arrive(r, e, limit).recorded, id, limit)
  {
    if e.id.Some? && e.id.value !in r.completed && e.id.value !in r.seen.encrypted {
      var x := e.id.value;
      RecordExtends(r.recorded, x, id);
      NotRecorded(r.recorded, id);
      if x == id && id in r.recorded {
        var f := FirstIndex(r.recorded, id);
        assert f < |forgotten|;
      }
    }
  }

  // ----- What can be delivered of one id -----

  /** Nothing, ciphertext, clear, or ciphertext and then clear. */
  ghost predicate AllowedDeliveries(d: seq<TimelineEvent>, id: EventId) {
    var cipher, clear := TimelineEvent(Some(id), true), TimelineEvent(Some(id), false);
    d == [] || d == [cipher] || d == [clear] || d == [cipher, clear]
  }

  ghost predicate DeliveriesMatch(r: Room, id: EventId) {
    var d := Deliveries(r.log, id);
    && (TimesRecorded(r.recorded, id) == 0 ==> d == [] && id !in r.completed && id !in r.seen.encrypted)
    && (TimesRecorded(r.recorded, id) == 1 ==>
        AllowedDeliveries(d, id)
        && (id in r.seen.encrypted && r.seen.encrypted[id] ==> d == [TimelineEvent(Some(id), true)]))
  }

  lemma DeliverOne(log: seq<TimelineEvent>, e: TimelineEvent, id: EventId)
    ensures Deliveries(log + [e], id) == Deliveries(log, id) + if e.id == Some(id) then [e] else []
  {
    assert (log + [e])[..|log|] == log;
  }

  lemma OtherArrival(r: Room, forgotten: seq<EventId>, e: TimelineEvent, limit: nat, id: EventId)
    requires limit > 0 && Remembers(r, forgotten, limit) && DeliveriesMatch(r, id) && e.id != Some(id)
    ensures DeliveriesMatch(Arrive(r, e, limit), id)
  {
    DeliverOne(r.log, e, id);
    if e.id.Some? {
      RecordExtends(r.recorded, e.id.value, id);
    }
    if id in Arrive(r, e, limit).seen.encrypted {
      ArriveSeen(r, e, limit, id);
    }
  }

  lemma OwnArrival(r: Room, forgotten: seq<EventId>, e: TimelineEvent, limit: nat, id: EventId)
    requires limit > 0 && Remembers(r, forgotten, limit) && ClearSuppressed(r) && DeliveriesMatch(r, id)
    requires e.id == Some(id) && id !in r.completed
    ensures DeliveriesMatch(Arrive(r, e, limit), id)
  {
    DeliverOne(r.log, e, id);
    RecordExtends(r.recorded, id, id);
    NotRecorded(r.recorded, id);
    if id in r.seen.encrypted {
      assert id !in ClearIds(r.seen);
      var j :| 0 <= j < |r.seen.order| && r.seen.order[j] == id;
      assert r.recorded[|forgotten| + j] == id;
    }
    if id in Arrive(r, e, limit).seen.encrypted {
      ArriveSeen(r, e, limit, id);
    }
  }

  lemma BeginMatches(r: Room, forgotten: seq<EventId>, limit: nat, id: EventId)
    requires Remembers(r, forgotten, limit) && DeliveriesMatch(r, id)
    ensures DeliveriesMatch(Begin(r), id)
  {
  }

  lemma {:induction false} RunDeliveries(steps: seq<Step>, limit: nat, id: EventId)
    requires limit > 0
    ensures DeliveriesMatch(Run(steps, limit), id) && ComesBackLate(Run(steps, limit).recorded, id, limit)
  {
    if steps != [] {
      var before := steps[..|steps| - 1];
      RunDeliveries(before, limit, id);
      RunSuppresses(before, limit);
      var forgotten := RunRemembers(before, limit);
      var r := Run(before, limit);
      match steps[|steps| - 1]
      case ResponseBegins => BeginMatches(r, forgotten, limit, id);
      case EventArrives(e) =>
        LateStep(r, forgotten, e, limit, id);
        if e.id != Some(id) {
          OtherArrival(r, forgotten, e, limit, id);
        } else if id !in r.completed {
          OwnArrival(r, forgotten, e, limit, id);
        }
    }
  }

  /**
   * At most once, with bounded memory: as long as no more than `limit` ids were recorded in the room after this one,
   * its deliveries over all responses are nothing, ciphertext, clear, or ciphertext and then clear.
   */
  lemma AtMostOnce(steps: seq<Step>, limit: nat, id: EventId)
    requires limit > 0
    requires var recorded := Run(steps, limit).recorded;
             id in recorded ==> |recorded| - 1 - FirstIndex(recorded, id) <= limit
    ensures AllowedDeliveries(Deliveries(Run(steps, limit).log, id), id)
  {
    RunDeliveries(steps, limit, id);
    NotRecorded(Run(steps, limit).recorded, id);
  }

  /**
   * The bound is exact: at the start of a response, an event of an id is delivered exactly when the id was never seen,
   * was forgotten, or is still ciphertext and now comes in clear.
   */
  lemma DeliveredIff(steps: seq<Step>, limit: nat, id: EventId, encrypted: bool)
    requires limit > 0
    ensures var r := Begin(Run(steps, limit));
            var e := TimelineEvent(Some(id), encrypted);
            var forgotten := forall k :: 0 <= k < |r.recorded| && k >= |r.recorded| - limit ==> r.recorded[k] != id;
            Arrive(r, e, limit).log ==
              if forgotten || (!encrypted && id in r.seen.encrypted && r.seen.encrypted[id]) then r.log + [e] else r.log
  {
    RetainedIff(steps, limit, id);
  }

  // ----- Every event of a response -----

  /** The events of a response that came before. */
  function ArriveEach(r: Room, events: seq<TimelineEvent>, limit: nat): Room {
    if events == [] then r else Arrive(ArriveEach(r, events[..|events| - 1], limit), events[|events| - 1], limit)
  }

  /** The id was clear when the response began, or came in clear since. */
  ghost predicate ClearByNow(start: Room, events: seq<TimelineEvent>, id: EventId) {
    || (id in start.seen.encrypted && !start.seen.encrypted[id])
    || exists j :: 0 <= j < |events| && events[j] == TimelineEvent(Some(id), false)
  }

  /** The generator suppresses exactly the ids that are clear by now. */
  lemma {:induction false} SuppressedIff(start: Room, events: seq<TimelineEvent>, limit: nat, id: EventId)
    ensures id in ArriveEach(Begin(start), events, limit).completed <==> ClearByNow(start, events, id)
  {
    if events != [] {
      var before, last := events[..|events| - 1], events[|events| - 1];
      SuppressedIff(start, before, limit, id);
      assert forall j :: 0 <= j < |before| ==> before[j] == events[j];
      if ClearByNow(start, before, id) && !(id in start.seen.encrypted && !start.seen.encrypted[id]) {
        var j :| 0 <= j < |before| && before[j] == TimelineEvent(Some(id), false);
        assert events[j] == TimelineEvent(Some(id), false);
      }
      if last == TimelineEvent(Some(id), false) {
        assert events[|before|] == last;
      }
    }
  }

  lemma {:induction false} EachRemembers(r: Room, forgotten: seq<EventId>, events: seq<TimelineEvent>, limit: nat) returns (after: seq<EventId>)
    requires limit > 0 && Remembers(r, forgotten, limit)
    ensures Remembers(ArriveEach(r, events, limit), after, limit)
  {
    after := forgotten;
    if events != [] {
      var before := events[..|events| - 1];
      after := EachRemembers(r, forgotten, before, limit);
      after := RecordStep(ArriveEach(r, before, limit), after, events[|events| - 1], limit);
    }
  }

  /**
   * Any event of any response: it is delivered if and only if it has no id, or its id is not clear by now and it is not
   * ciphertext that is remembered. An id that is not clear by now is recorded unless it is remembered, and is then
   * remembered as it came, next to what the limit leaves of the rest.
   */
  lemma ArrivalExact(steps: seq<Step>, events: seq<TimelineEvent>, limit: nat, e: TimelineEvent)
    requires limit > 0
    ensures var start := Run(steps, limit);
            var r := ArriveEach(Begin(start), events, limit);
            var t := Arrive(r, e, limit);
            var handled := e.id.Some? && !ClearByNow(start, events, e.id.value);
            && t.log == (if e.id.None? || (handled && !(e.encrypted && e.id.value in r.seen.encrypted)) then r.log + [e] else r.log)
            && t.recorded == (if handled && e.id.value !in r.seen.encrypted then r.recorded + [e.id.value] else r.recorded)
            && (handled ==> e.id.value in t.seen.encrypted && t.seen.encrypted[e.id.value] == e.encrypted)
            && (!handled ==> t.seen == r.seen)
            && forall x :: x in t.seen.encrypted && e.id != Some(x) ==>
              x in r.seen.encrypted && t.seen.encrypted[x] == r.seen.encrypted[x]
  {
    var start := Run(steps, limit);
    var r := ArriveEach(Begin(start), events, limit);
    var forgotten := RunRemembers(steps, limit);
    forgotten := EachRemembers(Begin(start), forgotten, events, limit);
    if e.id.Some? {
      SuppressedIff(start, events, limit, e.id.value);
      if e.id.value !in r.completed {
        NewestIsKept(r, forgotten, e, limit);
      }
    }
    forall x | x in Arrive(r, e, limit).seen.encrypted && e.id != Some(x)
      ensures x in r.seen.encrypted && Arrive(r, e, limit).seen.encrypted[x] == r.seen.encrypted[x]
    {
      ArriveSeen(r, e, limit, x);
    }
  }

  /** The id that was recorded last is not the one that is evicted. */
  lemma NewestIsKept(r: Room, forgotten: seq<EventId>, e: TimelineEvent, limit: nat)
    requires limit > 0 && Remembers(r, forgotten, limit) && e.id.Some? && e.id.value !in r.completed
    ensures var t := Arrive(r, e, limit).seen.encrypted; e.id.value in t && t[e.id.value] == e.encrypted
  {
    var s := Assign(r.seen, e.id.value, e.encrypted);
    if |s.order| > limit {
      EvictOne(s, limit);
      assert s.order[0] == r.seen.order[0] && s.order[0] in r.seen.order;
    }
  }

  // ----- The bounded memory against an unbounded one -----

  /** The two rooms have done the same; the smaller memory agrees with the larger where it has an entry. */
  ghost predicate SameSoFar(small: Room, large: Room) {
    && small.log == large.log && small.recorded == large.recorded
    && (forall x :: x in large.recorded <==> x in large.seen.encrypted)
    && Agrees(small.seen, large.seen)
    && small.completed <= large.completed <= ClearIds(large.seen)
  }

  ghost predicate Agrees(small: Seen, large: Seen) {
    forall x :: x in small.encrypted ==> x in large.encrypted && small.encrypted[x] == large.encrypted[x]
  }

  lemma SimulationStep(small: Room, large: Room, forgotten: seq<EventId>, step: Step, limit: nat, wide: nat)
    requires limit > 0 && Remembers(small, forgotten, limit) && ClearSuppressed(small)
    requires SameSoFar(small, large) && |large.seen.order| < wide
    requires NoDuplicates(Next(small, step, limit).recorded)
    ensures SameSoFar(Next(small, step, limit), Next(large, step, wide))
  {
    if step.EventArrives? && step.event.id.Some? && step.event.id.value !in small.completed {
      var e, id := step.event, step.event.id.value;
      NewIdIsFresh(small, forgotten, e, limit);
      assert id !in large.completed by {
        assert id in small.seen.encrypted ==> id !in ClearIds(small.seen);
      }
      var seen := Assign(large.seen, id, e.encrypted);
      assert Evict(seen, wide) == seen;
      AgreesAfter(small, large, e, limit);
      ClearAfter(large, id, e.encrypted);
    }
  }

  lemma AgreesAfter(small: Room, large: Room, e: TimelineEvent, limit: nat)
    requires limit > 0 && |small.seen.order| <= limit && NoDuplicates(small.seen.order)
    requires forall id :: id in small.seen.order <==> id in small.seen.encrypted
    requires e.id.Some? && e.id.value !in small.completed && Agrees(small.seen, large.seen)
    ensures Agrees(Arrive(small, e, limit).seen, Assign(large.seen, e.id.value, e.encrypted))
  {
    forall x | x in Arrive(small, e, limit).seen.encrypted
      ensures x in Assign(large.seen, e.id.value, e.encrypted).encrypted
      ensures Arrive(small, e, limit).seen.encrypted[x] == Assign(large.seen, e.id.value, e.encrypted).encrypted[x]
    {
      ArriveSeen(small, e, limit, x);
    }
  }

  lemma ClearAfter(r: Room, id: EventId, encrypted: bool)
    requires r.completed <= ClearIds(r.seen) && id !in r.completed
    ensures (if encrypted then r.completed else r.completed + {id}) <= ClearIds(Assign(r.seen, id, encrypted))
  {
  }

  /** In a record without repetition, an id the memory does not hold was never recorded. */
  lemma NewIdIsFresh(r: Room, forgotten: seq<EventId>, e: TimelineEvent, limit: nat)
    requires e.id.Some? && e.id.value !in r.completed
    requires NoDuplicates(Arrive(r, e, limit).recorded)
    ensures e.id.value !in r.seen.encrypted ==> e.id.value !in r.recorded
  {
    if e.id.value !in r.seen.encrypted {
      DistinctParts(r.recorded, [e.id.value]);
      assert e.id.value in [e.id.value];
    }
  }

  lemma {:induction false} RecordedGrows(steps: seq<Step>, limit: nat)
    ensures |Run(steps, limit).recorded| <= |steps|
  {
    if steps != [] {
      RecordedGrows(steps[..|steps| - 1], limit);
    }
  }

  /** A client that remembers `limit` ids delivers exactly what one that forgets nothing delivers, unless a forgotten id returns. */
  lemma {:induction false} BoundedRefinesUnbounded(steps: seq<Step>, limit: nat, wide: nat)
    requires 0 < limit && |steps| < wide
    requires NoDuplicates(Run(steps, limit).recorded)
    ensures SameSoFar(Run(steps, limit), Run(steps, wide))
  {
    if steps != [] {
      var before, step := steps[..|steps| - 1], steps[|steps| - 1];
      var small, large := Run(before, limit), Run(before, wide);
      var forgotten := RunRemembers(before, limit);
      var none := RunRemembers(before, wide);
      RecordedGrows(before, wide);
      assert NoDuplicates(small.recorded) by {
        assert forall i :: 0 <= i < |small.recorded| ==> small.recorded[i] == Run(steps, limit).recorded[i];
      }
      BoundedRefinesUnbounded(before, limit, wide);
      RunSuppresses(before, limit);
      SimulationStep(small, large, forgotten, step, limit, wide);
    }
  }

  // ----- All rooms of a client -----

  function ClientRun(responses: seq<seq<Window>>, limit: nat): Client {
    if responses == [] then Client(map[], [])
    else ArriveWindows(BeginAll(ClientRun(responses[..|responses| - 1], limit)), responses[|responses| - 1], limit)
  }

  /** What the application was handed for one room. */
  function HandedOver(out: seq<Item>, room: RoomId): seq<TimelineEvent> {
    if out == [] then []
    else
      var before := HandedOver(out[..|out| - 1], room);
      if out[|out| - 1].room == room then before + [out[|out| - 1].event] else before
  }

  /** The room has gone through these steps and its log is what the application was handed for it. */
  ghost predicate RoomRan(c: Client, room: RoomId, steps: seq<Step>, limit: nat) {
    RoomOf(c, room) == Run(steps, limit) && HandedOver(c.out, room) == RoomOf(c, room).log
  }

  lemma RunExtends(steps: seq<Step>, step: Step, limit: nat)
    ensures Run(steps + [step], limit) == Next(Run(steps, limit), step, limit)
  {
    assert (steps + [step])[..|steps|] == steps;
  }

  lemma ArriveInRan(c: Client, at: RoomId, e: TimelineEvent, room: RoomId, steps: seq<Step>, limit: nat)
    requires RoomRan(c, room, steps, limit)
    ensures RoomRan(ArriveIn(c, at, e, limit), room, if at == room then steps + [EventArrives(e)] else steps, limit)
  {
    RunExtends(steps, EventArrives(e), limit);
    HandOne(c.out, Item(at, e), room);
    LogGrows(RoomOf(c, at), e, limit);
  }

  lemma HandOne(out: seq<Item>, item: Item, room: RoomId)
    ensures HandedOver(out + [item], room) == HandedOver(out, room) + if item.room == room then [item.event] else []
  {
    assert (out + [item])[..|out|] == out;
  }

  /** An event is either added to the log or changes nothing in it. */
  lemma LogGrows(r: Room, e: TimelineEvent, limit: nat)
    ensures Arrive(r, e, limit).log == if |Arrive(r, e, limit).log| > |r.log| then r.log + [e] else r.log
  {
  }

  function Arrivals(timeline: seq<TimelineEvent>): seq<Step> {
    seq(|timeline|, i requires 0 <= i < |timeline| => EventArrives(timeline[i]))
  }

  /** The events of a response for one room, in order. */
  function WindowArrivals(windows: seq<Window>, room: RoomId): seq<Step> {
    if windows == [] then []
    else
      var before, w := WindowArrivals(windows[..|windows| - 1], room), windows[|windows| - 1];
      if w.room == room then before + Arrivals(w.timeline) else before
  }

  /** What a run of responses is for one room: each response begins, and brings the room's events. */
  function StepsOf(responses: seq<seq<Window>>, room: RoomId): seq<Step> {
    if responses == [] then []
    else
      StepsOf(responses[..|responses| - 1], room) + [ResponseBegins] + WindowArrivals(responses[|responses| - 1], room)
  }

  lemma OneMoreArrival(steps: seq<Step>, before: seq<TimelineEvent>, last: TimelineEvent)
    ensures steps + Arrivals(before) + [EventArrives(last)] == steps + Arrivals(before + [last])
  {
    assert Arrivals(before + [last]) == Arrivals(before) + [EventArrives(last)];
  }

  lemma {:induction false} OwnTimelineRan(c: Client, timeline: seq<TimelineEvent>, room: RoomId, steps: seq<Step>, limit: nat)
    requires RoomRan(c, room, steps, limit)
    ensures RoomRan(ArriveAll(c, room, timeline, limit), room, steps + Arrivals(timeline), limit)
  {
    if timeline == [] {
      assert steps + Arrivals(timeline) == steps;
    } else {
      var t, last := timeline[..|timeline| - 1], timeline[|timeline| - 1];
      OwnTimelineRan(c, t, room, steps, limit);
      ArriveInRan(ArriveAll(c, room, t, limit), room, last, room, steps + Arrivals(t), limit);
      OneMoreArrival(steps, t, last);
      assert timeline == t + [last];
    }
  }

  lemma {:induction false} OtherTimelineRan(c: Client, at: RoomId, timeline: seq<TimelineEvent>, room: RoomId, steps: seq<Step>, limit: nat)
    requires RoomRan(c, room, steps, limit) && at != room
    ensures RoomRan(ArriveAll(c, at, timeline, limit), room, steps, limit)
  {
    if timeline != [] {
      var t, last := timeline[..|timeline| - 1], timeline[|timeline| - 1];
      OtherTimelineRan(c, at, t, room, steps, limit);
      ArriveInRan(ArriveAll(c, at, t, limit), at, last, room, steps, limit);
    }
  }

  lemma WindowRan(c: Client, w: Window, room: RoomId, steps: seq<Step>, limit: nat)
    requires RoomRan(c, room, steps, limit)
    ensures RoomRan(ArriveAll(c, w.room, w.timeline, limit), room, if w.room == room then steps + Arrivals(w.timeline) else steps, limit)
  {
    if w.room == room {
      OwnTimelineRan(c, w.timeline, room, steps, limit);
    } else {
      OtherTimelineRan(c, w.room, w.timeline, room, steps, limit);
    }
  }

  lemma OneMoreWindow(steps: seq<Step>, before: seq<Window>, w: Window, room: RoomId)
    ensures steps + WindowArrivals(before + [w], room) ==
              if w.room == room then steps + WindowArrivals(before, room) + Arrivals(w.timeline) else steps + WindowArrivals(before, room)
  {
    assert (before + [w])[..|before|] == before;
  }

  lemma {:induction false} ArriveWindowsRan(c: Client, windows: seq<Window>, room: RoomId, steps: seq<Step>, limit: nat)
    requires RoomRan(c, room, steps, limit)
    ensures RoomRan(ArriveWindows(c, windows, limit), room, steps + WindowArrivals(windows, room), limit)
  {
    if windows == [] {
      assert steps + WindowArrivals(windows, room) == steps;
    } else {
      var before, w := windows[..|windows| - 1], windows[|windows| - 1];
      assert windows == before + [w];
      ArriveWindowsRan(c, before, room, steps, limit);
      WindowRan(ArriveWindows(c, before, limit), w, room, steps + WindowArrivals(before, room), limit);
      OneMoreWindow(steps, before, w, room);
    }
  }

  /** Every room of a client goes through a run of its own, which is exactly what the responses bring for it. */
  lemma {:induction false} EveryRoomRan(responses: seq<seq<Window>>, room: RoomId, limit: nat)
    ensures RoomRan(ClientRun(responses, limit), room, StepsOf(responses, room), limit)
  {
    if responses != [] {
      var before := ClientRun(responses[..|responses| - 1], limit);
      var steps := StepsOf(responses[..|responses| - 1], room);
      EveryRoomRan(responses[..|responses| - 1], room, limit);
      RunExtends(steps, ResponseBegins, limit);
      assert ClearIds(NOTHING_SEEN) == {};
      assert RoomOf(BeginAll(before), room) == Begin(RoomOf(before, room));
      ArriveWindowsRan(BeginAll(before), responses[|responses| - 1], room, steps + [ResponseBegins], limit);
    }
  }

  // ----- The order in which the application is handed events of all rooms -----

  function Items(w: Window): seq<Item> {
    seq(|w.timeline|, i requires 0 <= i < |w.timeline| => Item(w.room, w.timeline[i]))
  }

  function WindowItems(windows: seq<Window>): seq<Item> {
    if windows == [] then [] else WindowItems(windows[..|windows| - 1]) + Items(windows[|windows| - 1])
  }

  /** Everything the responses bring, in order. */
  function AllItems(responses: seq<seq<Window>>): seq<Item> {
    if responses == [] then [] else AllItems(responses[..|responses| - 1]) + WindowItems(responses[|responses| - 1])
  }

  /** These are items at increasing positions. */
  ghost predicate Selects(at: seq<nat>, items: seq<Item>, out: seq<Item>) {
    && |at| == |out|
    && (forall a :: 0 <= a < |at| ==> at[a] < |items| && out[a] == items[at[a]])
    && (forall a, b :: 0 <= a < b < |at| ==> at[a] < at[b])
  }

  lemma {:induction false} ArriveAllSelects(c: Client, w: Window, limit: nat, items: seq<Item>, at: seq<nat>) returns (after: seq<nat>)
    requires Selects(at, items, c.out)
    ensures Selects(after, items + Items(w), ArriveAll(c, w.room, w.timeline, limit).out)
    decreases |w.timeline|
  {
    after := at;
    if w.timeline == [] {
      assert items + Items(w) == items;
    } else {
      var n := |w.timeline| - 1;
      var t := Window(w.room, w.timeline[..n]);
      after := ArriveAllSelects(c, t, limit, items, at);
      var all := items + Items(w);
      assert all == items + Items(t) + [Item(w.room, w.timeline[n])];
      var before := ArriveAll(c, w.room, t.timeline, limit);
      if ArriveIn(before, w.room, w.timeline[n], limit).out != before.out {
        after := after + [|all| - 1];
      }
    }
  }

  lemma {:induction false} ArriveWindowsSelects(c: Client, windows: seq<Window>, limit: nat, items: seq<Item>, at: seq<nat>)
    returns (after: seq<nat>)
    requires Selects(at, items, c.out)
    ensures Selects(after, items + WindowItems(windows), ArriveWindows(c, windows, limit).out)
  {
    after := at;
    if windows == [] {
      assert items + WindowItems(windows) == items;
    } else {
      var before, w := windows[..|windows| - 1], windows[|windows| - 1];
      after := ArriveWindowsSelects(c, before, limit, items, at);
      after := ArriveAllSelects(ArriveWindows(c, before, limit), w, limit, items + WindowItems(before), after);
      assert items + WindowItems(before) + Items(w) == items + WindowItems(windows);
    }
  }

  /** The application is handed a selection of what the responses bring, each item once and in the order they bring it. */
  lemma {:induction false} HandedOverInOrder(responses: seq<seq<Window>>, limit: nat) returns (at: seq<nat>)
    ensures Selects(at, AllItems(responses), ClientRun(responses, limit).out)
  {
    at := [];
    if responses != [] {
      var before, last := responses[..|responses| - 1], responses[|responses| - 1];
      at := HandedOverInOrder(before, limit);
      at := ArriveWindowsSelects(BeginAll(ClientRun(before, limit)), last, limit, AllItems(before), at);
    }
  }

  /** What the application is handed for one id of one room, over any run of responses, with the client's window. */
  lemma ApplicationSeesAtMostOnce(responses: seq<seq<Window>>, room: RoomId, id: EventId)
    requires var recorded := RoomOf(ClientRun(responses, WINDOW), room).recorded;
             id in recorded ==> |recorded| - 1 - FirstIndex(recorded, id) <= WINDOW
    ensures AllowedDeliveries(Deliveries(HandedOver(ClientRun(responses, WINDOW).out, room), id), id)
    ensures |RoomOf(ClientRun(responses, WINDOW), room).seen.encrypted| <= WINDOW
  {
    var steps := StepsOf(responses, room);
    EveryRoomRan(responses, room, WINDOW);
    AtMostOnce(steps, WINDOW, id);
    BoundedMemory(steps, WINDOW);
  }
}
