/**
 * Recovering a device whose Olm session broke (src/nio/crypto/olm_machine.py): events that could not be
 * decrypted are parked until a dummy message has restarted the session, and are then requested again.
 */
module Unwedging {
  import opened Wrappers
  import opened Sequences
  import opened Devices

  /** An undecryptable group message: the device it came from and the group session it needs. */
  datatype LostEvent = LostEvent(device: DeviceKey, sessionId: string)

  /** Messages compare by content; two dummies are equal only with the same ciphertext. */
  datatype Message = Dummy(recipient: DeviceKey, ciphertext: nat) | KeyRequest(recipient: DeviceKey, sessionId: string) | Other(content: nat)

  datatype State = State(
    wedged: seq<DeviceKey>,
    parked: map<DeviceKey, seq<LostEvent>>,
    outgoing: seq<Message>,
    requested: set<string>)

  const START := State([], map[], [], {})

  function Parked(s: State, k: DeviceKey): seq<LostEvent> {
    if k in s.parked then s.parked[k] else []
  }

  /** The session ids of the events, each once, in the order of first occurrence. */
  function Sessions(events: seq<LostEvent>): seq<string> {
    if events == [] then []
    else
      var before := Sessions(events[..|events| - 1]);
      var id := events[|events| - 1].sessionId;
      if id in before then before else before + [id]
  }

  /** The re-requests for a parking list: one for the first event of each session. */
  function Requests(events: seq<LostEvent>): seq<Message> {
    if events == [] then []
    else
      var before := events[..|events| - 1];
      var e := events[|events| - 1];
      if e.sessionId in Sessions(before) then Requests(before) else Requests(before) + [KeyRequest(e.device, e.sessionId)]
  }

  // ----- Specification of the operations -----

  /** `_mark_device_for_unwedging`; `recent` is whether the newest session is younger than the interval. */
  function Mark(s: State, k: DeviceKey, recent: bool): State {
    if recent || k in s.wedged then s else s.(wedged := s.wedged + [k])
  }

  /** `check_if_wedged` for a known device. */
  function Check(s: State, e: LostEvent, hasSession: bool, recent: bool): State {
    if !hasSession then s
    else
      var t := if recent && e.sessionId !in s.requested
        then s.(outgoing := s.outgoing + [KeyRequest(e.device, e.sessionId)]) else s;
      if e.device in s.wedged then t.(parked := t.parked[e.device := Parked(t, e.device) + [e]]) else t
  }

  /** The part of `_handle_key_claiming` about wedged devices, for a verified one-time key. */
  function Claim(s: State, k: DeviceKey, ciphertext: nat): State {
    match ListRemove(s.wedged, k)
    case None => s
    case Some(rest) => s.(wedged := rest, outgoing := s.outgoing + [Dummy(k, ciphertext)])
  }

  /** `_mark_to_device_message_as_sent`: an unknown message changes nothing. */
  function Sent(s: State, m: Message): State {
    match ListRemove(s.outgoing, m)
    case None => s
    case Some(rest) =>
      if m.Dummy? then
        s.(outgoing := rest + Requests(Parked(s, m.recipient)), parked := s.parked - {m.recipient})
      else if m.KeyRequest? then
        s.(outgoing := rest, requested := s.requested + {m.sessionId})
      else s.(outgoing := rest)
  }

  class UnwedgingMachine {
    var wedgedDevices: seq<DeviceKey>
    var keyReRequestsEvents: map<DeviceKey, seq<LostEvent>>
    var outgoingToDeviceMessages: seq<Message>
    var outgoingKeyRequests: set<string>

    ghost function View(): State
      reads this
    {
      State(wedgedDevices, keyReRequestsEvents, outgoingToDeviceMessages, outgoingKeyRequests)
    }

    constructor ()
      ensures View() == START
    {
      wedgedDevices, keyReRequestsEvents, outgoingToDeviceMessages, outgoingKeyRequests := [], map[], [], {};
    }

    method MarkDeviceForUnwedging(device: Option<DeviceKey>, recent: bool)
      modifies this
      ensures View() == if device.Some? then Mark(old(View()), device.value, recent) else old(View())
    {
      if device.None? {
        return;
      }
      if recent {
        return;
      }
      if device.value !in wedgedDevices {
        wedgedDevices := wedgedDevices + [device.value];
      }
    }

    method CheckIfWedged(e: LostEvent, hasSession: bool, recent: bool)
      modifies this
      ensures View() == Check(old(View()), e, hasSession, recent)
    {
      if !hasSession {
        return;
      }
      if recent && e.sessionId !in outgoingKeyRequests {
        outgoingToDeviceMessages := outgoingToDeviceMessages + [KeyRequest(e.device, e.sessionId)];
      }
      if e.device in wedgedDevices {
        var events := if e.device in keyReRequestsEvents then keyReRequestsEvents[e.device] else [];
        keyReRequestsEvents := keyReRequestsEvents[e.device := events + [e]];
      }
    }

    method HandleClaimedKey(k: DeviceKey, ciphertext: nat)
      modifies this
      ensures View() == Claim(old(View()), k, ciphertext)
    {
      if k in wedgedDevices {
        wedgedDevices := ListRemove(wedgedDevices, k).value;
        outgoingToDeviceMessages := outgoingToDeviceMessages + [Dummy(k, ciphertext)];
      }
    }

    method MarkToDeviceMessageAsSent(message: Message)
      modifies this
      ensures View() == Sent(old(View()), message)
    {
      var rest := ListRemove(outgoingToDeviceMessages, message);
      if rest.None? {
        return;
      }
      outgoingToDeviceMessages := rest.value;
      if message.Dummy? {
        var events := if message.recipient in keyReRequestsEvents then keyReRequestsEvents[message.recipient] else [];
        keyReRequestsEvents := keyReRequestsEvents - {message.recipient};
        var requestedSessions: seq<string> := [];
        for i := 0 to |events|
          invariant requestedSessions == Sessions(events[..i])
          invariant outgoingToDeviceMessages == rest.value + Requests(events[..i])
          invariant keyReRequestsEvents == old(keyReRequestsEvents) - {message.recipient}
          invariant wedgedDevices == old(wedgedDevices) && outgoingKeyRequests == old(outgoingKeyRequests)
        {
          assert events[..i + 1][..i] == events[..i];
          if events[i].sessionId !in requestedSessions {
            outgoingToDeviceMessages := outgoingToDeviceMessages + [KeyRequest(events[i].device, events[i].sessionId)];
            requestedSessions := requestedSessions + [events[i].sessionId];
          }
        }
        assert events[..|events|] == events;
      } else if message.KeyRequest? {
        outgoingKeyRequests := outgoingKeyRequests + {message.sessionId};
      }
    }
  }

  // ----- One request per session, in order -----

  /** The session of each event. */
  function SessionIds(events: seq<LostEvent>): seq<string> {
    seq(|events|, i requires 0 <= i < |events| => events[i].sessionId)
  }

  /** The distinct sessions, in the order they first occur. */
  lemma {:induction false} SessionsInOrder(events: seq<LostEvent>)
    ensures var ids, all := Sessions(events), SessionIds(events);
            && NoDuplicates(ids)
            && (forall id :: id in ids <==> id in all)
            && (forall i, j :: 0 <= i < j < |ids| ==> FirstIndex(all, ids[i]) < FirstIndex(all, ids[j]))
  {
    if events != [] {
      var before, e := events[..|events| - 1], events[|events| - 1];
      SessionsInOrder(before);
      var ids, all := Sessions(before), SessionIds(before);
      assert SessionIds(events) == all + [e.sessionId];
      AppendDistinct(ids, e.sessionId);
      forall k | 0 <= k < |ids| ensures FirstIndex(all + [e.sessionId], ids[k]) == FirstIndex(all, ids[k]) < |all| {
        assert ids[k] in ids;
        FirstIndexExtends(all, e.sessionId, ids[k]);
      }
      FirstIndexExtends(all, e.sessionId, e.sessionId);
    }
  }

  lemma {:induction false} RequestsMatchSessions(events: seq<LostEvent>)
    ensures var ids, requests := Sessions(events), Requests(events);
            && |requests| == |ids|
            && forall i :: 0 <= i < |ids| ==>
              requests[i].KeyRequest? && requests[i].sessionId == ids[i] && LostEvent(requests[i].recipient, ids[i]) in events
  {
    if events != [] {
      var before, e := events[..|events| - 1], events[|events| - 1];
      assert events == before + [e];
      RequestsMatchSessions(before);
      assert forall x :: x in events <==> x in before || x == e;
    }
  }

  lemma SessionOccurs(events: seq<LostEvent>, id: string)
    ensures id in SessionIds(events) <==> exists e :: e in events && e.sessionId == id
  {
    if e :| e in events && e.sessionId == id {
      var k :| 0 <= k < |events| && events[k] == e;
      assert SessionIds(events)[k] == id;
    }
  }

  /** Exactly one request per distinct session, in the order the sessions first occur in the parking list. */
  lemma RequestsAreDistinctInOrder(events: seq<LostEvent>)
    ensures var ids := Sessions(events);
            && NoDuplicates(ids)
            && (forall id :: id in ids <==> exists e :: e in events && e.sessionId == id)
            && (forall i, j :: 0 <= i < j < |ids| ==> FirstIndex(SessionIds(events), ids[i]) < FirstIndex(SessionIds(events), ids[j]))
            && |Requests(events)| == |ids|
            && forall i :: 0 <= i < |ids| ==>
              Requests(events)[i].KeyRequest? && Requests(events)[i].sessionId == ids[i]
              && LostEvent(Requests(events)[i].recipient, ids[i]) in events
  {
    SessionsInOrder(events);
    RequestsMatchSessions(events);
    forall id ensures id in Sessions(events) <==> exists e :: e in events && e.sessionId == id {
      SessionOccurs(events, id);
    }
  }

  // ----- Whole runs -----

  datatype Step =
    | Marked(device: DeviceKey, recent: bool)
    | Undecryptable(event: LostEvent, hasSession: bool, recent: bool)
    | KeyClaimed(device: DeviceKey, ciphertext: nat)
    | Acknowledged(message: Message)
    | Queued(content: nat)

  function Next(s: State, step: Step): State {
    match step
    case Marked(k, recent) => Mark(s, k, recent)
    case Undecryptable(e, hasSession, recent) => Check(s, e, hasSession, recent)
    case KeyClaimed(k, c) => Claim(s, k, c)
    case Acknowledged(m) => Sent(s, m)
    case Queued(c) => s.(outgoing := s.outgoing + [Other(c)])
  }

  function Run(steps: seq<Step>): State {
    if steps == [] then START else Next(Run(steps[..|steps| - 1]), steps[|steps| - 1])
  }

  // ----- What every step changes, and when -----

  /** A device is wedged from a mark without a recent session until a key is claimed for it. */
  lemma WedgedIff(s: State, step: Step, k: DeviceKey)
    requires NoDuplicates(s.wedged)
    ensures NoDuplicates(Next(s, step).wedged)
    ensures k in Next(s, step).wedged <==>
              step == Marked(k, false) || (k in s.wedged && !(step.KeyClaimed? && step.device == k))
  {
    match step
    case Marked(d, _) => AppendDistinct(s.wedged, d);
    case KeyClaimed(d, _) =>
      if d in s.wedged {
        ListRemoveDistinct(s.wedged, d);
      }
    case _ =>
  }

  /** An event is parked, after those parked before, exactly if its device has a session and is wedged; an acknowledged dummy empties the list. */
  lemma ParkedExact(s: State, step: Step, k: DeviceKey)
    ensures Parked(Next(s, step), k) ==
              if step.Undecryptable? && step.hasSession && step.event.device == k && k in s.wedged
              then Parked(s, k) + [step.event]
              else if step.Acknowledged? && step.message.Dummy? && step.message.recipient == k && step.message in s.outgoing
              then []
              else Parked(s, k)
  {
  }

  /** What joins the outgoing messages: a request at once for a session not asked for yet, a dummy for a wedged device, or another message. */
  lemma OutgoingGrows(s: State, step: Step)
    requires !step.Acknowledged?
    ensures Next(s, step).outgoing == s.outgoing +
              match step
              case Undecryptable(e, hasSession, recent) =>
                (if hasSession && recent && e.sessionId !in s.requested then [KeyRequest(e.device, e.sessionId)] else [])
              case KeyClaimed(k, ciphertext) => (if k in s.wedged then [Dummy(k, ciphertext)] else [])
              case Queued(content) => [Other(content)]
              case Marked(_, _) => []
  {
  }

  /** The first copy of an acknowledged message leaves the list, the others keep their order, and a dummy is followed by the requests for what was parked. */
  lemma AcknowledgedLeaves(s: State, m: Message)
    requires m in s.outgoing
    ensures var k := FirstIndex(s.outgoing, m);
            && k < |s.outgoing| && s.outgoing[k] == m
            && var rest := s.outgoing[..k] + s.outgoing[k + 1..];
               Next(s, Acknowledged(m)).outgoing == if m.Dummy? then rest + Requests(Parked(s, m.recipient)) else rest
  {
    FirstIndexIsFirst(s.outgoing, m);
    ListRemoveFirst(s.outgoing, m);
  }

  /** A session counts as asked for exactly once a request for it is acknowledged, and an unknown acknowledgement changes nothing. */
  lemma RequestedIff(s: State, step: Step, id: string)
    ensures id in Next(s, step).requested <==>
              || id in s.requested
              || (step.Acknowledged? && step.message in s.outgoing && step.message.KeyRequest? && step.message.sessionId == id)
    ensures step.Acknowledged? && step.message !in s.outgoing ==> Next(s, step) == s
  {
  }

  lemma RunExtends(steps: seq<Step>, step: Step)
    ensures Run(steps + [step]) == Next(Run(steps), step)
  {
    assert (steps + [step])[..|steps|] == steps;
  }

  /** A device breaks, an event is lost, a session is claimed and its dummy acknowledged: the event's session is asked for. */
  lemma WedgedThenAsked(e: LostEvent, ciphertext: nat) returns (steps: seq<Step>)
    ensures e in EverParked(steps)
    ensures Run(steps) == State([], map[], [KeyRequest(e.device, e.sessionId)], {})
  {
    var mark, lost, claim, sent := Marked(e.device, false), Undecryptable(e, true, false),
      KeyClaimed(e.device, ciphertext), Acknowledged(Dummy(e.device, ciphertext));
    RunExtends([], mark);
    assert Run([] + [mark]) == State([e.device], map[], [], {});
    RunExtends([] + [mark], lost);
    var two := [] + [mark] + [lost];
    assert two[..1] == [] + [mark];
    assert e in EverParked(two);
    assert [] + [e] == [e];
    assert Parked(State([e.device], map[], [], {}), e.device) == [];
    assert map[][e.device := [e]] == map[e.device := [e]];
    assert Run(two) == State([e.device], map[e.device := [e]], [], {});
    RunExtends(two, claim);
    var three := two + [claim];
    assert three[..2] == two && e in EverParked(three);
    assert Run(three) == State([], map[e.device := [e]], [Dummy(e.device, ciphertext)], {});
    RunExtends(three, sent);
    steps := three + [sent];
    assert steps[..3] == three;
    assert [e][..0] == [] && Requests([e]) == [KeyRequest(e.device, e.sessionId)];
    assert map[e.device := [e]] - {e.device} == map[];
  }

  ghost predicate DummyOut(s: State, k: DeviceKey) {
    exists m :: m in s.outgoing && m.Dummy? && m.recipient == k
  }

  /** A device with parked events is wedged, or a dummy to it is still to be acknowledged. */
  ghost predicate NoOrphans(s: State) {
    && NoDuplicates(s.wedged)
    && (forall k :: k in s.parked ==> forall e :: e in s.parked[k] ==> e.device == k)
    && forall k :: Parked(s, k) != [] ==> k in s.wedged || DummyOut(s, k)
  }

  lemma RemovalKeepsOthers(s: seq<Message>, m: Message, x: Message)
    requires m in s && x in s && x != m
    ensures x in ListRemove(s, m).value
  {
    var r := ListRemove(s, m).value;
    assert x in multiset(s);
    assert multiset(r)[x] == multiset(s)[x];
    assert x in multiset(r);
  }

  lemma DummyStays(s: State, step: Step, k: DeviceKey)
    requires DummyOut(s, k) && Parked(Next(s, step), k) != []
    ensures DummyOut(Next(s, step), k)
  {
    var m :| m in s.outgoing && m.Dummy? && m.recipient == k;
    if step.Acknowledged? && step.message in s.outgoing {
      RemovalKeepsOthers(s.outgoing, step.message, m);
    }
    assert m in Next(s, step).outgoing;
  }

  /** No step orphans a parked event. */
  lemma StepKeepsParked(s: State, step: Step)
    requires NoOrphans(s)
    ensures NoOrphans(Next(s, step))
  {
    var t := Next(s, step);
    if step.KeyClaimed? && step.device in s.wedged {
      ListRemoveDistinct(s.wedged, step.device);
      assert Dummy(step.device, step.ciphertext) in t.outgoing;
    }
    if step.Marked? {
      AppendDistinct(s.wedged, step.device);
    }
    forall k | Parked(t, k) != [] ensures k in t.wedged || DummyOut(t, k) {
      if k !in t.wedged && k !in s.wedged {
        assert Parked(s, k) != [];
        DummyStays(s, step, k);
      }
    }
  }

  lemma {:induction false} ReachableHasNoOrphans(steps: seq<Step>)
    ensures NoOrphans(Run(steps))
  {
    if steps != [] {
      ReachableHasNoOrphans(steps[..|steps| - 1]);
      StepKeepsParked(Run(steps[..|steps| - 1]), steps[|steps| - 1]);
    }
  }

  /** Every request a run has ever put on the outgoing list. */
  ghost function Asked(steps: seq<Step>): set<Message> {
    if steps == [] then {}
    else
      var before := steps[..|steps| - 1];
      Asked(before) + set m | m in Run(steps).outgoing && m.KeyRequest?
  }

  /** Every event a run has ever parked. */
  ghost function EverParked(steps: seq<Step>): set<LostEvent> {
    if steps == [] then {}
    else
      var before := steps[..|steps| - 1];
      var last := steps[|steps| - 1];
      EverParked(before) +
      (if last.Undecryptable? && last.hasSession && last.event.device in Run(before).wedged then {last.event} else {})
  }

  lemma {:induction false} RequestsCover(events: seq<LostEvent>, k: DeviceKey, e: LostEvent)
    requires e in events && forall x :: x in events ==> x.device == k
    ensures KeyRequest(k, e.sessionId) in Requests(events)
  {
    RequestsAreDistinctInOrder(events);
    var ids := Sessions(events);
    assert e.sessionId in ids;
    var i :| 0 <= i < |ids| && ids[i] == e.sessionId;
    assert Requests(events)[i] in Requests(events);
  }

  lemma StepKeepsEvent(s: State, step: Step, e: LostEvent)
    requires NoOrphans(s) && e in Parked(s, e.device)
    ensures e in Parked(Next(s, step), e.device) || KeyRequest(e.device, e.sessionId) in Next(s, step).outgoing
  {
    if step.Acknowledged? && step.message.Dummy? && step.message.recipient == e.device {
      RequestsCover(s.parked[e.device], e.device, e);
    }
  }

  /** Over any run, a parked event is still parked or its session has been requested from its device. */
  lemma {:induction false} ParkedOrAsked(steps: seq<Step>, e: LostEvent)
    requires e in EverParked(steps)
    ensures e in Parked(Run(steps), e.device) || KeyRequest(e.device, e.sessionId) in Asked(steps)
  {
    var before := steps[..|steps| - 1];
    if e in EverParked(before) {
      ParkedOrAsked(before, e);
      if e in Parked(Run(before), e.device) {
        ReachableHasNoOrphans(before);
        StepKeepsEvent(Run(before), steps[|steps| - 1], e);
      }
    }
  }

  /** Once no device is wedged and every dummy is acknowledged, every session that was ever parked has been requested. */
  lemma QuietMeansAllAsked(steps: seq<Step>, e: LostEvent)
    requires e in EverParked(steps) && Run(steps).wedged == [] && forall m :: m in Run(steps).outgoing ==> !m.Dummy?
    ensures KeyRequest(e.device, e.sessionId) in Asked(steps)
  {
    ParkedOrAsked(steps, e);
    ReachableHasNoOrphans(steps);
    assert Parked(Run(steps), e.device) != [] ==> DummyOut(Run(steps), e.device);
  }
}
