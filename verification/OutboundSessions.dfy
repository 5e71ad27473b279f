/**
 * Which outbound group session a room message may be encrypted with
 * (src/nio/client/base_client.py, src/nio/crypto/olm_machine.py).
 */
module OutboundSessions {
  import opened Wrappers
  import opened Sequences
  import opened Devices
  import opened RoomIndex
  import GroupSharing

  datatype GroupSession = GroupSession(id: nat, shared: bool, sharedWith: set<DeviceKey>, ignored: set<DeviceKey>)

  /** The machine's sessions, one per room; ids are never reused. */
  datatype Sessions = Sessions(byRoom: map<string, GroupSession>, nextId: nat)

  datatype JoinedRoom = JoinedRoom(members: Room, encrypted: bool)

  datatype Client = Client(rooms: map<string, JoinedRoom>, sessions: Sessions)

  /** Active device ids of a user. */
  type ActiveDevices = map<string, set<string>>

  // ----- Specification of the session operations -----

  /** Pops the session, and puts it back when it was not shared yet. */
  function Invalidate(s: Sessions, room: string): Sessions {
    if room in s.byRoom && s.byRoom[room].shared then s.(byRoom := s.byRoom - {room}) else s
  }

  function Create(s: Sessions, room: string): Sessions {
    Sessions(s.byRoom[room := GroupSession(s.nextId, false, {}, {})], s.nextId + 1)
  }

  /** Encrypting creates or rotates as needed; the answer is the session used, if it was shared. */
  function GroupEncrypt(s: Sessions, room: string, expired: bool): (Sessions, Option<nat>) {
    var present := if room in s.byRoom then s else Create(s, room);
    var current := if expired then Create(present, room) else present;
    var session := current.byRoom[room];
    (current, if session.shared then Some(session.id) else None)
  }

  function DeviceSets(active: map<string, seq<string>>): ActiveDevices {
    map u | u in active :: Elements(active[u])
  }

  predicate Covered(session: GroupSession, users: set<string>, active: ActiveDevices) {
    forall u, d :: u in users && u in active && d in active[u] ==>
      DeviceKey(u, d) in session.sharedWith || DeviceKey(u, d) in session.ignored
  }

  /** An acknowledged share request; the session is shared once every active device is covered. */
  function Acknowledge(s: Sessions, room: string, users: set<string>, active: ActiveDevices, sent: set<DeviceKey>): Sessions {
    if room !in s.byRoom then s
    else
      var session := s.byRoom[room].(sharedWith := s.byRoom[room].sharedWith + sent);
      s.(byRoom := s.byRoom[room := session.(shared := session.shared || Covered(session, users, active))])
  }

  /** An invalidation drops the room's session exactly when it is shared, and no other. */
  lemma InvalidateExact(s: Sessions, room: string, r: string)
    ensures var t := Invalidate(s, room);
            && (r in t.byRoom <==> r in s.byRoom && !(r == room && s.byRoom[r].shared))
            && (r in t.byRoom ==> t.byRoom[r] == s.byRoom[r])
            && t.nextId == s.nextId
  {
  }

  /** A new session takes the room's place with a fresh id, shared with nobody, and leaves every other room's alone. */
  lemma CreateExact(s: Sessions, room: string, r: string)
    ensures var t := Create(s, room);
            && (r in t.byRoom <==> r == room || r in s.byRoom)
            && (r in t.byRoom ==> t.byRoom[r] == if r == room then GroupSession(s.nextId, false, {}, {}) else s.byRoom[r])
            && t.nextId == s.nextId + 1
  {
  }

  /** Encrypting leaves an unexpired session in place, and puts a new one, shared with nobody, where there is none or it has expired. */
  lemma EncryptLeaves(s: Sessions, room: string, expired: bool, r: string)
    ensures var t := GroupEncrypt(s, room, expired).0;
            && (r in t.byRoom <==> r == room || r in s.byRoom)
            && (r in s.byRoom && !(r == room && expired) ==> t.byRoom[r] == s.byRoom[r])
            && (room !in s.byRoom || expired ==>
                var g := t.byRoom[room]; g.id >= s.nextId && !g.shared && g.sharedWith == {} && g.ignored == {})
  {
  }

  /** Only a session that was there before, unexpired and shared, ever encrypts, and then nothing is created or rotated. */
  lemma EncryptsIff(s: Sessions, room: string, expired: bool, id: nat)
    ensures GroupEncrypt(s, room, expired).1 == Some(id) <==>
              !expired && room in s.byRoom && s.byRoom[room].shared && s.byRoom[room].id == id
    ensures GroupEncrypt(s, room, expired).1 == Some(id) ==> GroupEncrypt(s, room, expired).0 == s
  {
  }

  // ----- The machine's own object -----

  class OutboundSessionTable {
    var sessions: map<string, GroupSession>
    var nextId: nat

    ghost function View(): Sessions
      reads this
    {
      Sessions(sessions, nextId)
    }

    constructor ()
      ensures View() == Sessions(map[], 0)
    {
      sessions, nextId := map[], 0;
    }

    method CreateSession(room: string)
      modifies this
      ensures View() == Create(old(View()), room)
    {
      sessions := sessions[room := GroupSession(nextId, false, {}, {})];
      nextId := nextId + 1;
    }

    /** `invalidate_outbound_session` without a durable session. */
    method InvalidateSession(room: string)
      modifies this
      ensures View() == Invalidate(old(View()), room)
    {
      if room in sessions {
        var session := sessions[room];
        sessions := sessions - {room};
        if !session.shared {
          sessions := sessions[room := session];
          assert sessions == old(sessions);
        }
      }
    }

    /** `group_encrypt`; `expired` is the session's age or count check at this moment. */
    method Encrypt(room: string, expired: bool) returns (used: Option<nat>)
      modifies this
      ensures (View(), used) == GroupEncrypt(old(View()), room, expired)
    {
      if room !in sessions {
        CreateSession(room);
      }
      if expired {
        CreateSession(room);
      }
      used := if sessions[room].shared then Some(sessions[room].id) else None;
    }

    /** `_handle_olm_response` for one share response. */
    method HandleShareResponse(room: string, users: seq<string>, active: map<string, seq<string>>, sent: set<DeviceKey>)
      modifies this
      ensures View() == Acknowledge(old(View()), room, Elements(users), DeviceSets(active), sent)
    {
      if room !in sessions {
        return;
      }
      var session := sessions[room].(sharedWith := sessions[room].sharedWith + sent);
      sessions := sessions[room := session];
      for i := 0 to |users|
        invariant sessions == old(sessions)[room := session] && nextId == old(nextId)
        invariant forall j, d :: 0 <= j < i && users[j] in active && d in active[users[j]] ==>
            DeviceKey(users[j], d) in session.sharedWith || DeviceKey(users[j], d) in session.ignored
      {
        var devices := if users[i] in active then active[users[i]] else [];
        for k := 0 to |devices|
          invariant sessions == old(sessions)[room := session] && nextId == old(nextId)
          invariant forall d :: d in devices[..k] ==>
              DeviceKey(users[i], d) in session.sharedWith || DeviceKey(users[i], d) in session.ignored
        {
          var device := DeviceKey(users[i], devices[k]);
          if device !in session.sharedWith && device !in session.ignored {
            NotCovered(session, users, active, device);
            return;
          }
        }
      }
      sessions := sessions[room := session.(shared := true)];
    }
  }

  lemma NotCovered(session: GroupSession, users: seq<string>, active: map<string, seq<string>>, device: DeviceKey)
    requires device.userId in users && device.userId in active && device.deviceId in active[device.userId]
    requires device !in session.sharedWith && device !in session.ignored
    ensures !Covered(session, Elements(users), DeviceSets(active))
  {
    var u, d := device.userId, device.deviceId;
    assert u in Elements(users) && d in DeviceSets(active)[u] && DeviceKey(u, d) == device;
  }

  // ----- Whole runs -----

  datatype Step =
    | MemberEventSeen(room: string, event: MemberEvent)
    | MemberStubSeen(room: string, userId: string)
    | EncryptionSeen(room: string)
    | SnapshotSeen(room: string)
    | RoomSeen(room: string, encrypted: bool)
    | RoomGone(room: string)
    | HeroSeen(room: string, profile: Profile, invited: bool)
    | MembersListed(room: string, listed: seq<string>, members: seq<Profile>)
    | Invalidated(room: string)
    | SharingStarted(room: string)
    | DevicesIgnored(room: string, devices: set<DeviceKey>)
    | ShareAcknowledged(room: string, active: ActiveDevices, sent: set<DeviceKey>)
    | SharingFinished(room: string)
    | MessageEncrypted(room: string, expired: bool)

  /** What the history of a run records. */
  datatype Note =
    | MembersChanged(room: string)
    | BecameShared(room: string, id: nat)
    | Used(room: string, id: nat)

  function Members(c: Client, room: string): Room {
    if room in c.rooms then c.rooms[room].members else EMPTY_ROOM
  }

  ghost predicate ValidClient(c: Client) {
    && (forall r :: r in c.rooms ==> IndexExact(c.rooms[r].members))
    && (forall r :: r in c.sessions.byRoom ==> c.sessions.byRoom[r].id < c.sessions.nextId)
  }

  /** What a step does to the member table of its room, and whether the mutator reports a changed member set. */
  function MemberChange(m: Room, step: Step): (Room, bool) {
    match step
    case MemberEventSeen(_, e) => OrUnchanged(m, HandleMembership(m, e))
    case MemberStubSeen(_, u) => OrUnchanged(m, RemoveMember(m, u))
    case SnapshotSeen(_) => (EMPTY_ROOM, false)
    case HeroSeen(_, p, invited) => (AddMember(m, p.userId, p.displayName, p.avatarUrl, invited).0, false)
    case MembersListed(_, listed, members) =>
      (match Refresh(m, listed, members) case None => (m, false) case Some(t) => (t, false))
    case _ => (m, false)
  }

  function OrUnchanged(m: Room, change: Option<(Room, bool)>): (Room, bool) {
    if change.Some? then change.value else (m, false)
  }

  function NextRooms(rooms: map<string, JoinedRoom>, step: Step): map<string, JoinedRoom> {
    var r := step.room;
    if r !in rooms then
      if step.RoomSeen? then rooms[r := JoinedRoom(EMPTY_ROOM, step.encrypted)] else rooms
    else if step.RoomGone? then rooms - {r}
    else
      rooms[r := JoinedRoom(MemberChange(rooms[r].members, step).0, rooms[r].encrypted || step.EncryptionSeen?)]
  }

  /** Changes the room's session when there is one. */
  function Adjust(s: Sessions, room: string, f: GroupSession -> GroupSession): Sessions {
    if room in s.byRoom then s.(byRoom := s.byRoom[room := f(s.byRoom[room])]) else s
  }

  /** The two triggers of an invalidation during a sync, and the session calls themselves. */
  function NextSessions(s: Sessions, joined: Option<JoinedRoom>, step: Step): Sessions {
    var r := step.room;
    match step
    case Invalidated(_) => Invalidate(s, r)
    case MessageEncrypted(_, expired) => GroupEncrypt(s, r, expired).0
    case SharingStarted(_) => if r in s.byRoom && !s.byRoom[r].shared then s else Create(s, r)
    case SharingFinished(_) => Adjust(s, r, (g: GroupSession) => g.(shared := true))
    case DevicesIgnored(_, ds) => Adjust(s, r, (g: GroupSession) => g.(ignored := g.ignored + ds))
    case ShareAcknowledged(_, active, sent) =>
      if joined.None? then s else Acknowledge(s, r, joined.value.members.users.Keys, active, sent)
    case _ =>
      if joined.Some? && (MemberChange(joined.value.members, step).1 || (step.SnapshotSeen? && joined.value.encrypted))
      then Invalidate(s, r) else s
  }

  function Next(c: Client, step: Step): Client {
    var joined := if step.room in c.rooms then Some(c.rooms[step.room]) else None;
    Client(NextRooms(c.rooms, step), NextSessions(c.sessions, joined, step))
  }

  predicate SharedIn(c: Client, room: string) {
    room in c.sessions.byRoom && c.sessions.byRoom[room].shared
  }

  /** Steps that carry a membership event, a deletion of one, or a fresh snapshot of an encrypted room. */
  predicate Reports(c: Client, step: Step) {
    || step.MemberEventSeen?
    || step.MemberStubSeen?
    || (step.SnapshotSeen? && step.room in c.rooms && c.rooms[step.room].encrypted)
  }

  function Notes(c: Client, step: Step): seq<Note> {
    var d := Next(c, step);
    var r := step.room;
    var changed := if Reports(c, step) && (Members(c, r).users.Keys != Members(d, r).users.Keys || step.SnapshotSeen?)
      then [MembersChanged(r)] else [];
    var shared := if SharedIn(d, r) && !(SharedIn(c, r) && c.sessions.byRoom[r].id == d.sessions.byRoom[r].id)
      then [BecameShared(r, d.sessions.byRoom[r].id)] else [];
    var used := if step.MessageEncrypted? && GroupEncrypt(c.sessions, r, step.expired).1.Some?
      then [Used(r, GroupEncrypt(c.sessions, r, step.expired).1.value)] else [];
    changed + shared + used
  }

  function Run(steps: seq<Step>): (Client, seq<Note>) {
    if steps == [] then (Client(map[], Sessions(map[], 0)), [])
    else
      var (c, h) := Run(steps[..|steps| - 1]);
      (Next(c, steps[|steps| - 1]), h + Notes(c, steps[|steps| - 1]))
  }

  /** The session became shared at some point after which no change of this room's members was reported. */
  ghost predicate FreshSince(h: seq<Note>, room: string, id: nat) {
    exists j :: 0 <= j < |h| && h[j] == BecameShared(room, id) && MembersChanged(room) !in h[j..]
  }

  ghost predicate EveryUseFresh(h: seq<Note>) {
    forall i :: 0 <= i < |h| && h[i].Used? ==> FreshSince(h[..i], h[i].room, h[i].id)
  }

  ghost predicate SharedIsFresh(c: Client, h: seq<Note>) {
    forall r :: SharedIn(c, r) ==> FreshSince(h, r, c.sessions.byRoom[r].id)
  }

  /** The tables stay exact, and an event or stub is reported exactly when it changes the member set. */
  lemma MemberChangeExact(m: Room, step: Step)
    requires IndexExact(m)
    ensures IndexExact(MemberChange(m, step).0)
    ensures step.MemberEventSeen? || step.MemberStubSeen? ==>
              (MemberChange(m, step).1 <==> MemberChange(m, step).0.users.Keys != m.users.Keys)
  {
    match step
    case MemberEventSeen(r, e) => HandleMembershipExact(m, e);
    case MemberStubSeen(r, u) => RemoveMemberExact(m, u);
    case HeroSeen(r, p, invited) => AddMemberExact(m, p.userId, p.displayName, p.avatarUrl, invited);
    case MembersListed(r, listed, members) => RefreshExact(m, listed, members);
    case SnapshotSeen(_) => EmptyExact();
    case _ =>
  }

  lemma StepKeepsValid(c: Client, step: Step)
    requires ValidClient(c)
    ensures ValidClient(Next(c, step))
  {
    RoomsStayExact(c.rooms, step);
    IdsStayFresh(c, step);
  }

  lemma RoomsStayExact(rooms: map<string, JoinedRoom>, step: Step)
    requires forall r :: r in rooms ==> IndexExact(rooms[r].members)
    ensures forall r :: r in NextRooms(rooms, step) ==> IndexExact(NextRooms(rooms, step)[r].members)
  {
    EmptyExact();
    if step.room in rooms {
      MemberChangeExact(rooms[step.room].members, step);
    }
  }

  lemma IdsStayFresh(c: Client, step: Step)
    requires forall r :: r in c.sessions.byRoom ==> c.sessions.byRoom[r].id < c.sessions.nextId
    ensures var t := Next(c, step).sessions; forall r :: r in t.byRoom ==> t.byRoom[r].id < t.nextId
  {
  }

  /** No shared session survives a report that the members of its room changed. */
  lemma ReportDropsShared(c: Client, step: Step)
    requires ValidClient(c) && Reports(c, step)
    requires Members(c, step.room).users.Keys != Members(Next(c, step), step.room).users.Keys || step.SnapshotSeen?
    ensures !SharedIn(Next(c, step), step.room)
  {
    MemberChangeExact(c.rooms[step.room].members, step);
  }

  /**
   * A change of the member set leaves a shared session in place exactly when nothing reports it:
   * a hero, a joined-members refresh, a room that goes away, or a snapshot of an unencrypted room.
   */
  lemma SurvivesIffUnreported(c: Client, step: Step)
    requires ValidClient(c) && SharedIn(c, step.room)
    requires Members(c, step.room).users.Keys != Members(Next(c, step), step.room).users.Keys
    ensures SharedIn(Next(c, step), step.room) <==> !Reports(c, step)
  {
    if Reports(c, step) {
      ReportDropsShared(c, step);
    }
  }

  /** Of everything a sync brings, exactly a member event or stub that changes the member set, and a snapshot of an encrypted room, drop a session, and only a shared one. */
  lemma SyncStepExact(c: Client, step: Step)
    requires ValidClient(c)
    requires step.MemberEventSeen? || step.MemberStubSeen? || step.EncryptionSeen? || step.SnapshotSeen?
             || step.RoomSeen? || step.RoomGone? || step.HeroSeen? || step.MembersListed?
    ensures var r := step.room;
            var changes := Members(Next(c, step), r).users.Keys != Members(c, r).users.Keys;
            Next(c, step).sessions ==
              if SharedIn(c, r) && r in c.rooms
                && (((step.MemberEventSeen? || step.MemberStubSeen?) && changes) || (step.SnapshotSeen? && c.rooms[r].encrypted))
              then Sessions(c.sessions.byRoom - {r}, c.sessions.nextId)
              else c.sessions
  {
    if step.room in c.rooms {
      MemberChangeExact(c.rooms[step.room].members, step);
    }
  }

  /** Starting to share keeps a session that is not shared yet and replaces any other; ignoring and finishing touch only their own part of it. */
  lemma SharingStepExact(c: Client, step: Step)
    requires step.SharingStarted? || step.SharingFinished? || step.DevicesIgnored?
    ensures var r, s, t := step.room, c.sessions, Next(c, step).sessions;
            && (forall x :: x != r ==> (x in t.byRoom <==> x in s.byRoom) && (x in s.byRoom ==> t.byRoom[x] == s.byRoom[x]))
            && (step.SharingStarted? ==>
                r in t.byRoom && !t.byRoom[r].shared
                && (if r in s.byRoom && !s.byRoom[r].shared then t == s
                    else t.byRoom[r].id == s.nextId && t.byRoom[r].sharedWith == {} && t.byRoom[r].ignored == {}))
            && (!step.SharingStarted? ==> (r in t.byRoom <==> r in s.byRoom) && t.nextId == s.nextId)
            && (step.SharingFinished? && r in s.byRoom ==> t.byRoom[r] == s.byRoom[r].(shared := true))
            && (step.DevicesIgnored? && r in s.byRoom ==>
                t.byRoom[r] == s.byRoom[r].(ignored := s.byRoom[r].ignored + step.devices))
  {
  }

  /** Every step keeps the shared sessions fresh and uses only fresh ones. */
  lemma StepKeepsFresh(c: Client, h: seq<Note>, step: Step)
    requires ValidClient(c) && SharedIsFresh(c, h) && EveryUseFresh(h)
    ensures SharedIsFresh(Next(c, step), h + Notes(c, step))
    ensures EveryUseFresh(h + Notes(c, step))
  {
    var d, notes := Next(c, step), Notes(c, step);
    forall r | SharedIn(d, r) ensures FreshSince(h + notes, r, d.sessions.byRoom[r].id) {
      SharedStaysFresh(c, h, step, r);
    }
    forall i | 0 <= i < |h + notes| && (h + notes)[i].Used?
      ensures FreshSince((h + notes)[..i], (h + notes)[i].room, (h + notes)[i].id)
    {
      if i < |h| {
        assert (h + notes)[..i] == h[..i];
      } else {
        UseIsFresh(c, h, step, i);
      }
    }
  }

  lemma SharedStaysFresh(c: Client, h: seq<Note>, step: Step, r: string)
    requires ValidClient(c) && SharedIsFresh(c, h) && SharedIn(Next(c, step), r)
    ensures FreshSince(h + Notes(c, step), r, Next(c, step).sessions.byRoom[r].id)
  {
    var notes := Notes(c, step);
    var id := Next(c, step).sessions.byRoom[r].id;
    NoChangeNoted(c, step, r);
    if SharedIn(c, r) && c.sessions.byRoom[r].id == id {
      FreshExtends(h, notes, r, id);
    } else {
      NewlyShared(c, step, r);
      var k :| 0 <= k < |notes| && notes[k] == BecameShared(r, id);
      assert (h + notes)[|h| + k..] == notes[k..];
      assert (h + notes)[|h| + k] == BecameShared(r, id);
    }
  }

  lemma FreshExtends(h: seq<Note>, notes: seq<Note>, r: string, id: nat)
    requires FreshSince(h, r, id) && MembersChanged(r) !in notes
    ensures FreshSince(h + notes, r, id)
  {
    var j :| 0 <= j < |h| && h[j] == BecameShared(r, id) && MembersChanged(r) !in h[j..];
    assert (h + notes)[j..] == h[j..] + notes;
    assert (h + notes)[j] == BecameShared(r, id);
  }

  lemma NoChangeNoted(c: Client, step: Step, r: string)
    requires ValidClient(c) && SharedIn(Next(c, step), r)
    ensures MembersChanged(r) !in Notes(c, step)
  {
    if r == step.room && Reports(c, step)
      && (Members(c, r).users.Keys != Members(Next(c, step), r).users.Keys || step.SnapshotSeen?) {
      ReportDropsShared(c, step);
    }
  }

  lemma NewlyShared(c: Client, step: Step, r: string)
    requires SharedIn(Next(c, step), r)
    requires !(SharedIn(c, r) && c.sessions.byRoom[r].id == Next(c, step).sessions.byRoom[r].id)
    ensures BecameShared(r, Next(c, step).sessions.byRoom[r].id) in Notes(c, step)
  {
    assert r == step.room by {
      if r != step.room {
        SessionsOfOthers(c, step, r);
      }
    }
  }

  lemma SessionsOfOthers(c: Client, step: Step, r: string)
    requires r != step.room
    ensures r in Next(c, step).sessions.byRoom <==> r in c.sessions.byRoom
    ensures r in c.sessions.byRoom ==> Next(c, step).sessions.byRoom[r] == c.sessions.byRoom[r]
  {
  }

  lemma UseIsFresh(c: Client, h: seq<Note>, step: Step, i: nat)
    requires ValidClient(c) && SharedIsFresh(c, h)
    requires |h| <= i < |h + Notes(c, step)| && (h + Notes(c, step))[i].Used?
    ensures FreshSince((h + Notes(c, step))[..i], (h + Notes(c, step))[i].room, (h + Notes(c, step))[i].id)
  {
    var notes := Notes(c, step);
    var r := step.room;
    assert step.MessageEncrypted?;
    // A session that encrypts was there before and shared: a created one is not.
    assert SharedIn(c, r) && Next(c, step) == c;
    assert notes == [Used(r, c.sessions.byRoom[r].id)];
    assert (h + notes)[..i] == h;
  }

  /** Over any run, each message is encrypted with a session shared after the last reported change of members. */
  lemma {:induction false} RunUsesFreshSessions(steps: seq<Step>)
    ensures ValidClient(Run(steps).0)
    ensures SharedIsFresh(Run(steps).0, Run(steps).1)
    ensures EveryUseFresh(Run(steps).1)
  {
    if steps != [] {
      RunUsesFreshSessions(steps[..|steps| - 1]);
      var (c, h) := Run(steps[..|steps| - 1]);
      StepKeepsValid(c, steps[|steps| - 1]);
      StepKeepsFresh(c, h, steps[|steps| - 1]);
    }
  }

  lemma RunExtends(steps: seq<Step>, step: Step)
    ensures Run(steps + [step]).0 == Next(Run(steps).0, step)
  {
    assert (steps + [step])[..|steps|] == steps;
  }

  /** An encrypted room whose session is shared before anybody is known to be in it. */
  lemma SharedWithNobody(room: string) returns (steps: seq<Step>)
    ensures SharedIn(Run(steps).0, room) && room in Run(steps).0.rooms && Members(Run(steps).0, room) == EMPTY_ROOM
  {
    var seen, started, finished := RoomSeen(room, true), SharingStarted(room), SharingFinished(room);
    RunExtends([], seen);
    assert [] + [seen] == [seen];
    assert Run([seen]).0 == Client(map[room := JoinedRoom(EMPTY_ROOM, true)], Sessions(map[], 0));
    RunExtends([seen], started);
    assert Run([seen] + [started]).0.sessions.byRoom == map[room := GroupSession(0, false, {}, {})];
    RunExtends([seen] + [started], finished);
    steps := [seen] + [started] + [finished];
  }

  /** A hero who is inserted after that is a member, and the shared session stays. */
  lemma HeroKeepsSession(room: string, hero: Profile) returns (steps: seq<Step>)
    ensures var c, d := Run(steps).0, Run(steps + [HeroSeen(room, hero, false)]).0;
            && SharedIn(c, room) && Members(c, room).users == map[]
            && hero.userId in Members(d, room).users
            && SharedIn(d, room) && d.sessions == c.sessions
  {
    steps := SharedWithNobody(room);
    RunExtends(steps, HeroSeen(room, hero, false));
  }

  // ----- Shared means covered -----

  /** Every active device of every member has the room's key or is ignored. */
  ghost predicate EveryoneCovered(c: Client, room: string, active: ActiveDevices) {
    && room in c.rooms && room in c.sessions.byRoom
    && forall u, d :: u in c.rooms[room].members.users && u in active && d in active[u] ==>
      DeviceKey(u, d) in c.sessions.byRoom[room].sharedWith || DeviceKey(u, d) in c.sessions.byRoom[room].ignored
  }

  /**
   * A share response is recorded in full and changes nothing else; afterwards the session is shared if and only if it was
   * before, or each active device of each member had the key, gets it with this response, or is ignored.
   */
  lemma AcknowledgedIff(c: Client, step: Step)
    requires step.ShareAcknowledged?
    ensures var d, r := Next(c, step), step.room;
            && d.rooms == c.rooms && d.sessions.nextId == c.sessions.nextId
            && d.sessions.byRoom.Keys == c.sessions.byRoom.Keys
            && (forall x :: x in c.sessions.byRoom && x != r ==> d.sessions.byRoom[x] == c.sessions.byRoom[x])
            && (r in c.sessions.byRoom && r !in c.rooms ==> d.sessions.byRoom[r] == c.sessions.byRoom[r])
            && (r in c.sessions.byRoom && r in c.rooms ==>
                var g, h := c.sessions.byRoom[r], d.sessions.byRoom[r];
                && h.id == g.id && h.ignored == g.ignored && h.sharedWith == g.sharedWith + step.sent
                && (h.shared <==>
                    || g.shared
                    || forall u, x :: u in c.rooms[r].members.users && u in step.active && x in step.active[u] ==>
                         DeviceKey(u, x) in g.sharedWith || DeviceKey(u, x) in step.sent || DeviceKey(u, x) in g.ignored))
  {
  }

  /** Without a client that marks sessions shared by itself, a session becomes shared only by a response that covers everyone. */
  lemma BecomesSharedCovered(c: Client, step: Step, r: string)
    requires !step.SharingFinished? && SharedIn(Next(c, step), r)
    requires !(SharedIn(c, r) && c.sessions.byRoom[r].id == Next(c, step).sessions.byRoom[r].id)
    ensures step.ShareAcknowledged? && step.room == r && EveryoneCovered(Next(c, step), r, step.active)
  {
    if step.room != r {
      SessionsOfOthers(c, step, r);
    } else if step.ShareAcknowledged? {
      AcknowledgedIff(c, step);
    }
  }

  /** What a session was shared with or ignores, it keeps as long as it is the room's session. */
  lemma CoverGrows(c: Client, step: Step, r: string)
    requires ValidClient(c) && r in c.sessions.byRoom && r in Next(c, step).sessions.byRoom
    requires Next(c, step).sessions.byRoom[r].id == c.sessions.byRoom[r].id
    ensures c.sessions.byRoom[r].sharedWith <= Next(c, step).sessions.byRoom[r].sharedWith
    ensures c.sessions.byRoom[r].ignored <= Next(c, step).sessions.byRoom[r].ignored
  {
    if step.room != r {
      SessionsOfOthers(c, step, r);
    }
  }

  ghost predicate OnlyResponsesShare(steps: seq<Step>) {
    forall i :: 0 <= i < |steps| ==> !steps[i].SharingFinished?
  }

  /** At this step of the run a response covered everyone in the room with this session. */
  ghost predicate CoveredAt(steps: seq<Step>, i: nat, r: string, g: GroupSession)
    requires i < |steps|
  {
    var c := Run(steps[..i + 1]).0;
    && steps[i].ShareAcknowledged? && steps[i].room == r && EveryoneCovered(c, r, steps[i].active)
    && c.sessions.byRoom[r].id == g.id
    && c.sessions.byRoom[r].sharedWith <= g.sharedWith && c.sessions.byRoom[r].ignored <= g.ignored
  }

  /** Over every run in which only responses mark a session shared, a shared session was once shared with everyone then in the room. */
  lemma {:induction false} SharedWasCovered(steps: seq<Step>, r: string)
    requires OnlyResponsesShare(steps) && SharedIn(Run(steps).0, r)
    ensures exists i :: 0 <= i < |steps| && CoveredAt(steps, i, r, Run(steps).0.sessions.byRoom[r])
  {
    assert steps != [];
    var before, step := steps[..|steps| - 1], steps[|steps| - 1];
    var c, d := Run(before).0, Run(steps).0;
    assert steps[..|before| + 1] == steps;
    if SharedIn(c, r) && c.sessions.byRoom[r].id == d.sessions.byRoom[r].id {
      SharedWasCovered(before, r);
      var i :| 0 <= i < |before| && CoveredAt(before, i, r, c.sessions.byRoom[r]);
      assert before[..i + 1] == steps[..i + 1] && before[i] == steps[i];
      RunUsesFreshSessions(before);
      CoverGrows(c, step, r);
      assert CoveredAt(steps, i, r, d.sessions.byRoom[r]);
    } else {
      BecomesSharedCovered(c, step, r);
      assert CoveredAt(steps, |before|, r, d.sessions.byRoom[r]);
    }
  }

  /** The devices the sharers visit are the active devices of the members. */
  ghost predicate SameDevices(devices: seq<GroupSharing.Device>, users: set<string>, active: ActiveDevices) {
    forall k: DeviceKey :: Lists(devices, k) <==> k.userId in users && k.userId in active && k.deviceId in active[k.userId]
  }

  ghost predicate Lists(devices: seq<GroupSharing.Device>, k: DeviceKey) {
    exists d :: d in devices && d.key == k
  }

  /** A round of batch and acknowledgement is what the client does: the batch ignores, and its acknowledged response shares. */
  lemma RoundIsAcknowledged(s: Sessions, room: string, users: set<string>, active: ActiveDevices,
                            devices: seq<GroupSharing.Device>, p: GroupSharing.Policy)
    requires room in s.byRoom && SameDevices(devices, users, active)
    requires GroupSharing.Round(GroupSharing.Cover(s.byRoom[room].sharedWith, s.byRoom[room].ignored), devices, p).failed.None?
    ensures var g := s.byRoom[room];
            var round := GroupSharing.Round(GroupSharing.Cover(g.sharedWith, g.ignored), devices, p);
            var batched := s.(byRoom := s.byRoom[room := g.(ignored := round.cover.ignored)]);
            var h := Acknowledge(batched, room, users, active, round.sent).byRoom[room];
            && GroupSharing.Cover(h.sharedWith, h.ignored) == round.cover
            && (h.shared <==> g.shared || round.markedShared)
  {
    var g := s.byRoom[room];
    var round := GroupSharing.Round(GroupSharing.Cover(g.sharedWith, g.ignored), devices, p);
    if k :| k in GroupSharing.Open(round.cover, devices) {
      assert !Covered(g.(sharedWith := round.cover.shared, ignored := round.cover.ignored), users, active) by {
        assert Lists(devices, k);
        assert k.userId in users && k.userId in active && k.deviceId in active[k.userId];
        assert DeviceKey(k.userId, k.deviceId) == k;
      }
    } else {
      forall u, x | u in users && u in active && x in active[u]
        ensures DeviceKey(u, x) in round.cover.shared || DeviceKey(u, x) in round.cover.ignored
      {
        assert Lists(devices, DeviceKey(u, x));
        var d :| d in devices && d.key == DeviceKey(u, x);
        assert d.key !in GroupSharing.Open(round.cover, devices);
      }
    }
  }
}
