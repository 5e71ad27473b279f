/** The member tables of a room (src/nio/rooms.py): `users` and the two indexes kept beside it. */
module RoomIndex {
  import opened Wrappers
  import opened Sequences

  datatype Member = Member(displayName: Option<string>, avatarUrl: Option<string>, invited: bool)

  /** The tables as values: every mutator is specified on these. */
  datatype Room = Room(users: map<string, Member>, invited: map<string, Member>, names: map<string, seq<string>>)

  const EMPTY_ROOM := Room(map[], map[], map[])

  datatype Membership = Invite | Join | Leave | Ban | Knock

  /** A content key that is absent is None; one that is present may still be null. */
  datatype MemberEvent = MemberEvent(
    target: string,
    membership: Membership,
    displayName: Option<Option<string>>,
    avatarUrl: Option<Option<string>>)

  /** `display_name or user_id`: a null or empty name falls back to the id. */
  function NameOf(userId: string, displayName: Option<string>): string {
    if displayName.Some? && displayName.value != "" then displayName.value else userId
  }

  /** Reading the defaultdict of names. */
  function Bucket(names: map<string, seq<string>>, name: string): seq<string> {
    if name in names then names[name] else []
  }

  function Given(value: Option<Option<string>>): Option<string> {
    if value.Some? then value.value else None
  }

  // ----- Specification of the mutators; None stands for an escaping ValueError -----

  function AddMember(r: Room, userId: string, displayName: Option<string>, avatarUrl: Option<string>, invited: bool): (Room, bool) {
    if userId in r.users then (r, false)
    else
      var m := Member(displayName, avatarUrl, invited);
      var name := NameOf(userId, displayName);
      (Room(
         r.users[userId := m],
         if invited then r.invited[userId := m] else r.invited,
         r.names[name := Bucket(r.names, name) + [userId]]),
       true)
  }

  /** The first removal may raise; the second one, for an invited user, is caught. */
  function RemoveMember(r: Room, userId: string): Option<(Room, bool)> {
    if userId in r.users then
      var name := NameOf(userId, r.users[userId].displayName);
      match ListRemove(Bucket(r.names, name), userId)
      case None => None
      case Some(bucket) => Some(DropInvited(r.(users := r.users - {userId}, names := r.names[name := bucket]), userId, true))
    else
      Some(DropInvited(r, userId, false))
  }

  function DropInvited(r: Room, userId: string, removed: bool): (Room, bool) {
    if userId !in r.invited then (r, removed)
    else
      var name := NameOf(userId, r.invited[userId].displayName);
      var names := match ListRemove(Bucket(r.names, name), userId)
        case None => r.names
        case Some(bucket) => r.names[name := bucket];
      (r.(invited := r.invited - {userId}, names := names), true)
  }

  function HandleMembership(r: Room, e: MemberEvent): Option<(Room, bool)> {
    match e.membership
    case Leave => RemoveMember(r, e.target)
    case Ban => RemoveMember(r, e.target)
    case Knock => Some((r, false))
    case _ =>
      var invited := e.membership.Invite?;
      if e.target !in r.users || (invited && e.target !in r.invited) then
        Some(AddMember(r, e.target, Given(e.displayName), Given(e.avatarUrl), invited))
      else
        UpdateMember(r, e, invited)
  }

  /** A member who stays: the flag, the invitation and the profile change. */
  function UpdateMember(r: Room, e: MemberEvent, invited: bool): Option<(Room, bool)>
    requires e.target in r.users
  {
    var before := r.users[e.target];
    var after := Member(
      if e.displayName.Some? then e.displayName.value else before.displayName,
      if e.avatarUrl.Some? then e.avatarUrl.value else before.avatarUrl,
      invited);
    var users := r.users[e.target := after];
    // The invited table holds the same object, so a kept entry changes with it.
    var kept := if e.target !in r.invited then r.invited
                else if invited then r.invited[e.target := after]
                else r.invited - {e.target};
    if e.displayName.None? then Some((Room(users, kept, r.names), false))
    else
      match Rename(r.names, e.target, NameOf(e.target, before.displayName), NameOf(e.target, after.displayName))
      case None => None
      case Some(names) => Some((Room(users, kept, names), false))
  }

  /** Moves a user from the bucket of one name to that of another; None is the ValueError of `remove`. */
  function Rename(names: map<string, seq<string>>, userId: string, from: string, to: string): Option<map<string, seq<string>>> {
    match ListRemove(Bucket(names, from), userId)
    case None => None
    case Some(bucket) =>
      var without := names[from := bucket];
      Some(without[to := Bucket(without, to) + [userId]])
  }

  // ----- What the indexes promise -----

  /** The name index is the inverse of `users`. */
  ghost predicate NamesExact(users: map<string, Member>, names: map<string, seq<string>>) {
    forall n :: BucketExact(users, Bucket(names, n), n)
  }

  /** The bucket of a name lists, once each, exactly the users who bear it. */
  ghost predicate BucketExact(users: map<string, Member>, bucket: seq<string>, name: string) {
    && NoDuplicates(bucket)
    && forall u :: u in bucket <==> u in users && NameOf(u, users[u].displayName) == name
  }

  ghost predicate InvitedExact(r: Room) {
    r.invited == map u | u in r.users && r.users[u].invited :: r.users[u]
  }

  ghost predicate IndexExact(r: Room) {
    NamesExact(r.users, r.names) && InvitedExact(r)
  }

  /** Taking a user out of the bucket of the current name unlists exactly that user. */
  lemma UnlistExact(users: map<string, Member>, names: map<string, seq<string>>, userId: string)
    requires NamesExact(users, names) && userId in users
    ensures var name := NameOf(userId, users[userId].displayName);
            && ListRemove(Bucket(names, name), userId).Some?
            && NamesExact(users - {userId}, names[name := ListRemove(Bucket(names, name), userId).value])
  {
    var name := NameOf(userId, users[userId].displayName);
    assert BucketExact(users, Bucket(names, name), name);
    ListRemoveDistinct(Bucket(names, name), userId);
    var after := names[name := ListRemove(Bucket(names, name), userId).value];
    forall n ensures BucketExact(users - {userId}, Bucket(after, n), n) {
      assert BucketExact(users, Bucket(names, n), n);
    }
  }

  /** Appending a user to the bucket of a name lists exactly that user. */
  lemma ListExact(users: map<string, Member>, names: map<string, seq<string>>, userId: string, m: Member)
    requires NamesExact(users, names) && userId !in users
    ensures var name := NameOf(userId, m.displayName);
            NamesExact(users[userId := m], names[name := Bucket(names, name) + [userId]])
  {
    var name := NameOf(userId, m.displayName);
    var after := names[name := Bucket(names, name) + [userId]];
    forall n ensures BucketExact(users[userId := m], Bucket(after, n), n) {
      assert BucketExact(users, Bucket(names, n), n);
      AppendDistinct(Bucket(names, n), userId);
    }
  }

  lemma AddMemberExact(r: Room, userId: string, displayName: Option<string>, avatarUrl: Option<string>, invited: bool)
    requires IndexExact(r)
    ensures var (t, added) := AddMember(r, userId, displayName, avatarUrl, invited);
            && IndexExact(t)
            && added == (userId !in r.users)
            && t.users == if added then r.users[userId := Member(displayName, avatarUrl, invited)] else r.users
  {
    if userId !in r.users {
      ListExact(r.users, r.names, userId, Member(displayName, avatarUrl, invited));
    }
  }

  lemma RemoveMemberExact(r: Room, userId: string)
    requires IndexExact(r)
    ensures RemoveMember(r, userId).Some?
    ensures var (t, removed) := RemoveMember(r, userId).value;
            IndexExact(t) && removed == (userId in r.users) && t.users == r.users - {userId}
  {
    if userId in r.users {
      UnlistExact(r.users, r.names, userId);
      var name := NameOf(userId, r.users[userId].displayName);
      var names := r.names[name := ListRemove(Bucket(r.names, name), userId).value];
      assert BucketExact(r.users - {userId}, Bucket(names, name), name);
      assert userId !in Bucket(names, name);
    }
  }

  lemma RenameExact(users: map<string, Member>, names: map<string, seq<string>>, userId: string, m: Member)
    requires NamesExact(users, names) && userId in users
    ensures var renamed := Rename(names, userId, NameOf(userId, users[userId].displayName), NameOf(userId, m.displayName));
            renamed.Some? && NamesExact(users[userId := m], renamed.value)
  {
    var from := NameOf(userId, users[userId].displayName);
    UnlistExact(users, names, userId);
    ListExact(users - {userId}, names[from := ListRemove(Bucket(names, from), userId).value], userId, m);
    assert (users - {userId})[userId := m] == users[userId := m];
  }

  /** A member who keeps the display name stays in the same bucket. */
  lemma SameNameExact(users: map<string, Member>, names: map<string, seq<string>>, userId: string, m: Member)
    requires NamesExact(users, names) && userId in users && m.displayName == users[userId].displayName
    ensures NamesExact(users[userId := m], names)
  {
    forall n ensures BucketExact(users[userId := m], Bucket(names, n), n) {
      assert BucketExact(users, Bucket(names, n), n);
    }
  }

  lemma UpdateMemberExact(r: Room, e: MemberEvent, invited: bool)
    requires IndexExact(r) && e.target in r.users && (invited ==> e.target in r.invited)
    ensures UpdateMember(r, e, invited).Some?
    ensures var (t, changed) := UpdateMember(r, e, invited).value;
            && IndexExact(t) && !changed
            && t.users == r.users[e.target := t.users[e.target]] && t.users[e.target].invited == invited
  {
    var before := r.users[e.target];
    var after := Member(
      if e.displayName.Some? then e.displayName.value else before.displayName,
      if e.avatarUrl.Some? then e.avatarUrl.value else before.avatarUrl,
      invited);
    if e.displayName.Some? {
      RenameExact(r.users, r.names, e.target, after);
    } else {
      SameNameExact(r.users, r.names, e.target, after);
    }
  }

  /**
   * A membership event never fails on exact tables, keeps them exact, and its answer
   * says exactly whether the set of members changed.
   */
  lemma HandleMembershipExact(r: Room, e: MemberEvent)
    requires IndexExact(r)
    ensures HandleMembership(r, e).Some?
    ensures var (t, changed) := HandleMembership(r, e).value;
            && IndexExact(t)
            && (changed <==> t.users.Keys != r.users.Keys)
            && t.users.Keys - {e.target} == r.users.Keys - {e.target}
            && (e.target in t.users <==> e.membership in {Invite, Join} || (e.membership.Knock? && e.target in r.users))
            && (e.membership.Join? || (e.membership.Invite? && (e.target in r.users ==> r.users[e.target].invited)) ==>
                 var before := if e.target in r.users then r.users[e.target] else Member(None, None, false);
                 t.users[e.target] == Member(
                   if e.displayName.Some? then e.displayName.value else before.displayName,
                   if e.avatarUrl.Some? then e.avatarUrl.value else before.avatarUrl,
                   e.membership.Invite?))
            && (e.membership.Invite? && e.target in r.users && !r.users[e.target].invited ==> t == r)
  {
    match e.membership
    case Leave => RemoveMemberExact(r, e.target);
    case Ban => RemoveMemberExact(r, e.target);
    case Knock =>
    case _ =>
      var invited := e.membership.Invite?;
      if e.target !in r.users || (invited && e.target !in r.invited) {
        AddMemberExact(r, e.target, Given(e.displayName), Given(e.avatarUrl), invited);
        if e.target !in r.users {
          assert e.target in AddMember(r, e.target, Given(e.displayName), Given(e.avatarUrl), invited).0.users;
        }
      } else {
        UpdateMemberExact(r, e, invited);
      }
  }

  /** A membership event touches no record but its target's. */
  lemma OthersKept(r: Room, e: MemberEvent)
    requires IndexExact(r)
    ensures HandleMembership(r, e).Some?
    ensures HandleMembership(r, e).value.0.users - {e.target} == r.users - {e.target}
  {
    HandleMembershipExact(r, e);
    match e.membership
    case Leave => RemoveMemberExact(r, e.target);
    case Ban => RemoveMemberExact(r, e.target);
    case Knock =>
    case _ =>
      var invited := e.membership.Invite?;
      if e.target !in r.users || (invited && e.target !in r.invited) {
        AddMemberExact(r, e.target, Given(e.displayName), Given(e.avatarUrl), invited);
      } else {
        UpdateMemberExact(r, e, invited);
      }
  }

  // ----- Reading the index -----

  /** `user_name`: the display name, with the id added when another member has the same name. */
  function UserName(r: Room, userId: string): Option<string> {
    if userId !in r.users then None
    else
      var m := r.users[userId];
      var name := NameOf(userId, m.displayName);
      if |Bucket(r.names, name)| > 1 then Some(Disambiguated(userId, m.displayName)) else Some(name)
  }

  function Disambiguated(userId: string, displayName: Option<string>): string {
    if displayName.Some? && displayName.value != "" then displayName.value + " (" + userId + ")" else userId
  }

  ghost predicate Clashes(r: Room, userId: string) {
    && userId in r.users
    && exists other :: (
      && other in r.users && other != userId
      && NameOf(other, r.users[other].displayName) == NameOf(userId, r.users[userId].displayName))
  }

  /** On exact tables a name is disambiguated exactly when another member bears it. */
  lemma UserNameDisambiguates(r: Room, userId: string)
    requires IndexExact(r) && userId in r.users
    ensures UserName(r, userId) == Some(
              if Clashes(r, userId) then Disambiguated(userId, r.users[userId].displayName)
              else NameOf(userId, r.users[userId].displayName))
  {
    var name := NameOf(userId, r.users[userId].displayName);
    var bucket := Bucket(r.names, name);
    assert BucketExact(r.users, bucket, name);
    if |bucket| > 1 {
      var other := if bucket[0] == userId then bucket[1] else bucket[0];
      assert other in bucket && other != userId;
    }
  }

  /** A user without a display name is shown by id; one with a name by that name, followed by the id when another member is shown so too. */
  lemma ShownName(r: Room, userId: string)
    requires IndexExact(r)
    ensures userId !in r.users ==> UserName(r, userId) == None
    ensures userId in r.users ==>
              var name := r.users[userId].displayName;
              UserName(r, userId) == Some(
                if name == None || name == Some("") then userId
                else if exists other :: other in r.users && other != userId && SameName(r, other, name.value)
                  then name.value + " (" + userId + ")"
                else name.value)
  {
    if userId in r.users {
      UserNameDisambiguates(r, userId);
      if Clashes(r, userId) {
        var other :| other in r.users && other != userId
          && NameOf(other, r.users[other].displayName) == NameOf(userId, r.users[userId].displayName);
        assert SameName(r, other, NameOf(userId, r.users[userId].displayName));
      }
    }
  }

  /** The member bears this display name, or has none and this id. */
  predicate SameName(r: Room, userId: string, name: string)
    requires userId in r.users
  {
    match r.users[userId].displayName
    case None => userId == name
    case Some(d) => if d == "" then userId == name else d == name
  }

  // ----- Every mutator of the client, over whole runs -----

  datatype Profile = Profile(userId: string, displayName: Option<string>, avatarUrl: Option<string>)

  datatype Mutation =
    | Event(event: MemberEvent)
    | Hero(profile: Profile, invited: bool)
    | MembershipStub(userId: string)
    | JoinedMembers(listed: seq<string>, members: seq<Profile>)
    | SnapshotReset

  function AddMembers(r: Room, members: seq<Profile>): Room {
    if members == [] then r
    else
      var s := AddMembers(r, members[..|members| - 1]);
      var m := members[|members| - 1];
      AddMember(s, m.userId, m.displayName, m.avatarUrl, false).0
  }

  /** Drops a member who is neither invited nor in the response. */
  function DropOne(r: Room, userId: string, joined: set<string>): Option<Room> {
    if userId in r.users && !r.users[userId].invited && userId !in joined then
      match RemoveMember(r, userId)
      case None => None
      case Some((t, _)) => Some(t)
    else Some(r)
  }

  function DropAbsent(r: Room, listed: seq<string>, joined: set<string>): Option<Room> {
    if listed == [] then Some(r)
    else
      match DropAbsent(r, listed[..|listed| - 1], joined)
      case None => None
      case Some(s) => DropOne(s, listed[|listed| - 1], joined)
  }

  function Joined(members: seq<Profile>): set<string> {
    set m | m in members :: m.userId
  }

  function Refresh(r: Room, listed: seq<string>, members: seq<Profile>): Option<Room> {
    match DropAbsent(r, listed, Joined(members))
    case None => None
    case Some(s) => Some(AddMembers(s, members))
  }

  function Mutate(r: Room, m: Mutation): Option<Room> {
    match m
    case Event(e) => (match HandleMembership(r, e) case None => None case Some((t, _)) => Some(t))
    case Hero(p, invited) => Some(AddMember(r, p.userId, p.displayName, p.avatarUrl, invited).0)
    case MembershipStub(u) => (match RemoveMember(r, u) case None => None case Some((t, _)) => Some(t))
    case JoinedMembers(listed, members) => Refresh(r, listed, members)
    case SnapshotReset => Some(EMPTY_ROOM)
  }

  function Run(ms: seq<Mutation>): Option<Room> {
    if ms == [] then Some(EMPTY_ROOM)
    else
      match Run(ms[..|ms| - 1])
      case None => None
      case Some(r) => Mutate(r, ms[|ms| - 1])
  }

  lemma {:induction false} DropAbsentExact(r: Room, listed: seq<string>, joined: set<string>)
    requires IndexExact(r)
    ensures DropAbsent(r, listed, joined).Some?
    ensures var s := DropAbsent(r, listed, joined).value;
            && IndexExact(s)
            && s.users == map u | u in r.users && (r.users[u].invited || u in joined || u !in listed) :: r.users[u]
  {
    if listed != [] {
      var t := listed[..|listed| - 1];
      DropAbsentExact(r, t, joined);
      var s := DropAbsent(r, t, joined).value;
      var last := listed[|listed| - 1];
      assert forall u :: u in listed <==> u in t || u == last;
      RemoveMemberExact(s, last);
    }
  }

  /** The first profile of a user in the response. */
  ghost predicate FirstProfile(members: seq<Profile>, i: nat) {
    i < |members| && forall j :: 0 <= j < i ==> members[j].userId != members[i].userId
  }

  lemma {:induction false} AddMembersExact(r: Room, members: seq<Profile>)
    requires IndexExact(r)
    ensures var s := AddMembers(r, members);
            && IndexExact(s)
            && s.users.Keys == r.users.Keys + Joined(members)
            && forall u :: u in r.users ==> s.users[u] == r.users[u]
  {
    if members != [] {
      var t := members[..|members| - 1];
      var m := members[|members| - 1];
      AddMembersExact(r, t);
      AddMemberExact(AddMembers(r, t), m.userId, m.displayName, m.avatarUrl, false);
      assert forall x :: x in members <==> x in t || x == m;
      assert Joined(members) == Joined(t) + {m.userId};
    }
  }

  /** A new member gets the first profile listed under the id, as a joined one. */
  lemma {:induction false} NewMemberExact(r: Room, members: seq<Profile>, i: nat)
    requires IndexExact(r) && FirstProfile(members, i) && members[i].userId !in r.users
    ensures members[i].userId in AddMembers(r, members).users
    ensures AddMembers(r, members).users[members[i].userId] == Member(members[i].displayName, members[i].avatarUrl, false)
  {
    var t, m := members[..|members| - 1], members[|members| - 1];
    AddMembersExact(r, t);
    AddMemberExact(AddMembers(r, t), m.userId, m.displayName, m.avatarUrl, false);
    if i < |t| {
      assert FirstProfile(t, i);
      NewMemberExact(r, t, i);
    } else {
      assert forall x :: x in t ==> x.userId != m.userId;
    }
  }

  /** A joined-members refresh of all members keeps the invited ones and otherwise matches the response. */
  lemma RefreshExact(r: Room, listed: seq<string>, members: seq<Profile>)
    requires IndexExact(r)
    ensures Refresh(r, listed, members).Some?
    ensures var s := Refresh(r, listed, members).value;
            && IndexExact(s)
            && (forall u :: u in r.users && u in s.users ==> s.users[u] == r.users[u])
            && (Elements(listed) == r.users.Keys ==>
                s.users.Keys == Joined(members) + set u | u in r.users && r.users[u].invited)
    ensures var s := Refresh(r, listed, members).value;
            forall i: nat :: FirstProfile(members, i) && members[i].userId !in r.users ==>
              && members[i].userId in s.users
              && s.users[members[i].userId] == Member(members[i].displayName, members[i].avatarUrl, false)
  {
    DropAbsentExact(r, listed, Joined(members));
    var s := DropAbsent(r, listed, Joined(members)).value;
    AddMembersExact(s, members);
    assert Elements(listed) == r.users.Keys ==> forall u :: u in r.users ==> u in listed by {
      assert forall u :: u in Elements(listed) ==> u in listed;
    }
    forall i: nat | FirstProfile(members, i) && members[i].userId !in r.users
      ensures members[i].userId in AddMembers(s, members).users
      ensures AddMembers(s, members).users[members[i].userId] == Member(members[i].displayName, members[i].avatarUrl, false)
    {
      NewMemberExact(s, members, i);
    }
  }

  lemma MutateExact(r: Room, m: Mutation)
    requires IndexExact(r)
    ensures Mutate(r, m).Some? && IndexExact(Mutate(r, m).value)
  {
    match m
    case Event(e) => HandleMembershipExact(r, e);
    case Hero(p, invited) => AddMemberExact(r, p.userId, p.displayName, p.avatarUrl, invited);
    case MembershipStub(u) => RemoveMemberExact(r, u);
    case JoinedMembers(listed, members) => RefreshExact(r, listed, members);
    case SnapshotReset => EmptyExact();
  }

  lemma EmptyExact()
    ensures IndexExact(EMPTY_ROOM)
  {
    forall n ensures BucketExact(EMPTY_ROOM.users, Bucket(EMPTY_ROOM.names, n), n) {
    }
  }

  /** From a new room, no sequence of mutators ever raises or leaves an index that disagrees with `users`. */
  lemma {:induction false} RunExact(ms: seq<Mutation>)
    ensures Run(ms).Some? && IndexExact(Run(ms).value)
  {
    if ms == [] {
      EmptyExact();
    } else {
      RunExact(ms[..|ms| - 1]);
      MutateExact(Run(ms[..|ms| - 1]).value, ms[|ms| - 1]);
    }
  }

  // ----- The room object -----

  class MatrixUser {
    const userId: string
    var displayName: Option<string>
    var avatarUrl: Option<string>
    var invited: bool

    constructor (userId: string, displayName: Option<string>, avatarUrl: Option<string>, invited: bool)
      ensures this.userId == userId && Record() == Member(displayName, avatarUrl, invited)
    {
      this.userId, this.displayName, this.avatarUrl, this.invited := userId, displayName, avatarUrl, invited;
    }

    function Record(): Member
      reads this
    {
      Member(displayName, avatarUrl, invited)
    }

    function Name(): string
      reads this
    {
      NameOf(userId, displayName)
    }
  }

  class MatrixRoom {
    var users: map<string, MatrixUser>
    var invitedUsers: map<string, MatrixUser>
    var names: map<string, seq<string>>

    /** The invited table shares its user objects with the main one. */
    ghost predicate Shared()
      reads this, users.Values
    {
      && (forall u :: u in users ==> users[u].userId == u)
      && (forall u :: u in invitedUsers ==> u in users && invitedUsers[u] == users[u])
    }

    ghost function View(): Room
      reads this, users.Values, invitedUsers.Values
    {
      Room(Records(users), Records(invitedUsers), names)
    }

    constructor ()
      ensures Shared() && View() == EMPTY_ROOM
    {
      users, invitedUsers, names := map[], map[], map[];
    }

    /** `add_member`. */
    method Add(userId: string, displayName: Option<string>, avatarUrl: Option<string>, invited: bool)
      returns (added: bool)
      requires Shared()
      modifies this
      ensures Shared()
      ensures (View(), added) == AddMember(old(View()), userId, displayName, avatarUrl, invited)
    {
      if userId in users {
        return false;
      }
      var user := new MatrixUser(userId, displayName, avatarUrl, invited);
      var name := NameOf(userId, displayName);
      RecordsUpdate(users, userId, user);
      RecordsUpdate(invitedUsers, userId, user);
      Store(users[userId := user],
        if invited then invitedUsers[userId := user] else invitedUsers,
        names[name := Bucket(names, name) + [userId]]);
      added := true;
    }

    /** `remove_member`, where its first removal from a bucket does not raise. */
    method Remove(userId: string) returns (removed: bool)
      requires Shared() && RemoveMember(View(), userId).Some?
      modifies this
      ensures Shared()
      ensures RemoveMember(old(View()), userId) == Some((View(), removed))
    {
      RecordsRemove(users, userId);
      RecordsRemove(invitedUsers, userId);
      var buckets := names;
      if userId in users {
        var name := users[userId].Name();
        buckets := buckets[name := ListRemove(Bucket(buckets, name), userId).value];
      }
      if userId in invitedUsers {
        var name := invitedUsers[userId].Name();
        var bucket := ListRemove(Bucket(buckets, name), userId);
        if bucket.Some? {
          buckets := buckets[name := bucket.value];
        }
      }
      removed := userId in users || userId in invitedUsers;
      assert userId !in users ==> users - {userId} == users;
      assert userId !in invitedUsers ==> invitedUsers - {userId} == invitedUsers;
      Store(users - {userId}, invitedUsers - {userId}, buckets);
    }

    /** `handle_membership`: on exact tables it never raises. */
    method HandleEvent(event: MemberEvent) returns (changed: bool)
      requires Shared() && IndexExact(View())
      modifies this, users.Values
      ensures Shared()
      ensures HandleMembership(old(View()), event) == Some((View(), changed))
    {
      HandleMembershipExact(View(), event);
      changed := false;
      if event.membership in {Leave, Ban} {
        changed := Remove(event.target);
      } else if event.membership in {Invite, Join} {
        var invited := event.membership.Invite?;
        if event.target !in users || (invited && event.target !in invitedUsers) {
          changed := Add(event.target, Given(event.displayName), Given(event.avatarUrl), invited);
        } else {
          Update(event, invited);
        }
      }
    }

    /** The part of `handle_membership` that changes a member in place. */
    method Update(event: MemberEvent, invited: bool)
      requires Shared() && event.target in users && (invited ==> event.target in invitedUsers)
      requires UpdateMember(View(), event, invited).Some?
      modifies this, users.Values
      ensures Shared()
      ensures UpdateMember(old(View()), event, invited) == Some((View(), false))
    {
      var user := users[event.target];
      var displayName := if event.displayName.Some? then event.displayName.value else user.displayName;
      var buckets := names;
      if event.displayName.Some? {
        buckets := Rename(names, event.target, user.Name(), NameOf(event.target, displayName)).value;
      }
      Rewrite(user, displayName, if event.avatarUrl.Some? then event.avatarUrl.value else user.avatarUrl, invited);
      RecordsRemove(invitedUsers, event.target);
      assert Records(invitedUsers) - {event.target} == old(Records(invitedUsers)) - {event.target};
      assert event.target !in invitedUsers ==> invitedUsers - {event.target} == invitedUsers;
      Store(users, if invited then invitedUsers else invitedUsers - {event.target}, buckets);
    }

    /** Writing to a user object shows in both tables that hold it, under that user only. */
    method Rewrite(user: MatrixUser, displayName: Option<string>, avatarUrl: Option<string>, invited: bool)
      requires Shared() && user in users.Values
      modifies user
      ensures Shared() && user.Record() == Member(displayName, avatarUrl, invited)
      ensures Records(users) == old(Records(users))[user.userId := user.Record()]
      ensures Records(invitedUsers) == if user.userId in invitedUsers
        then old(Records(invitedUsers))[user.userId := user.Record()] else old(Records(invitedUsers))
    {
      user.displayName, user.avatarUrl, user.invited := displayName, avatarUrl, invited;
    }

    /** `_handle_joined_members`; `listed` is the snapshot of the member table it iterates over. */
    method RefreshMembers(listed: seq<string>, members: seq<Profile>)
      requires Shared() && IndexExact(View())
      modifies this
      ensures Shared()
      ensures Refresh(old(View()), listed, members) == Some(View())
    {
      DropAbsentMembers(listed, Joined(members));
      ghost var middle := View();
      for i := 0 to |members|
        invariant Shared()
        invariant AddMembers(middle, members[..i]) == View()
      {
        assert members[..i + 1][..i] == members[..i];
        var _ := Add(members[i].userId, members[i].displayName, members[i].avatarUrl, false);
      }
      assert members[..|members|] == members;
    }

    method DropAbsentMembers(listed: seq<string>, joined: set<string>)
      requires Shared() && IndexExact(View())
      modifies this
      ensures Shared()
      ensures DropAbsent(old(View()), listed, joined) == Some(View())
    {
      ghost var start := View();
      for i := 0 to |listed|
        invariant Shared()
        invariant DropAbsent(start, listed[..i], joined) == Some(View())
      {
        assert listed[..i + 1][..i] == listed[..i];
        DropAbsentExact(start, listed[..i], joined);
        DropIfAbsent(listed[i], joined);
      }
      assert listed[..|listed|] == listed;
    }

    method DropIfAbsent(userId: string, joined: set<string>)
      requires Shared() && IndexExact(View())
      modifies this
      ensures Shared()
      ensures DropOne(old(View()), userId, joined) == Some(View())
    {
      RemoveMemberExact(View(), userId);
      if userId in users && !users[userId].invited && userId !in joined {
        var _ := Remove(userId);
      }
    }

    /** The part of `_reset_snapshot` that concerns members: all three tables start over. */
    method ResetSnapshot()
      modifies this
      ensures Shared() && View() == EMPTY_ROOM
    {
      users, invitedUsers, names := map[], map[], map[];
    }

    /** `user_name`. */
    method NameFor(userId: string) returns (name: Option<string>)
      requires Shared()
      ensures name == UserName(View(), userId)
    {
      if userId !in users {
        return None;
      }
      var user := users[userId];
      if |Bucket(names, user.Name())| > 1 {
        return Some(Disambiguated(userId, user.displayName));
      }
      return Some(user.Name());
    }

    method Store(users: map<string, MatrixUser>, invitedUsers: map<string, MatrixUser>, names: map<string, seq<string>>)
      modifies this
      ensures this.users == users && this.invitedUsers == invitedUsers && this.names == names
      ensures Records(users) == old(Records(users)) && Records(invitedUsers) == old(Records(invitedUsers))
    {
      this.users, this.invitedUsers, this.names := users, invitedUsers, names;
    }
  }

  ghost function Records(m: map<string, MatrixUser>): map<string, Member>
    reads m.Values
  {
    map u | u in m :: m[u].Record()
  }

  lemma RecordsUpdate(m: map<string, MatrixUser>, userId: string, user: MatrixUser)
    ensures Records(m[userId := user]) == Records(m)[userId := user.Record()]
  {
  }

  lemma RecordsRemove(m: map<string, MatrixUser>, userId: string)
    ensures Records(m - {userId}) == Records(m) - {userId}
  {
  }
}
