/**
 * Which users still need a device-list query (src/nio/client/async_client.py, src/nio/crypto/olm_machine.py).
 * A query is a coroutine: it takes its users out of the shared set, waits, and puts back what it did not get.
 */
module KeyQueryQueue {
  import opened Wrappers
  import opened Sequences

  type User = string

  // ----- The shared sets and the code between two awaits -----

  /** The users to ask about, and the users whose devices were ever answered. */
  datatype Sets = Sets(pending: set<User>, tracked: set<User>)

  function AddChanged(s: Sets, users: set<User>): Sets {
    s.(pending := s.pending + users)
  }

  function TrackRoom(s: Sets, roomUsers: set<User>): Sets {
    s.(pending := s.pending + (roomUsers - s.tracked))
  }

  /** Whom a query asks about; None is the LocalProtocolError for nobody, or for a malformed user. */
  function Chosen(pending: set<User>, userSet: Option<set<User>>): Option<set<User>> {
    var users := match userSet case Some(us) => us case None => pending;
    if users == {} || "" in users then None else Some(users)
  }

  function Ask(s: Sets, asked: set<User>): Sets {
    s.(pending := s.pending - asked)
  }

  /** A response without its user set discards the answered users as it goes. */
  function Answer(s: Sets, answered: set<User>, scoped: bool): Sets {
    Sets(if scoped then s.pending else s.pending - answered, s.tracked + answered)
  }

  function PutBack(s: Sets, asked: set<User>, answered: Option<set<User>>): Sets {
    s.(pending := s.pending + (if answered.Some? then asked - answered.value else asked))
  }

  class KeyQueryUsers {
    var usersForKeyQuery: set<User>
    var trackedUsers: set<User>

    ghost function View(): Sets
      reads this
    {
      Sets(usersForKeyQuery, trackedUsers)
    }

    constructor ()
      ensures View() == Sets({}, {})
    {
      usersForKeyQuery, trackedUsers := {}, {};
    }

    method AddChangedUsers(users: set<User>)
      modifies this
      ensures View() == AddChanged(old(View()), users)
    {
      usersForKeyQuery := usersForKeyQuery + users;
    }

    method UpdateTrackedUsers(roomUsers: set<User>)
      modifies this
      ensures View() == TrackRoom(old(View()), roomUsers)
    {
      var missing := roomUsers - trackedUsers;
      if missing != {} {
        usersForKeyQuery := usersForKeyQuery + missing;
      }
    }

    /** `keys_query` up to its await. */
    method Begin(userSet: Option<set<User>>) returns (asked: Option<set<User>>)
      modifies this
      ensures asked == Chosen(old(usersForKeyQuery), userSet)
      ensures View() == if asked.Some? then Ask(old(View()), asked.value) else old(View())
    {
      var userList := match userSet case Some(us) => us case None => usersForKeyQuery;
      if userList == {} || "" in userList {
        return None;
      }
      usersForKeyQuery := usersForKeyQuery - userList;
      asked := Some(userList);
    }

    /** The synchronous client's `keys_query`: it asks about the queued users and leaves them queued. */
    method BeginUnscoped() returns (asked: Option<set<User>>)
      ensures asked == if usersForKeyQuery == {} then None else Some(usersForKeyQuery)
    {
      if usersForKeyQuery == {} {
        return None;
      }
      asked := Some(usersForKeyQuery);
    }

    /** The part of `_handle_key_query` about users, in the order of the response. */
    method HandleResponse(answered: seq<User>, scoped: bool)
      modifies this
      ensures View() == Answer(old(View()), Elements(answered), scoped)
    {
      for i := 0 to |answered|
        invariant View() == Answer(old(View()), Elements(answered[..i]), scoped)
      {
        if !scoped {
          usersForKeyQuery := usersForKeyQuery - {answered[i]};
        }
        trackedUsers := trackedUsers + {answered[i]};
        assert answered[..i + 1] == answered[..i] + [answered[i]];
      }
      assert answered[..|answered|] == answered;
    }

    /** `keys_query` after a response, and after an error, an exception or a cancellation. */
    method Finish(asked: set<User>, answered: Option<set<User>>)
      modifies this
      ensures View() == PutBack(old(View()), asked, answered)
    {
      match answered
      case Some(us) => usersForKeyQuery := usersForKeyQuery + (asked - us);
      case None => usersForKeyQuery := usersForKeyQuery + asked;
    }
  }

  // ----- Interleavings of changes and queries -----

  /** A query in flight: whom it asks about, when it was sent, and its answer once that is handled. */
  datatype Query = Query(users: set<User>, sentAt: nat, answered: Option<set<User>>)

  /**
   * The shared sets, the queries in flight, and the history the claims are about: the time of each
   * user's last change, the latest send time among answered queries covering the user, the send time
   * of the answer handled last, and every user seen in an encrypted room. A query of the synchronous
   * client is known by its send time alone, since its response is taken as it comes.
   */
  datatype System = System(
    sets: Sets,
    inFlight: map<nat, Query>,
    unscoped: map<nat, nat>,
    now: nat,
    changed: map<User, nat>,
    served: map<User, nat>,
    stored: map<User, nat>,
    members: set<User>)

  const START := System(Sets({}, {}), map[], map[], 1, map[], map[], map[], {})

  datatype Step =
    | Changed(users: set<User>)
    | RoomMembers(users: set<User>)
    | Begin(id: nat, userSet: Option<set<User>>)
    | Handle(id: nat, returned: set<User>, failed: set<User>)
    | Finish(id: nat)
    | Fail(id: nat)
    | BeginUnscoped(id: nat)
    | HandleUnscoped(id: nat, returned: set<User>)
    | DropUnscoped(id: nat)

  function At(times: map<User, nat>, u: User): nat {
    if u in times then times[u] else 0
  }

  /** The response keeps the users it was asked about, minus those whose server failed. */
  function Answered(q: Query, returned: set<User>, failed: set<User>): set<User> {
    q.users * returned - failed
  }

  function Stamp(times: map<User, nat>, users: set<User>, time: nat): map<User, nat> {
    times + map u | u in users :: time
  }

  function Raise(times: map<User, nat>, users: set<User>, time: nat): map<User, nat> {
    times + map u | u in users :: if At(times, u) > time then At(times, u) else time
  }

  function Next(s: System, step: Step): System {
    var t := s.(now := s.now + 1);
    match step
    case Changed(us) => t.(sets := AddChanged(s.sets, us), changed := Stamp(s.changed, us, s.now))
    case RoomMembers(us) => t.(sets := TrackRoom(s.sets, us), members := s.members + us)
    case Begin(id, userSet) =>
      var asked := Chosen(s.sets.pending, userSet);
      if id in s.inFlight || asked.None? then t
      else t.(sets := Ask(s.sets, asked.value), inFlight := s.inFlight[id := Query(asked.value, s.now, None)])
    case Handle(id, returned, failed) =>
      if id !in s.inFlight || s.inFlight[id].answered.Some? then t
      else
        var q := s.inFlight[id];
        var got := Answered(q, returned, failed);
        t.(sets := Answer(s.sets, got, true),
        inFlight := s.inFlight[id := q.(answered := Some(got))],
        served := Raise(s.served, got, q.sentAt),
        stored := Stamp(s.stored, got, q.sentAt))
    case Finish(id) =>
      if id !in s.inFlight || s.inFlight[id].answered.None? then t
      else t.(sets := PutBack(s.sets, s.inFlight[id].users, s.inFlight[id].answered), inFlight := s.inFlight - {id})
    case Fail(id) =>
      if id !in s.inFlight then t
      else t.(sets := PutBack(s.sets, s.inFlight[id].users, None), inFlight := s.inFlight - {id})
    case BeginUnscoped(id) =>
      if s.sets.pending == {} || id in s.unscoped then t else t.(unscoped := s.unscoped[id := s.now])
    case HandleUnscoped(id, returned) =>
      if id !in s.unscoped then t
      else
        t.(sets := Answer(s.sets, returned, false),
        unscoped := s.unscoped - {id},
        served := Raise(s.served, returned, s.unscoped[id]),
        stored := Stamp(s.stored, returned, s.unscoped[id]))
    case DropUnscoped(id) => t.(unscoped := s.unscoped - {id})
  }

  function RunFrom(s: System, steps: seq<Step>): System {
    if steps == [] then s else Next(RunFrom(s, steps[..|steps| - 1]), steps[|steps| - 1])
  }

  function Run(steps: seq<Step>): System {
    RunFrom(START, steps)
  }

  /** Every response that is handled carries the set of users it was asked for, as the asynchronous client's do. */
  ghost predicate Scoped(steps: seq<Step>) {
    forall i :: 0 <= i < |steps| ==> !steps[i].HandleUnscoped?
  }

  /** A query about the user that has not answered for the user yet: whatever becomes of it, the user is put back or answered. */
  predicate Asking(q: Query, u: User) {
    u in q.users && (q.answered.Some? ==> u !in q.answered.value)
  }

  /** The user is being asked about by a query sent after the last change. */
  ghost predicate FreshQuery(s: System, u: User) {
    exists id :: id in s.inFlight && Asking(s.inFlight[id], u) && s.inFlight[id].sentAt > At(s.changed, u)
  }

  /** The user will be asked about again, or is being asked about by a query sent after the last change. */
  ghost predicate Covered(s: System, u: User) {
    u in s.sets.pending || FreshQuery(s, u)
  }

  ghost predicate Asked(s: System, u: User) {
    exists id :: id in s.inFlight && Asking(s.inFlight[id], u)
  }

  ghost predicate NoLostChange(s: System) {
    forall u :: u in s.changed && s.changed[u] > At(s.served, u) ==> Covered(s, u)
  }

  ghost predicate NoLostMember(s: System) {
    forall u :: u in s.members ==>
      u in s.sets.tracked || u in s.sets.pending || Asked(s, u)
  }

  /** Times lie in the past and handled answers are accounted for. */
  ghost predicate WellTimed(s: System) {
    && 0 < s.now
    && (forall u :: u in s.changed ==> 0 < s.changed[u] < s.now)
    && (forall id :: id in s.inFlight ==> QueryTimed(s, s.inFlight[id]))
    && (forall id :: id in s.unscoped ==> s.unscoped[id] < s.now)
  }

  /** Answers only raise the served times. */
  lemma ServedGrows(s: System, step: Step, u: User)
    ensures At(Next(s, step).served, u) >= At(s.served, u)
  {
  }

  /** A query lies in the past, and what it was answered is tracked and served. */
  ghost predicate QueryTimed(s: System, q: Query) {
    q.sentAt < s.now && "" !in q.users && (q.answered.Some? ==>
      q.answered.value <= q.users * s.sets.tracked && forall u :: u in q.answered.value ==> At(s.served, u) >= q.sentAt)
  }

  lemma QueryStaysTimed(s: System, step: Step, q: Query)
    requires QueryTimed(s, q)
    ensures QueryTimed(Next(s, step), q)
  {
    if q.answered.Some? {
      forall u | u in q.answered.value ensures At(Next(s, step).served, u) >= q.sentAt {
        ServedGrows(s, step, u);
      }
    }
  }

  /** A query answered now is accounted for. */
  lemma AnsweredQueryTimed(s: System, id: nat, returned: set<User>, failed: set<User>)
    requires id in s.inFlight && QueryTimed(s, s.inFlight[id])
    ensures var t := Next(s, Handle(id, returned, failed)); QueryTimed(t, t.inFlight[id])
  {
  }

  /** A query sent or answered in this step is timed as well. */
  lemma TouchedQueryTimed(s: System, step: Step, id: nat)
    requires WellTimed(s) && id in Next(s, step).inFlight
    requires id !in s.inFlight || Next(s, step).inFlight[id] != s.inFlight[id]
    ensures QueryTimed(Next(s, step), Next(s, step).inFlight[id])
  {
    if step.Handle? {
      AnsweredQueryTimed(s, id, step.returned, step.failed);
    }
  }

  lemma HistoryStaysPast(s: System, step: Step)
    requires WellTimed(s)
    ensures var t := Next(s, step);
            && 0 < s.now < t.now
            && (forall u :: u in t.changed ==> 0 < t.changed[u] < t.now)
            && (forall id :: id in t.unscoped ==> t.unscoped[id] < t.now)
  {
  }

  lemma StepKeepsTimes(s: System, step: Step)
    requires WellTimed(s)
    ensures WellTimed(Next(s, step))
  {
    HistoryStaysPast(s, step);
    var t := Next(s, step);
    forall id | id in t.inFlight ensures QueryTimed(t, t.inFlight[id]) {
      if id in s.inFlight && t.inFlight[id] == s.inFlight[id] {
        QueryStaysTimed(s, step, s.inFlight[id]);
      } else {
        TouchedQueryTimed(s, step, id);
      }
    }
  }

  /** A queued user stays queued or is asked about by the query sent now. */
  lemma PendingMoves(s: System, step: Step, u: User)
    requires u in s.sets.pending
    ensures var t := Next(s, step);
            || u in t.sets.pending
            || (step.Begin? && step.id in t.inFlight && Asking(t.inFlight[step.id], u) && t.inFlight[step.id].sentAt == s.now)
            || (step.HandleUnscoped? && step.id in s.unscoped && u in step.returned)
  {
  }

  /** A query in flight stays there, or ends and puts back whoever it was not answered for. */
  lemma QueryMoves(s: System, step: Step, id: nat, u: User)
    requires WellTimed(s) && id in s.inFlight && Asking(s.inFlight[id], u)
    ensures var t := Next(s, step);
            || (id in t.inFlight && Asking(t.inFlight[id], u) && t.inFlight[id].sentAt == s.inFlight[id].sentAt)
            || u in t.sets.pending
            || (u in t.sets.tracked && At(t.served, u) >= s.inFlight[id].sentAt == At(t.stored, u))
  {
    assert QueryTimed(s, s.inFlight[id]);
  }

  /** A user who becomes a member is tracked or queued. */
  lemma NewMember(s: System, step: Step, u: User)
    requires u in Next(s, step).members && u !in s.members
    ensures u in Next(s, step).sets.tracked || u in Next(s, step).sets.pending
  {
  }

  lemma TrackedStays(s: System, step: Step, u: User)
    requires u in s.sets.tracked
    ensures u in Next(s, step).sets.tracked
  {
  }

  lemma StepKeepsMember(s: System, step: Step, u: User)
    requires WellTimed(s) && NoLostMember(s) && !step.HandleUnscoped? && u in Next(s, step).members
    ensures var t := Next(s, step); u in t.sets.tracked || u in t.sets.pending || Asked(t, u)
  {
    if u !in s.members {
      NewMember(s, step, u);
    } else if u in s.sets.tracked {
      TrackedStays(s, step, u);
    } else if u in s.sets.pending {
      PendingMoves(s, step, u);
    } else {
      var id :| id in s.inFlight && Asking(s.inFlight[id], u);
      QueryMoves(s, step, id, u);
    }
  }

  // ----- What every step does to the queue, the tracked users and the queries -----

  /** A user enters the queue exactly by a change, as an untracked room member, or put back by a query that ends without an answer for the user. */
  lemma EntersQueueIff(s: System, step: Step, u: User)
    ensures u in Next(s, step).sets.pending && u !in s.sets.pending <==>
              && u !in s.sets.pending
              && match step
                 case Changed(us) => u in us
                 case RoomMembers(us) => u in us && u !in s.sets.tracked
                 case Finish(id) =>
                   id in s.inFlight && u in s.inFlight[id].users
                   && s.inFlight[id].answered.Some? && u !in s.inFlight[id].answered.value
                 case Fail(id) => id in s.inFlight && u in s.inFlight[id].users
                 case _ => false
  {
  }

  /** A user leaves the queue exactly by the send of a query about the user, or by an unscoped answer that names the user. */
  lemma LeavesQueueIff(s: System, step: Step, u: User)
    ensures u in s.sets.pending && u !in Next(s, step).sets.pending <==>
              && u in s.sets.pending
              && match step
                 case Begin(id, userSet) =>
                   id !in s.inFlight
                   && (if userSet.Some? then u in userSet.value && "" !in userSet.value else "" !in s.sets.pending)
                 case HandleUnscoped(id, returned) => id in s.unscoped && u in returned
                 case _ => false
  {
  }

  /** A user becomes tracked exactly by an answer, and stays tracked. */
  lemma BecomesTrackedIff(s: System, step: Step, u: User)
    ensures u in s.sets.tracked ==> u in Next(s, step).sets.tracked
    ensures u in Next(s, step).sets.tracked && u !in s.sets.tracked <==>
              && u !in s.sets.tracked
              && match step
                 case Handle(id, returned, failed) =>
                   id in s.inFlight && s.inFlight[id].answered.None?
                   && u in s.inFlight[id].users && u in returned && u !in failed
                 case HandleUnscoped(id, returned) => id in s.unscoped && u in returned
                 case _ => false
  {
  }

  /** A query is in flight from its send, about somebody and nobody malformed, until it finishes with an answer or fails. */
  lemma InFlightIff(s: System, step: Step, id: nat)
    ensures id in Next(s, step).inFlight <==>
              if id in s.inFlight then !(step == Fail(id) || (step == Finish(id) && s.inFlight[id].answered.Some?))
              else
                && step.Begin? && step.id == id
                && (if step.userSet.Some? then step.userSet.value != {} && "" !in step.userSet.value
                    else s.sets.pending != {} && "" !in s.sets.pending)
  {
  }

  /** It asks about the given users, or else about the queued ones, and its one answer is about those of them that are returned without a failure. */
  lemma QueryAsksAndAnswers(s: System, step: Step, id: nat, u: User)
    requires id in Next(s, step).inFlight
    ensures var q := Next(s, step).inFlight[id];
            && (u in q.users <==>
                if id in s.inFlight then u in s.inFlight[id].users
                else if step.Begin? && step.userSet.Some? then u in step.userSet.value
                else u in s.sets.pending)
            && (id !in s.inFlight ==> q.answered.None? && q.sentAt == s.now)
            && (id in s.inFlight ==> q.sentAt == s.inFlight[id].sentAt)
            && (q.answered.Some? <==> id in s.inFlight && (s.inFlight[id].answered.Some? || (step.Handle? && step.id == id)))
            && (q.answered.Some? ==>
                (u in q.answered.value <==>
                 if s.inFlight[id].answered.Some? then u in s.inFlight[id].answered.value
                 else u in q.users && u in step.returned && u !in step.failed))
  {
  }

  /** An unscoped query is under way from its send, when somebody is queued, until it is answered or dropped. */
  lemma UnscopedIff(s: System, step: Step, id: nat)
    ensures id in Next(s, step).unscoped <==>
              if id in s.unscoped then !(step == DropUnscoped(id) || (step.HandleUnscoped? && step.id == id))
              else step == BeginUnscoped(id) && s.sets.pending != {}
    ensures id in Next(s, step).unscoped ==> Next(s, step).unscoped[id] == if id in s.unscoped then s.unscoped[id] else s.now
  {
  }

  // ----- Which answers forget a change -----

  /** The change came after the send of every answered query and is neither queued nor being asked about. */
  ghost predicate Forgotten(s: System, u: User) {
    u in s.changed && s.changed[u] > At(s.served, u) && !Covered(s, u)
  }

  /** An unscoped answer about the user to a query sent before the last change, with no scoped query about it under way. */
  ghost predicate ForgettingAnswer(s: System, step: Step, u: User) {
    && step.HandleUnscoped? && step.id in s.unscoped && u in step.returned
    && u in s.changed && s.unscoped[step.id] < s.changed[u] && !FreshQuery(s, u)
  }

  /** What covers a user goes on doing so, or the user was answered by a query sent after the change, or discarded. */
  lemma CoverMoves(s: System, step: Step, u: User)
    requires WellTimed(s) && Covered(s, u) && !(step.Changed? && u in step.users)
    ensures var t := Next(s, step);
            || Covered(t, u)
            || At(t.served, u) > At(s.changed, u)
            || (step.HandleUnscoped? && step.id in s.unscoped && u in step.returned && !FreshQuery(s, u))
  {
    if FreshQuery(s, u) {
      var id :| id in s.inFlight && Asking(s.inFlight[id], u) && s.inFlight[id].sentAt > At(s.changed, u);
      QueryMoves(s, step, id, u);
    } else {
      PendingMoves(s, step, u);
    }
  }

  /** What an unscoped answer does for a user it names. */
  lemma UnscopedAnswers(s: System, step: Step, u: User)
    requires step.HandleUnscoped? && step.id in s.unscoped && u in step.returned
    ensures var t, sentAt := Next(s, step), s.unscoped[step.id];
            && t.changed == s.changed && u !in t.sets.pending && (FreshQuery(t, u) <==> FreshQuery(s, u))
            && At(t.served, u) == if At(s.served, u) > sentAt then At(s.served, u) else sentAt
  {
    assert Next(s, step).inFlight == s.inFlight;
  }

  lemma OtherStepsForgetNothing(s: System, step: Step, u: User)
    requires WellTimed(s) && !Forgotten(s, u)
    requires !(step.HandleUnscoped? && step.id in s.unscoped && u in step.returned)
    ensures !Forgotten(Next(s, step), u)
  {
    ServedGrows(s, step, u);
    if step.Changed? && u in step.users {
      assert u in Next(s, step).sets.pending;
    } else {
      StoredMoves(s, step, u);
      if Covered(s, u) {
        CoverMoves(s, step, u);
      }
    }
  }

  /** Over all steps, a change is forgotten exactly by an unscoped answer to a query sent before it and after which none was answered. */
  lemma StepForgetsIff(s: System, step: Step, u: User)
    requires WellTimed(s) && !Forgotten(s, u)
    ensures Forgotten(Next(s, step), u) <==>
              ForgettingAnswer(s, step, u) && At(s.served, u) < s.changed[u]
  {
    if step.HandleUnscoped? && step.id in s.unscoped && u in step.returned {
      UnscopedAnswers(s, step, u);
    } else {
      OtherStepsForgetNothing(s, step, u);
    }
  }

  lemma StepKeepsChange(s: System, step: Step, u: User)
    requires WellTimed(s) && NoLostChange(s) && !step.HandleUnscoped?
    requires u in Next(s, step).changed && Next(s, step).changed[u] > At(Next(s, step).served, u)
    ensures Covered(Next(s, step), u)
  {
    StepForgetsIff(s, step, u);
  }

  /**
   * Over any interleaving of changes, queries, partial answers, failures and cancellations: a change after
   * the send of every answered query is queued or being asked about, and an encrypted-room member is never lost.
   */
  lemma {:induction false} NothingLost(steps: seq<Step>)
    requires Scoped(steps)
    ensures WellTimed(Run(steps)) && NoLostChange(Run(steps)) && NoLostMember(Run(steps))
  {
    if steps != [] {
      var before := steps[..|steps| - 1];
      assert Scoped(before);
      NothingLost(before);
      var s, step := Run(before), steps[|steps| - 1];
      StepKeepsTimes(s, step);
      forall u | u in Next(s, step).members
        ensures var t := Next(s, step); u in t.sets.tracked || u in t.sets.pending || Asked(t, u)
      {
        StepKeepsMember(s, step, u);
      }
      forall u | u in Next(s, step).changed && Next(s, step).changed[u] > At(Next(s, step).served, u)
        ensures Covered(Next(s, step), u)
      {
        StepKeepsChange(s, step, u);
      }
    }
  }

  /** When nothing is queued or in flight, every change is older than some answered query, and every member tracked. */
  lemma QuietMeansUpToDate(steps: seq<Step>, u: User)
    requires Scoped(steps) && Run(steps).sets.pending == {} && Run(steps).inFlight == map[]
    ensures u in Run(steps).changed ==> Run(steps).changed[u] <= At(Run(steps).served, u)
    ensures u in Run(steps).members ==> u in Run(steps).sets.tracked
  {
    NothingLost(steps);
    assert u in Run(steps).changed && Run(steps).changed[u] > At(Run(steps).served, u) ==> Covered(Run(steps), u);
  }

  // ----- The answer stored last -----

  /** The stored list predates the user's last change, and nothing will ask about the user again. */
  ghost predicate Lost(s: System, u: User) {
    u in s.changed && s.changed[u] > At(s.stored, u) && !Covered(s, u)
  }

  /** No answer is handled after the answer to a later query about the same user. */
  ghost predicate InOrder(steps: seq<Step>) {
    forall i :: 0 <= i < |steps| && steps[i].Handle? ==> HandledInOrder(Run(steps[..i]), steps[i])
  }

  ghost predicate HandledInOrder(s: System, step: Step)
    requires step.Handle?
  {
    step.id in s.inFlight && s.inFlight[step.id].answered.None? ==>
      forall u :: u in Answered(s.inFlight[step.id], step.returned, step.failed) ==> At(s.stored, u) <= s.inFlight[step.id].sentAt
  }

  lemma InOrderStep(s: System, step: Step, u: User)
    requires At(s.stored, u) == At(s.served, u) && !step.HandleUnscoped? && (step.Handle? ==> HandledInOrder(s, step))
    ensures At(Next(s, step).stored, u) == At(Next(s, step).served, u)
  {
    if step.Handle? {
      assert HandledInOrder(s, step);
    }
  }

  /** With answers in order, the device list stored last is the freshest one. */
  lemma {:induction false} InOrderStoresFreshest(steps: seq<Step>)
    requires Scoped(steps) && InOrder(steps)
    ensures forall u :: At(Run(steps).stored, u) == At(Run(steps).served, u)
  {
    if steps != [] {
      var before := steps[..|steps| - 1];
      assert forall i :: 0 <= i < |before| ==> before[i] == steps[i] && before[..i] == steps[..i];
      InOrderStoresFreshest(before);
      var s, step := Run(before), steps[|steps| - 1];
      assert steps[..|steps| - 1] == before;
      if step.Handle? {
        assert HandledInOrder(s, step);
      }
      forall u: User ensures At(Next(s, step).stored, u) == At(Next(s, step).served, u) {
        InOrderStep(s, step, u);
      }
    }
  }

  lemma InOrderLosesNothing(steps: seq<Step>, u: User)
    requires Scoped(steps) && InOrder(steps)
    ensures !Lost(Run(steps), u)
  {
    NothingLost(steps);
    InOrderStoresFreshest(steps);
  }

  lemma RunExtends(steps: seq<Step>, step: Step)
    ensures Run(steps + [step]) == Next(Run(steps), step)
  {
    assert (steps + [step])[..|steps|] == steps;
  }

  /** A change, and a query about it. */
  lemma ChangeThenQuery(before: seq<Step>, u: User, id: nat) returns (after: seq<Step>)
    requires u != ""
    requires Scoped(before) && Run(before).sets.pending == {} && id !in Run(before).inFlight
    ensures Scoped(after)
    ensures var s, t := Run(before), Run(after);
            && t.sets.pending == {} && t.inFlight == s.inFlight[id := Query({u}, s.now + 1, None)]
            && t.changed == s.changed[u := s.now] && t.stored == s.stored && t.now == s.now + 2
  {
    var middle := before + [Changed({u})];
    RunExtends(before, Changed({u}));
    assert Run(middle).sets.pending == {u};
    after := middle + [Begin(id, None)];
    RunExtends(middle, Begin(id, None));
    assert Run(after).sets.pending == {};
  }

  /** A change while a query is out leads to a second query beside it. */
  lemma TwoQueriesInFlight(u: User) returns (steps: seq<Step>)
    requires u != ""
    ensures Scoped(steps)
    ensures var s := Run(steps);
            && s.sets.pending == {} && s.inFlight == map[1 := Query({u}, 2, None), 2 := Query({u}, 4, None)]
            && s.changed == map[u := 3] && s.stored == map[]
  {
    var first := ChangeThenQuery([], u, 1);
    steps := ChangeThenQuery(first, u, 2);
  }

  /** A complete answer, handled and finished. */
  lemma CompleteAnswer(s: System, id: nat, u: User)
    requires id in s.inFlight && s.inFlight[id].users == {u} && s.inFlight[id].answered.None?
    ensures var m := Next(s, Handle(id, {u}, {}));
            && m.sets.pending == s.sets.pending && m.changed == s.changed && At(m.stored, u) == s.inFlight[id].sentAt
            && m.inFlight == s.inFlight[id := Query({u}, s.inFlight[id].sentAt, Some({u}))]
  {
    assert Answered(s.inFlight[id], {u}, {}) == {u};
  }

  lemma CompleteFinish(m: System, id: nat)
    requires id in m.inFlight && m.inFlight[id].answered == Some(m.inFlight[id].users)
    ensures var t := Next(m, Finish(id));
            && t.sets.pending == m.sets.pending && t.changed == m.changed && t.stored == m.stored
            && t.inFlight == m.inFlight - {id}
  {
    assert m.inFlight[id].users - m.inFlight[id].users == {};
  }

  lemma AnswerFully(before: seq<Step>, id: nat, u: User) returns (after: seq<Step>)
    requires Scoped(before) && id in Run(before).inFlight
    requires Run(before).inFlight[id].users == {u} && Run(before).inFlight[id].answered.None?
    ensures Scoped(after) && after == before + [Handle(id, {u}, {}), Finish(id)]
    ensures var s, t := Run(before), Run(after);
            && t.sets.pending == s.sets.pending && t.inFlight == s.inFlight - {id} && t.changed == s.changed
            && At(t.stored, u) == s.inFlight[id].sentAt
  {
    var middle := before + [Handle(id, {u}, {})];
    RunExtends(before, Handle(id, {u}, {}));
    CompleteAnswer(Run(before), id, u);
    after := middle + [Finish(id)];
    RunExtends(middle, Finish(id));
    CompleteFinish(Run(middle), id);
  }

  /**
   * The order matters: when an older answer about the user is handled after a newer one, the stored list
   * predates a change that nothing will ask about again.
   */
  lemma LateAnswerLosesChange(u: User) returns (steps: seq<Step>)
    requires u != ""
    ensures Scoped(steps) && !InOrder(steps)
    ensures Lost(Run(steps), u) && Run(steps).sets.pending == {} && Run(steps).inFlight == map[]
  {
    var d := TwoQueriesInFlight(u);
    var f := AnswerFully(d, 2, u);
    assert Run(f).inFlight == map[1 := Query({u}, 2, None)];
    steps := AnswerFully(f, 1, u);
    assert Run(steps).inFlight == map[];
    LateAnswerIsOutOfOrder(f, u);
    assert steps[..|f|] == f && steps[|f|] == Handle(1, {u}, {});
  }

  lemma LateAnswerIsOutOfOrder(f: seq<Step>, u: User)
    requires Run(f).inFlight == map[1 := Query({u}, 2, None)] && At(Run(f).stored, u) == 4
    ensures !HandledInOrder(Run(f), Handle(1, {u}, {}))
  {
    assert u in Answered(Run(f).inFlight[1], {u}, {});
  }

  /** A change and an unscoped query about it. */
  lemma ChangeThenUnscoped(u: User)
    ensures var s := Run([Changed({u}), BeginUnscoped(0)]);
            && s.unscoped == map[0 := 2] && s.changed == map[u := 1] && s.inFlight == map[]
            && s.served == map[] && s.stored == map[] && s.sets.pending == {u} && s.now == 3
  {
    var change, begin := Changed({u}), BeginUnscoped(0);
    RunExtends([], change);
    assert [] + [change] == [change];
    assert Run([change]).sets.pending == {u};
    RunExtends([change], begin);
    assert [change] + [begin] == [change, begin];
  }

  /** A change during an unscoped query. */
  lemma ChangeDuringUnscoped(u: User)
    ensures var s := Run([Changed({u}), BeginUnscoped(0), Changed({u})]);
            && s.unscoped == map[0 := 2] && s.changed == map[u := 3] && s.inFlight == map[]
            && s.served == map[] && s.stored == map[] && s.sets.pending == {u}
  {
    ChangeThenUnscoped(u);
    var before := [Changed({u}), BeginUnscoped(0)];
    RunExtends(before, Changed({u}));
    assert before + [Changed({u})] == [Changed({u}), BeginUnscoped(0), Changed({u})];
  }

  /** A response without its user set discards a change that arrived after the query was sent. */
  lemma UnscopedAnswerLosesChange(u: User) returns (steps: seq<Step>)
    ensures steps == [Changed({u}), BeginUnscoped(0), Changed({u}), HandleUnscoped(0, {u})]
    ensures Forgotten(Run(steps), u) && Lost(Run(steps), u)
  {
    ChangeDuringUnscoped(u);
    var before, answer := [Changed({u}), BeginUnscoped(0), Changed({u})], HandleUnscoped(0, {u});
    RunExtends(before, answer);
    steps := before + [answer];
    UnscopedAnswers(Run(before), answer, u);
  }

  // ----- Exactly when the stored list can miss a change -----

  /** An answer about the user to a query sent before the last change, when nothing else asks about the user. */
  ghost predicate LosingAnswer(s: System, step: Step, u: User) {
    && u in s.changed && !FreshQuery(s, u)
    && match step
       case Handle(id, returned, failed) =>
         && id in s.inFlight && s.inFlight[id].answered.None? && u in Answered(s.inFlight[id], returned, failed)
         && s.inFlight[id].sentAt < s.changed[u] && u !in s.sets.pending
       case HandleUnscoped(id, returned) => id in s.unscoped && u in returned && s.unscoped[id] < s.changed[u]
       case _ => false
  }

  /** No step but a change or an answer alters what is compared, and an answer stores its send time. */
  lemma StoredMoves(s: System, step: Step, u: User)
    requires !(step.Changed? && u in step.users)
    ensures var t := Next(s, step);
            && (u in t.changed <==> u in s.changed) && At(t.changed, u) == At(s.changed, u)
            && At(t.stored, u) ==
               if step.Handle? && step.id in s.inFlight && s.inFlight[step.id].answered.None?
                 && u in Answered(s.inFlight[step.id], step.returned, step.failed) then s.inFlight[step.id].sentAt
               else if step.HandleUnscoped? && step.id in s.unscoped && u in step.returned then s.unscoped[step.id]
               else At(s.stored, u)
  {
  }

  /** A fresh query stays under way, or puts the user back, or stores an answer sent after the change. */
  lemma FreshQueryMoves(s: System, step: Step, u: User)
    requires WellTimed(s) && FreshQuery(s, u) && !(step.Changed? && u in step.users)
    ensures Covered(Next(s, step), u) || At(Next(s, step).stored, u) > At(s.changed, u)
  {
    var t := Next(s, step);
    var id :| id in s.inFlight && Asking(s.inFlight[id], u) && s.inFlight[id].sentAt > At(s.changed, u);
    QueryMoves(s, step, id, u);
    StoredMoves(s, step, u);
    if id in t.inFlight && Asking(t.inFlight[id], u) && t.inFlight[id].sentAt == s.inFlight[id].sentAt {
      assert FreshQuery(t, u);
    }
  }

  /** An answer neither queues the answered user nor makes a fresh query of an older one. */
  lemma AnswerCoversNobody(s: System, step: Step, u: User)
    requires LosingAnswer(s, step, u)
    ensures !Covered(Next(s, step), u)
  {
    var t := Next(s, step);
    assert t.changed == s.changed;
    assert forall id :: id in t.inFlight && Asking(t.inFlight[id], u) ==>
        id in s.inFlight && Asking(s.inFlight[id], u) && t.inFlight[id].sentAt == s.inFlight[id].sentAt;
  }

  /** Over all steps, the stored list comes to miss a change exactly by a losing answer. */
  lemma StepLosesIff(s: System, step: Step, u: User)
    requires WellTimed(s) && !Lost(s, u)
    ensures Lost(Next(s, step), u) <==> LosingAnswer(s, step, u)
  {
    if step.Changed? && u in step.users {
      assert u in Next(s, step).sets.pending;
    } else {
      StoredMoves(s, step, u);
      if LosingAnswer(s, step, u) {
        AnswerCoversNobody(s, step, u);
      } else if FreshQuery(s, u) {
        FreshQueryMoves(s, step, u);
      } else if u in s.sets.pending {
        PendingMoves(s, step, u);
      }
    }
  }

  /** At no time during the run is the user's change lost. */
  ghost predicate NeverLost(steps: seq<Step>, u: User) {
    forall i :: 0 <= i <= |steps| ==> !Lost(Run(steps[..i]), u)
  }

  /** No answer of the run is a losing one when it is handled. */
  ghost predicate NoLosingAnswer(steps: seq<Step>, u: User) {
    forall i :: 0 <= i < |steps| ==> !LosingAnswer(Run(steps[..i]), steps[i], u)
  }

  lemma OneMoreStep(before: seq<Step>, last: Step, u: User)
    ensures NeverLost(before + [last], u) <==> NeverLost(before, u) && !Lost(Next(Run(before), last), u)
    ensures NoLosingAnswer(before + [last], u) <==> NoLosingAnswer(before, u) && !LosingAnswer(Run(before), last, u)
  {
    var steps := before + [last];
    RunExtends(before, last);
    assert steps[..|steps|] == steps && steps[..|before|] == before;
    assert forall i :: 0 <= i <= |before| ==> before[..i] == steps[..i];
    assert forall i :: 0 <= i < |before| ==> before[i] == steps[i];
    if NeverLost(before, u) && !Lost(Next(Run(before), last), u) {
      forall i | 0 <= i <= |steps| ensures !Lost(Run(steps[..i]), u) {
        if i < |steps| {
          assert !Lost(Run(before[..i]), u);
        }
      }
    }
    if NeverLost(steps, u) {
      forall i | 0 <= i <= |before| ensures !Lost(Run(before[..i]), u) {
        assert !Lost(Run(steps[..i]), u);
      }
      assert !Lost(Run(steps[..|steps|]), u);
    }
    if NoLosingAnswer(before, u) && !LosingAnswer(Run(before), last, u) {
      forall i | 0 <= i < |steps| ensures !LosingAnswer(Run(steps[..i]), steps[i], u) {
        if i < |before| {
          assert !LosingAnswer(Run(before[..i]), before[i], u);
        }
      }
    }
    if NoLosingAnswer(steps, u) {
      forall i | 0 <= i < |before| ensures !LosingAnswer(Run(before[..i]), before[i], u) {
        assert !LosingAnswer(Run(steps[..i]), steps[i], u);
      }
      assert !LosingAnswer(Run(steps[..|before|]), steps[|before|], u);
    }
  }

  lemma {:induction false} RunStaysTimed(steps: seq<Step>)
    ensures WellTimed(Run(steps))
  {
    if steps != [] {
      RunStaysTimed(steps[..|steps| - 1]);
      StepKeepsTimes(Run(steps[..|steps| - 1]), steps[|steps| - 1]);
    }
  }

  /** A run never loses a user's change if and only if none of its answers is a losing one when it is handled. */
  lemma {:induction false} NeverLosesIff(steps: seq<Step>, u: User)
    ensures NeverLost(steps, u) <==> NoLosingAnswer(steps, u)
  {
    if steps != [] {
      var before, last := steps[..|steps| - 1], steps[|steps| - 1];
      assert steps == before + [last];
      NeverLosesIff(before, u);
      OneMoreStep(before, last, u);
      RunStaysTimed(before);
      if NeverLost(before, u) {
        assert before[..|before|] == before;
        StepLosesIff(Run(before), last, u);
      }
    }
  }

  /** An unanswered query about the user that was sent before the last change. */
  ghost predicate StaleQuery(s: System, u: User) {
    u in s.changed &&
    ((exists id :: id in s.inFlight && s.inFlight[id].answered.None? && u in s.inFlight[id].users
                   && s.inFlight[id].sentAt < s.changed[u])
     || exists id :: id in s.unscoped && s.unscoped[id] < s.changed[u])
  }

  /** Steps in which the user does not change again. */
  ghost predicate NoNewChange(steps: seq<Step>, u: User) {
    forall i :: 0 <= i < |steps| && steps[i].Changed? ==> u !in steps[i].users
  }

  /** An unanswered query was there before the step or is sent by it. */
  lemma QueriesAreOldOrNew(s: System, step: Step)
    ensures forall id :: id in Next(s, step).inFlight && Next(s, step).inFlight[id].answered.None? ==>
              (id in s.inFlight && s.inFlight[id] == Next(s, step).inFlight[id]) || Next(s, step).inFlight[id].sentAt == s.now
    ensures forall id :: id in Next(s, step).unscoped ==>
              (id in s.unscoped && s.unscoped[id] == Next(s, step).unscoped[id]) || Next(s, step).unscoped[id] == s.now
  {
  }

  /** No step makes a query older than a change that is already there. */
  lemma NoStaleQueryAppears(s: System, step: Step, u: User)
    requires WellTimed(s) && !StaleQuery(s, u) && !(step.Changed? && u in step.users)
    ensures !StaleQuery(Next(s, step), u)
  {
    QueriesAreOldOrNew(s, step);
    StoredMoves(s, step, u);
  }

  lemma {:induction false} SafeStaysSafe(s: System, more: seq<Step>, u: User)
    requires WellTimed(s) && !Lost(s, u) && !StaleQuery(s, u) && NoNewChange(more, u)
    ensures WellTimed(RunFrom(s, more)) && !Lost(RunFrom(s, more), u) && !StaleQuery(RunFrom(s, more), u)
  {
    if more != [] {
      var before, last := more[..|more| - 1], more[|more| - 1];
      assert forall i :: 0 <= i < |before| ==> before[i] == more[i];
      SafeStaysSafe(s, before, u);
      var t := RunFrom(s, before);
      StepKeepsTimes(t, last);
      StepLosesIff(t, last, u);
      NoStaleQueryAppears(t, last, u);
    }
  }

  lemma RunFromExtends(s: System, steps: seq<Step>, step: Step)
    ensures RunFrom(s, steps + [step]) == Next(RunFrom(s, steps), step)
  {
    assert (steps + [step])[..|steps|] == steps;
  }

  lemma {:induction false} RunFromSplit(s: System, a: seq<Step>, b: seq<Step>)
    ensures RunFrom(s, a + b) == RunFrom(RunFrom(s, a), b)
  {
    if b == [] {
      assert a + b == a;
    } else {
      assert (a + b)[..|a + b| - 1] == a + b[..|b| - 1];
      RunFromSplit(s, a, b[..|b| - 1]);
    }
  }

  /** Only queries outside `kept` are gone; what is compared is as it was. */
  ghost predicate OnlyFailed(s: System, t: System, kept: set<nat>) {
    && t.changed == s.changed && t.stored == s.stored && t.unscoped == s.unscoped && t.inFlight.Keys <= s.inFlight.Keys
    && (forall id :: id in s.inFlight && id in kept ==> id in t.inFlight)
    && (forall id :: id in t.inFlight ==> t.inFlight[id] == s.inFlight[id])
  }

  lemma FailOne(s: System, id: nat, kept: set<nat>)
    requires id in s.inFlight && id !in kept
    ensures OnlyFailed(s, Next(s, Fail(id)), kept)
    ensures Next(s, Fail(id)).inFlight == s.inFlight - {id}
  {
  }

  lemma OnlyFailedTwice(s: System, t: System, v: System, kept: set<nat>)
    requires OnlyFailed(s, t, kept) && OnlyFailed(t, v, kept)
    ensures OnlyFailed(s, v, kept)
  {
  }

  /** All queries in flight but the kept ones fail. */
  lemma {:induction false} FailOthers(s: System, kept: set<nat>, u: User) returns (more: seq<Step>)
    ensures NoNewChange(more, u)
    ensures OnlyFailed(s, RunFrom(s, more), kept) && RunFrom(s, more).inFlight.Keys <= kept
    decreases |s.inFlight.Keys - kept|
  {
    if s.inFlight.Keys <= kept {
      more := [];
    } else {
      var id :| id in s.inFlight && id !in kept;
      var t := Next(s, Fail(id));
      FailOne(s, id, kept);
      assert t.inFlight.Keys - kept == s.inFlight.Keys - kept - {id};
      var rest := FailOthers(t, kept, u);
      more := [Fail(id)] + rest;
      RunFromExtends(s, [], Fail(id));
      assert [] + [Fail(id)] == [Fail(id)];
      RunFromSplit(s, [Fail(id)], rest);
      OnlyFailedTwice(s, t, RunFrom(t, rest), kept);
    }
  }

  /** The stale answer comes last: every other query fails, a new one is answered at once, and then the stale one. */
  lemma StaleQueryLoses(s: System, u: User) returns (more: seq<Step>)
    requires WellTimed(s) && StaleQuery(s, u)
    ensures NoNewChange(more, u) && Lost(RunFrom(s, more), u)
  {
    if id :| id in s.inFlight && s.inFlight[id].answered.None? && u in s.inFlight[id].users && s.inFlight[id].sentAt < s.changed[u] {
      assert QueryTimed(s, s.inFlight[id]);
      var rest := FailOthers(s, {id}, u);
      var t := RunFrom(s, rest);
      assert t.inFlight.Keys == {id};
      var last := StaleAnswerLast(t, id, u);
      more := rest + last;
      RunFromSplit(s, rest, last);
    } else {
      var id :| id in s.unscoped && s.unscoped[id] < s.changed[u];
      var rest := FailOthers(s, {}, u);
      var t := RunFrom(s, rest);
      assert t.inFlight == map[];
      more := rest + [HandleUnscoped(id, {u})];
      RunFromExtends(s, rest, HandleUnscoped(id, {u}));
    }
  }

  /** One query about the user is sent and answered in full, and so leaves the queue without the user. */
  lemma AskedAtOnce(t: System, id: nat, u: User)
    requires id !in t.inFlight && u != ""
    ensures var s := Next(Next(t, Begin(id, Some({u}))), Handle(id, {u}, {}));
            && s.inFlight == t.inFlight[id := Query({u}, t.now, Some({u}))]
            && u !in s.sets.pending && s.changed == t.changed
  {
    var a := Next(t, Begin(id, Some({u})));
    assert Chosen(t.sets.pending, Some({u})) == Some({u});
    assert a.inFlight == t.inFlight[id := Query({u}, t.now, None)];
    assert Answered(a.inFlight[id], {u}, {}) == {u};
  }

  lemma AnswerLoses(s: System, step: Step, u: User)
    requires LosingAnswer(s, step, u)
    ensures Lost(Next(s, step), u)
  {
    AnswerCoversNobody(s, step, u);
    StoredMoves(s, step, u);
  }

  lemma ThreeSteps(t: System, a: Step, b: Step, c: Step)
    ensures RunFrom(t, [a, b, c]) == Next(Next(Next(t, a), b), c)
  {
    RunFromExtends(t, [], a);
    RunFromExtends(t, [a], b);
    RunFromExtends(t, [a, b], c);
    assert [] + [a] == [a] && [a] + [b] == [a, b] && [a, b] + [c] == [a, b, c];
  }

  lemma AskAgainThenStale(t: System, id: nat, u: User) returns (b: System)
    requires t.inFlight.Keys == {id} && t.inFlight[id].answered.None? && u in t.inFlight[id].users && u != ""
    requires u in t.changed && t.inFlight[id].sentAt < t.changed[u]
    ensures b == Next(Next(t, Begin(id + 1, Some({u}))), Handle(id + 1, {u}, {}))
    ensures Lost(Next(b, Handle(id, {u}, {})), u)
  {
    AskedAtOnce(t, id + 1, u);
    b := Next(Next(t, Begin(id + 1, Some({u}))), Handle(id + 1, {u}, {}));
    ghost var flying := t.inFlight[id + 1 := Query({u}, t.now, Some({u}))];
    assert flying.Keys == {id, id + 1} && flying[id] == t.inFlight[id] && !Asking(flying[id + 1], u);
    LastStaleAnswer(b, id, id + 1, u);
  }

  lemma StaleAnswerLast(t: System, id: nat, u: User) returns (more: seq<Step>)
    requires t.inFlight.Keys == {id} && t.inFlight[id].answered.None? && u in t.inFlight[id].users && u != ""
    requires u in t.changed && t.inFlight[id].sentAt < t.changed[u]
    ensures NoNewChange(more, u) && Lost(RunFrom(t, more), u)
  {
    var b := AskAgainThenStale(t, id, u);
    var begin, answer, stale := Begin(id + 1, Some({u})), Handle(id + 1, {u}, {}), Handle(id, {u}, {});
    more := [begin, answer, stale];
    ThreeSteps(t, begin, answer, stale);
    assert Next(Next(Next(t, begin), answer), stale) == Next(b, stale);
  }

  /** Two queries about the user are left: the other is answered, this one was sent before the change. */
  lemma LastStaleAnswer(b: System, id: nat, other: nat, u: User)
    requires b.inFlight.Keys == {id, other} && id != other
    requires b.inFlight[id].answered.None? && u in b.inFlight[id].users && u in b.changed
    requires b.inFlight[id].sentAt < b.changed[u] && !Asking(b.inFlight[other], u) && u !in b.sets.pending
    ensures Lost(Next(b, Handle(id, {u}, {})), u)
  {
    assert u in Answered(b.inFlight[id], {u}, {});
    assert !FreshQuery(b, u);
    AnswerLoses(b, Handle(id, {u}, {}), u);
  }

  /**
   * In any reachable state some continuation without a new change of the user ends with the last change lost, if and only
   * if it is lost already or a query sent before the change is still unanswered.
   */
  lemma LosableIff(steps: seq<Step>, u: User)
    ensures (exists more :: NoNewChange(more, u) && Lost(Run(steps + more), u)) <==>
            Lost(Run(steps), u) || StaleQuery(Run(steps), u)
  {
    RunStaysTimed(steps);
    if Lost(Run(steps), u) {
      assert steps + [] == steps;
      assert NoNewChange([], u);
    } else if StaleQuery(Run(steps), u) {
      var more := StaleQueryLoses(Run(steps), u);
      RunFromSplit(START, steps, more);
    } else {
      forall more | NoNewChange(more, u) ensures !Lost(Run(steps + more), u) {
        RunFromSplit(START, steps, more);
        SafeStaysSafe(Run(steps), more, u);
      }
    }
  }

  /** A change that arrives now can come to be lost if and only if some query that may answer for the user is under way. */
  lemma ChangeLosableIff(steps: seq<Step>, u: User)
    ensures var s := Run(steps);
            (exists more :: NoNewChange(more, u) && Lost(Run(steps + [Changed({u})] + more), u)) <==>
            || (exists id :: id in s.inFlight && s.inFlight[id].answered.None? && u in s.inFlight[id].users)
            || s.unscoped != map[]
  {
    var s, after := Run(steps), steps + [Changed({u})];
    RunStaysTimed(steps);
    RunExtends(steps, Changed({u}));
    LosableIff(after, u);
    var t := Run(after);
    assert u in t.sets.pending && t.changed[u] == s.now && t.inFlight == s.inFlight && t.unscoped == s.unscoped;
    forall id | id in s.inFlight ensures s.inFlight[id].sentAt < s.now {
      assert QueryTimed(s, s.inFlight[id]);
    }
    if s.unscoped != map[] {
      var id :| id in s.unscoped;
      assert t.unscoped[id] < t.changed[u];
    }
  }
}
