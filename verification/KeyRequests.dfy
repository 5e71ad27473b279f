/**
 * Room-key requests from other devices (src/nio/crypto/olm_machine.py): the queue of a sync, the requests
 * waiting for an Olm session, and the requests waiting for the user to trust a device.
 */
module KeyRequests {
  import opened Wrappers
  import opened Sequences
  import opened Devices

  type RequestId = string

  /** Which group session a request asks for. */
  datatype SessionName = SessionName(roomId: string, senderKey: string, sessionId: string)

  /** `origin` is the sender together with the requesting device. */
  datatype Request = Request(id: RequestId, origin: DeviceKey, session: SessionName)

  /** An entry of the sync queue: a request, or the notice that one shown to the user was cancelled. */
  datatype Received = Wanted(request: Request) | Cancelled(id: RequestId, origin: DeviceKey)

  function Origin(e: Received): DeviceKey {
    match e
    case Wanted(r) => r.origin
    case Cancelled(_, origin) => origin
  }

  datatype Queues = Queues(
    received: map<RequestId, Received>,
    waiting: map<DeviceKey, map<RequestId, Request>>,
    untrusted: map<RequestId, Request>,
    noSession: seq<DeviceKey>,
    sessions: set<DeviceKey>,
    forwarded: seq<Request>)

  /** Our own user, the known devices with their verification, and the group sessions we hold. */
  datatype Env = Env(ownUser: string, verified: map<DeviceKey, bool>, known: set<SessionName>)

  const NO_QUEUES := Queues(map[], map[], map[], [], {}, [])

  /** Reading the defaultdict of waiting requests. */
  function WaitingFor(q: Queues, k: DeviceKey): map<RequestId, Request> {
    if k in q.waiting then q.waiting[k] else map[]
  }

  /** `list.remove` with its ValueError caught. */
  function TryRemove(s: seq<DeviceKey>, k: DeviceKey): seq<DeviceKey> {
    match ListRemove(s, k) case None => s case Some(t) => t
  }

  // ----- Specification of the operations -----

  /** First the queue of this sync. */
  function CancelReceived(q: Queues, id: RequestId, origin: DeviceKey): Queues {
    if id in q.received && Origin(q.received[id]) == origin then q.(received := q.received - {id}) else q
  }

  /** Then the requests waiting for a session, and the wait itself when none is left. */
  function CancelWaiting(q: Queues, env: Env, id: RequestId, origin: DeviceKey): Queues {
    var left := WaitingFor(q, origin) - {id};
    q.(waiting := q.waiting[origin := left],
    noSession := if left == map[] && origin in env.verified then TryRemove(q.noSession, origin) else q.noSession)
  }

  /** Finally the requests shown to the user, who is told. */
  function CancelUntrusted(q: Queues, id: RequestId, origin: DeviceKey): Queues {
    if id in q.untrusted && q.untrusted[id].origin == origin then
      q.(untrusted := q.untrusted - {id}, received := q.received[id := Cancelled(id, origin)])
    else q
  }

  function Cancel(q: Queues, env: Env, id: RequestId, origin: DeviceKey): Queues {
    CancelUntrusted(CancelWaiting(CancelReceived(q, id, origin), env, id, origin), id, origin)
  }

  datatype Outcome = Forwarded | Refused | NoSession | Unverified

  /** Keeps a request until a session with its device exists. */
  function Park(q: Queues, r: Request): Queues {
    q.(noSession := if r.origin in q.noSession then q.noSession else q.noSession + [r.origin],
    waiting := q.waiting[r.origin := WaitingFor(q, r.origin)[r.id := r]])
  }

  /** `share_with_ourselves`. */
  function Share(q: Queues, env: Env, r: Request): (Queues, Outcome) {
    if r.session !in env.known || r.origin !in env.verified then (q, Refused)
    else if !env.verified[r.origin] then (q, Unverified)
    else if r.origin !in q.sessions then (Park(q, r), NoSession)
    else (q.(forwarded := q.forwarded + [r]), Forwarded)
  }

  /** `_collect_single_key_share`: false only for a request of our own user from an unverified device. */
  function CollectSingle(q: Queues, env: Env, r: Request): (Queues, bool) {
    if r.origin.userId != env.ownUser then (q, true)
    else
      var (t, outcome) := Share(q, env, r);
      (t, !outcome.Unverified?)
  }

  /** One entry of the sync queue; the answer is whether the user is told about it. */
  function CollectEntry(q: Queues, env: Env, e: Received): (Queues, bool) {
    match e
    case Cancelled(_, _) => (q, true)
    case Wanted(r) =>
      var (t, done) := CollectSingle(q, env, r);
      if done then (t, false) else (t.(untrusted := t.untrusted[r.id := r]), true)
  }

  /** The sync queue is visited in the order `ids`. */
  function CollectAll(q: Queues, env: Env, ids: seq<RequestId>): (Queues, seq<Received>)
    requires forall i :: i in ids ==> i in q.received
    ensures CollectAll(q, env, ids).0.received == q.received
  {
    if ids == [] then (q, [])
    else
      var (t, told) := CollectAll(q, env, ids[..|ids| - 1]);
      var e := q.received[ids[|ids| - 1]];
      var (u, tell) := CollectEntry(t, env, e);
      (u, if tell then told + [e] else told)
  }

  function Collect(q: Queues, env: Env, ids: seq<RequestId>): (Queues, seq<Received>)
    requires forall i :: i in ids ==> i in q.received
  {
    var (t, told) := CollectAll(q, env, ids);
    (t.(received := map[]), told)
  }

  /** `continue_key_share`; None is the LocalProtocolError for a request that is not pending. */
  function Continue(q: Queues, env: Env, r: Request): (Queues, Option<bool>) {
    if !(r.id in q.untrusted && q.untrusted[r.id] == r) then (q, None)
    else
      var (t, done) := CollectSingle(q, env, r);
      if done then (t.(untrusted := t.untrusted - {r.id}), Some(true)) else (t, Some(false))
  }

  /** One claimed one-time key with a good signature: a session, and the requests that waited for it. */
  function Claim(q: Queues, env: Env, k: DeviceKey, signed: bool): Queues {
    if k !in env.verified || !signed then q
    else
      var t := q.(sessions := q.sessions + {k});
      if k in q.noSession then
        t.(noSession := TryRemove(q.noSession, k),
        received := q.received + WantedAll(WaitingFor(q, k)),
        waiting := q.waiting - {k})
      else t
  }

  function WantedAll(rs: map<RequestId, Request>): map<RequestId, Received> {
    map i | i in rs :: Wanted(rs[i])
  }

  // ----- The machine's own object -----

  class KeyRequestQueues {
    var received: map<RequestId, Received>
    var waiting: map<DeviceKey, map<RequestId, Request>>
    var untrusted: map<RequestId, Request>
    var noSession: seq<DeviceKey>
    var sessions: set<DeviceKey>
    var outgoing: seq<Request>

    ghost function View(): Queues
      reads this
    {
      Queues(received, waiting, untrusted, noSession, sessions, outgoing)
    }

    constructor ()
      ensures View() == NO_QUEUES
    {
      received, waiting, untrusted := map[], map[], map[];
      noSession, sessions, outgoing := [], {}, [];
    }

    /** `_handle_key_requests` for a request; only the group algorithm is accepted. */
    method HandleRequest(r: Request, groupAlgorithm: bool)
      modifies this
      ensures View() == if groupAlgorithm
        then old(View()).(received := old(received)[r.id := Wanted(r)]) else old(View())
    {
      if groupAlgorithm {
        received := received[r.id := Wanted(r)];
      }
    }

    /** `_handle_key_requests` for a cancellation. */
    method HandleCancellation(env: Env, id: RequestId, origin: DeviceKey)
      modifies this
      ensures View() == Cancel(old(View()), env, id, origin)
    {
      if id in received && Origin(received[id]) == origin {
        received := received - {id};
      }
      var left := (if origin in waiting then waiting[origin] else map[]) - {id};
      waiting := waiting[origin := left];
      if left == map[] {
        if origin in env.verified {
          var removed := ListRemove(noSession, origin);
          if removed.Some? {
            noSession := removed.value;
          }
        }
      }
      if id in untrusted && untrusted[id].origin == origin {
        untrusted := untrusted - {id};
        received := received[id := Cancelled(id, origin)];
      }
    }

    method ShareWithOurselves(env: Env, r: Request) returns (outcome: Outcome)
      modifies this
      ensures (View(), outcome) == Share(old(View()), env, r)
    {
      if r.session !in env.known {
        return Refused;
      }
      if r.origin !in env.verified {
        return Refused;
      }
      if !env.verified[r.origin] {
        return Unverified;
      }
      if r.origin !in sessions {
        if r.origin !in noSession {
          noSession := noSession + [r.origin];
        }
        waiting := waiting[r.origin := (if r.origin in waiting then waiting[r.origin] else map[])[r.id := r]];
        return NoSession;
      }
      outgoing := outgoing + [r];
      return Forwarded;
    }

    method CollectSingleKeyShare(env: Env, r: Request) returns (done: bool)
      modifies this
      ensures (View(), done) == CollectSingle(old(View()), env, r)
    {
      if r.origin.userId == env.ownUser {
        var outcome := ShareWithOurselves(env, r);
        if outcome.Unverified? {
          return false;
        }
      }
      return true;
    }

    /** `collect_key_requests`; `ids` is the order of the received dict. */
    method CollectKeyRequests(env: Env, ids: seq<RequestId>) returns (forUsers: seq<Received>)
      requires Elements(ids) == received.Keys
      modifies this
      ensures (View(), forUsers) == Collect(old(View()), env, ids)
    {
      forUsers := [];
      ghost var q := View();
      assert forall i :: i in ids ==> i in Elements(ids);
      for k := 0 to |ids|
        invariant received == q.received
        invariant (View(), forUsers) == CollectAll(q, env, ids[..k])
      {
        assert ids[..k + 1][..k] == ids[..k];
        var e := received[ids[k]];
        if e.Cancelled? {
          forUsers := forUsers + [e];
        } else {
          var done := CollectSingleKeyShare(env, e.request);
          if !done {
            untrusted := untrusted[e.request.id := e.request];
            forUsers := forUsers + [e];
          }
        }
      }
      assert ids[..|ids|] == ids;
      received := map[];
    }

    method ContinueKeyShare(env: Env, r: Request) returns (result: Option<bool>)
      modifies this
      ensures (View(), result) == Continue(old(View()), env, r)
    {
      if !(r.id in untrusted && untrusted[r.id] == r) {
        return None;
      }
      var done := CollectSingleKeyShare(env, r);
      if !done {
        return Some(false);
      }
      untrusted := untrusted - {r.id};
      return Some(true);
    }

    method CancelKeyShare(id: RequestId) returns (cancelled: bool)
      modifies this
      ensures View() == old(View()).(untrusted := old(untrusted) - {id})
      ensures cancelled <==> id in old(untrusted)
    {
      cancelled := id in untrusted;
      untrusted := untrusted - {id};
    }

    /** `_handle_key_claiming` for one device of the response. */
    method HandleClaim(env: Env, k: DeviceKey, signed: bool)
      modifies this
      ensures View() == Claim(old(View()), env, k, signed)
    {
      if k !in env.verified || !signed {
        return;
      }
      sessions := sessions + {k};
      if k in noSession {
        noSession := ListRemove(noSession, k).value;
        var events := if k in waiting then waiting[k] else map[];
        waiting := waiting - {k};
        received := received + WantedAll(events);
      }
    }
  }

  // ----- Each operation, queue by queue -----

  /** What sharing answers, by what we hold and know of the requesting device. */
  lemma ShareOutcome(q: Queues, env: Env, r: Request)
    ensures var trusted := r.origin in env.verified && env.verified[r.origin];
            match Share(q, env, r).1
            case Refused => r.session !in env.known || r.origin !in env.verified
            case Unverified => r.session in env.known && r.origin in env.verified && !env.verified[r.origin]
            case NoSession => r.session in env.known && trusted && r.origin !in q.sessions
            case Forwarded => r.session in env.known && trusted && r.origin in q.sessions
  {
  }

  /** Sharing appends a forward, or makes the device and the request wait, each in exactly its case, and touches nothing else. */
  lemma ShareChanges(q: Queues, env: Env, r: Request, k: DeviceKey)
    ensures var (t, outcome) := Share(q, env, r);
            && t.received == q.received && t.untrusted == q.untrusted && t.sessions == q.sessions
            && t.forwarded == (if outcome.Forwarded? then q.forwarded + [r] else q.forwarded)
            && t.noSession == (if outcome.NoSession? && r.origin !in q.noSession then q.noSession + [r.origin] else q.noSession)
            && WaitingFor(t, k) == (if outcome.NoSession? && k == r.origin then WaitingFor(q, k)[r.id := r] else WaitingFor(q, k))
  {
  }

  /** Only requests of our own user are shared at all; the answer is false exactly for one that its device may not have yet. */
  lemma CollectSingleExact(q: Queues, env: Env, r: Request)
    ensures CollectSingle(q, env, r).0 == if r.origin.userId == env.ownUser then Share(q, env, r).0 else q
    ensures !CollectSingle(q, env, r).1 <==>
              r.origin.userId == env.ownUser && r.session in env.known && r.origin in env.verified && !env.verified[r.origin]
  {
  }

  /** Continuing a request: refused when it is not shown to the user, postponed when its device is not verified, and else settled. */
  lemma ContinueExact(q: Queues, env: Env, r: Request)
    ensures var (t, result) := Continue(q, env, r);
            var pending := r.id in q.untrusted && q.untrusted[r.id] == r;
            var postponed := r.origin.userId == env.ownUser && r.session in env.known
                             && r.origin in env.verified && !env.verified[r.origin];
            && (result.None? <==> !pending)
            && (result == Some(false) <==> pending && postponed)
            && (result != Some(true) ==> t == q)
            && (result == Some(true) ==>
                && t.untrusted == q.untrusted - {r.id} && t.received == q.received && t.sessions == q.sessions
                && t == (if r.origin.userId == env.ownUser then Share(q, env, r).0 else q).(untrusted := q.untrusted - {r.id}))
  {
  }

  /** A cancellation takes its request out of all three queues; one shown to the user leaves a notice in the sync queue instead. */
  lemma CancelExact(q: Queues, env: Env, id: RequestId, origin: DeviceKey, i: RequestId, k: DeviceKey)
    ensures var t := Cancel(q, env, id, origin);
            var own := i == id && i in q.received &&
              (match q.received[i] case Wanted(r) => r.origin == origin case Cancelled(_, o) => o == origin);
            var shown := i == id && i in q.untrusted && q.untrusted[i].origin == origin;
            && (i in t.received <==> shown || (i in q.received && !own))
            && (i in t.received ==> t.received[i] == if shown then Cancelled(id, origin) else q.received[i])
            && (i in t.untrusted <==> i in q.untrusted && !shown)
            && (i in t.untrusted ==> t.untrusted[i] == q.untrusted[i])
            && WaitingFor(t, k) == (if k == origin then WaitingFor(q, k) - {id} else WaitingFor(q, k))
            && t.sessions == q.sessions && t.forwarded == q.forwarded
  {
  }

  lemma CancelWait(q: Queues, env: Env, id: RequestId, origin: DeviceKey)
    ensures Cancel(q, env, id, origin).noSession ==
              if WaitingFor(q, origin) - {id} == map[] && origin in env.verified then TryRemove(q.noSession, origin) else q.noSession
  {
  }

  lemma NoneLeft(w: map<RequestId, Request>, id: RequestId)
    ensures w - {id} == map[] <==> forall i :: i in w ==> i == id
  {
    if w - {id} == map[] {
      assert forall i :: i in w && i != id ==> i in w - {id};
    } else {
      var i :| i in w - {id};
      assert i in w && i != id;
    }
  }

  /** It also gives up the wait for a session exactly when its known device has no other request waiting. */
  lemma CancelGivesUpWait(q: Queues, env: Env, id: RequestId, origin: DeviceKey, k: DeviceKey)
    requires NoDuplicates(q.noSession)
    ensures k in Cancel(q, env, id, origin).noSession <==>
              k in q.noSession && !(k == origin && origin in env.verified && forall i :: i in WaitingFor(q, origin) ==> i == id)
  {
    CancelWait(q, env, id, origin);
    NoneLeft(WaitingFor(q, origin), id);
    if origin in q.noSession {
      ListRemoveDistinct(q.noSession, origin);
    }
  }

  /** A claim makes a session exactly for a known device with a good signature, and frees what waited for it. */
  lemma ClaimExact(q: Queues, env: Env, device: DeviceKey, signed: bool, i: RequestId, k: DeviceKey)
    requires NoDuplicates(q.noSession)
    ensures var t := Claim(q, env, device, signed);
            var good := device in env.verified && signed;
            var freed := good && device in q.noSession;
            && (k in t.sessions <==> k in q.sessions || (k == device && good))
            && (k in t.noSession <==> k in q.noSession && !(k == device && freed))
            && WaitingFor(t, k) == (if k == device && freed then map[] else WaitingFor(q, k))
            && (i in t.received <==> i in q.received || (freed && i in WaitingFor(q, device)))
            && (i in t.received ==>
                t.received[i] == if freed && i in WaitingFor(q, device) then Wanted(WaitingFor(q, device)[i]) else q.received[i])
            && t.untrusted == q.untrusted && t.forwarded == q.forwarded
  {
    if device in q.noSession {
      ListRemoveDistinct(q.noSession, device);
    }
  }

  /** What the user is told about: a cancellation, or a request of our own user, for a session we hold, from a known device that is not verified. */
  predicate ForTheUser(e: Received, env: Env) {
    match e
    case Cancelled(_, _) => true
    case Wanted(r) =>
      r.origin.userId == env.ownUser && r.session in env.known && r.origin in env.verified && !env.verified[r.origin]
  }

  lemma TellsOneMore(q: Queues, env: Env, before: seq<RequestId>, last: RequestId)
    requires forall i :: i in before + [last] ==> i in q.received
    ensures forall i :: i in before ==> i in q.received
    ensures last in q.received
    ensures Collect(q, env, before + [last]).1 ==
              Collect(q, env, before).1 + if ForTheUser(q.received[last], env) then [q.received[last]] else []
  {
    var ids := before + [last];
    assert forall i :: i in before ==> i in ids;
    assert last in ids && ids[..|ids| - 1] == before && ids[|ids| - 1] == last;
    var told := CollectAll(q, env, before).1;
    assert told + [] == told;
  }

  /** Collecting answers with exactly the entries the user is told about, each once and in the order visited. */
  lemma {:induction false} TellsExactly(q: Queues, env: Env, ids: seq<RequestId>) returns (at: seq<nat>)
    requires forall i :: i in ids ==> i in q.received
    ensures var told := Collect(q, env, ids).1;
            && |told| == |at|
            && (forall a :: 0 <= a < |at| ==> at[a] < |ids| && told[a] == q.received[ids[at[a]]])
            && (forall a, b :: 0 <= a < b < |at| ==> at[a] < at[b])
    ensures forall j :: 0 <= j < |ids| ==> (j in at <==> ForTheUser(q.received[ids[j]], env))
  {
    at := [];
    if ids != [] {
      var before, last := ids[..|ids| - 1], ids[|ids| - 1];
      assert ids == before + [last];
      TellsOneMore(q, env, before, last);
      at := TellsExactly(q, env, before);
      assert forall j :: j in at ==> j < |before|;
      if ForTheUser(q.received[last], env) {
        at := at + [|before|];
      }
    }
  }

  /** An entry is in the answer if and only if it is queued under one of the ids and the user is told about its kind. */
  lemma ToldIff(q: Queues, env: Env, ids: seq<RequestId>, e: Received)
    requires forall i :: i in ids ==> i in q.received
    ensures e in Collect(q, env, ids).1 <==> ForTheUser(e, env) && exists i :: i in ids && q.received[i] == e
    ensures Collect(q, env, ids).0.received == map[]
  {
    var at := TellsExactly(q, env, ids);
    var told := Collect(q, env, ids).1;
    if e in told {
      var a :| 0 <= a < |told| && told[a] == e;
      assert at[a] in at && ids[at[a]] in ids;
    }
    if ForTheUser(e, env) && exists i :: i in ids && q.received[i] == e {
      var i :| i in ids && q.received[i] == e;
      var j :| 0 <= j < |ids| && ids[j] == i;
      assert j in at;
      var a :| 0 <= a < |at| && at[a] == j;
      assert told[a] == e;
    }
  }

  // ----- The ledger of a run -----

  /** Queues and environment, every request accepted so far, and the ids whose cancellation matched. */
  datatype System = System(q: Queues, env: Env, accepted: map<RequestId, Request>, cancelled: set<RequestId>)

  datatype Step =
    | Arrive(request: Request, groupAlgorithm: bool)
    | CancelArrives(id: RequestId, origin: DeviceKey)
    | CollectQueue(ids: seq<RequestId>)
    | ContinueRequest(request: Request)
    | Decline(id: RequestId)
    | KeysClaimed(device: DeviceKey, signed: bool)
    | SessionsChange(sessions: set<DeviceKey>)
    | EnvChanges(env: Env)

  /**
   * Request ids arrive once; known devices stay known and our user stays the same. Sessions also come from messages
   * of other devices and go with a rotated key, whatever the queues hold.
   */
  ghost function Next(s: System, step: Step): System {
    match step
    case Arrive(r, groupAlgorithm) =>
      if !groupAlgorithm || r.id in s.accepted then s
      else s.(q := s.q.(received := s.q.received[r.id := Wanted(r)]), accepted := s.accepted[r.id := r])
    case CancelArrives(id, origin) =>
      s.(q := Cancel(s.q, s.env, id, origin),
      cancelled := if id in s.accepted && s.accepted[id].origin == origin then s.cancelled + {id} else s.cancelled)
    case CollectQueue(ids) =>
      if Elements(ids) == s.q.received.Keys && NoDuplicates(ids) then
        assert forall i :: i in ids ==> i in Elements(ids);
        s.(q := Collect(s.q, s.env, ids).0)
      else s
    case ContinueRequest(r) => s.(q := Continue(s.q, s.env, r).0)
    case Decline(id) => s.(q := s.q.(untrusted := s.q.untrusted - {id}))
    case KeysClaimed(k, signed) => s.(q := Claim(s.q, s.env, k, signed))
    case SessionsChange(sessions) => s.(q := s.q.(sessions := sessions))
    case EnvChanges(env) =>
      if env.ownUser == s.env.ownUser && s.env.verified.Keys <= env.verified.Keys then s.(env := env) else s
  }

  /** Where a request currently is. */
  predicate InReceived(q: Queues, r: Request) {
    r.id in q.received && q.received[r.id].Wanted?
  }

  predicate InWaiting(q: Queues, r: Request) {
    r.id in WaitingFor(q, r.origin)
  }

  predicate InUntrusted(q: Queues, r: Request) {
    r.id in q.untrusted
  }

  function One(b: bool): nat {
    if b then 1 else 0
  }

  function QueueCount(q: Queues, r: Request): nat {
    One(InReceived(q, r)) + One(InWaiting(q, r)) + One(InUntrusted(q, r))
  }

  function TimesForwarded(log: seq<Request>, r: Request): nat {
    if log == [] then 0 else TimesForwarded(log[..|log| - 1], r) + One(log[|log| - 1].id == r.id)
  }

  /** In how many places the request is: the three queues and the forwarding log. */
  function Places(q: Queues, r: Request): nat {
    QueueCount(q, r) + TimesForwarded(q.forwarded, r)
  }

  /** Every queue holds accepted requests under their own ids and devices. */
  ghost predicate Consistent(q: Queues, env: Env, accepted: map<RequestId, Request>) {
    && (forall i :: i in accepted ==> accepted[i].id == i)
    && (forall i :: i in q.received ==> i in accepted && (q.received[i].Wanted? ==> q.received[i].request == accepted[i]))
    && (forall i :: i in q.untrusted ==> i in accepted && q.untrusted[i] == accepted[i])
    && (forall k :: WaitersMatch(WaitingFor(q, k), k, env, accepted))
    && (forall r :: r in q.forwarded ==> r.id in accepted && accepted[r.id] == r && r.origin.userId == env.ownUser)
  }

  /** The requests waiting for one device are accepted ones of that device, which is one of ours. */
  ghost predicate WaitersMatch(w: map<RequestId, Request>, k: DeviceKey, env: Env, accepted: map<RequestId, Request>) {
    forall i :: i in w ==> i in accepted && w[i] == accepted[i] && accepted[i].origin == k && k.userId == env.ownUser
  }

  /** The list of devices to claim keys for is exactly the set of devices with waiting requests. */
  ghost predicate WaitingExact(q: Queues, env: Env) {
    && NoDuplicates(q.noSession)
    && (forall k :: k in q.noSession <==> WaitingFor(q, k) != map[])
    && (forall k :: k in q.noSession ==> k in env.verified)
  }

  ghost predicate AtMostOnePlace(q: Queues, accepted: map<RequestId, Request>) {
    forall i :: i in accepted ==> Places(q, accepted[i]) <= 1
  }

  ghost predicate CancelledGone(q: Queues, accepted: map<RequestId, Request>, cancelled: set<RequestId>) {
    forall i :: i in cancelled ==> i in accepted && QueueCount(q, accepted[i]) == 0
  }

  ghost predicate Good(q: Queues, env: Env, accepted: map<RequestId, Request>, cancelled: set<RequestId>) {
    && Consistent(q, env, accepted)
    && WaitingExact(q, env)
    && AtMostOnePlace(q, accepted)
    && CancelledGone(q, accepted, cancelled)
  }

  ghost predicate Ledger(s: System) {
    Good(s.q, s.env, s.accepted, s.cancelled)
  }

  lemma {:induction false} NotForwarded(log: seq<Request>, r: Request)
    requires forall x :: x in log ==> x.id != r.id
    ensures TimesForwarded(log, r) == 0
  {
    if log != [] {
      assert forall x :: x in log[..|log| - 1] ==> x in log;
      assert log[|log| - 1] in log;
      NotForwarded(log[..|log| - 1], r);
    }
  }

  lemma ForwardOne(log: seq<Request>, r: Request, x: Request)
    ensures TimesForwarded(log + [r], x) == TimesForwarded(log, x) + One(r.id == x.id)
  {
    assert (log + [r])[..|log|] == log;
  }

  /** Settling a request forwards it, parks it, or changes nothing. */
  lemma SettleCases(q: Queues, env: Env, r: Request)
    ensures var (t, done) := CollectSingle(q, env, r);
            || t == q
            || (done && t == Park(q, r) && r.origin.userId == env.ownUser && r.origin in env.verified && env.verified[r.origin])
            || (done && t == q.(forwarded := q.forwarded + [r]) && r.origin.userId == env.ownUser
                && r.origin in env.verified && env.verified[r.origin])
  {
  }

  lemma ParkLookup(q: Queues, r: Request, k: DeviceKey)
    ensures WaitingFor(Park(q, r), k) == if k == r.origin then WaitingFor(q, k)[r.id := r] else WaitingFor(q, k)
  {
  }

  /** A request taken out of its queue is settled, and nothing else moves. */
  lemma SettlePlaces(q: Queues, env: Env, r: Request, x: Request)
    requires x.id == r.id ==> x == r
    requires QueueCount(q, r) == 0
    ensures var t := CollectSingle(q, env, r).0;
            && t.received == q.received && t.untrusted == q.untrusted
            && (x != r ==> QueueCount(t, x) == QueueCount(q, x) && Places(t, x) == Places(q, x))
            && Places(t, r) <= Places(q, r) + 1
            && (!CollectSingle(q, env, r).1 ==> t == q)
  {
    SettleCases(q, env, r);
    ForwardOne(q.forwarded, r, x);
    ForwardOne(q.forwarded, r, r);
    ParkLookup(q, r, r.origin);
    ParkLookup(q, r, x.origin);
  }

  lemma SettleConsistent(q: Queues, env: Env, accepted: map<RequestId, Request>, r: Request)
    requires Consistent(q, env, accepted) && r.id in accepted && accepted[r.id] == r
    ensures Consistent(CollectSingle(q, env, r).0, env, accepted)
  {
    var t := CollectSingle(q, env, r).0;
    SettleCases(q, env, r);
    forall k ensures WaitersMatch(WaitingFor(t, k), k, env, accepted) {
      assert WaitersMatch(WaitingFor(q, k), k, env, accepted);
      if t == Park(q, r) {
        ParkLookup(q, r, k);
      }
    }
  }

  lemma SettleWaiting(q: Queues, env: Env, r: Request)
    requires WaitingExact(q, env)
    ensures WaitingExact(CollectSingle(q, env, r).0, env)
  {
    var t := CollectSingle(q, env, r).0;
    SettleCases(q, env, r);
    if t == Park(q, r) && t != q {
      AppendDistinct(q.noSession, r.origin);
      forall k ensures k in t.noSession <==> WaitingFor(t, k) != map[] {
        ParkLookup(q, r, k);
        assert r.id in WaitingFor(q, r.origin)[r.id := r];
        assert k in q.noSession <==> WaitingFor(q, k) != map[];
      }
    } else {
      assert forall k :: WaitingFor(t, k) == WaitingFor(q, k);
    }
  }

  /** The request is accepted, not cancelled, and in no queue and not forwarded: it is being handled. */
  ghost predicate InHand(q: Queues, accepted: map<RequestId, Request>, cancelled: set<RequestId>, r: Request) {
    r.id in accepted && accepted[r.id] == r && r.id !in cancelled && Places(q, r) == 0
  }

  lemma SettleGood(q: Queues, env: Env, accepted: map<RequestId, Request>, cancelled: set<RequestId>, r: Request)
    requires Good(q, env, accepted, cancelled) && InHand(q, accepted, cancelled, r)
    ensures Good(CollectSingle(q, env, r).0, env, accepted, cancelled)
  {
    SettleConsistent(q, env, accepted, r);
    SettleWaiting(q, env, r);
    forall i | i in accepted
      ensures Places(CollectSingle(q, env, r).0, accepted[i]) <= 1
      ensures i in cancelled ==> QueueCount(CollectSingle(q, env, r).0, accepted[i]) == 0
    {
      SettlePlaces(q, env, r, accepted[i]);
    }
  }

  /** Changing only the sync queue and the untrusted queue, to accepted requests in allowed places, keeps the ledger. */
  lemma Rearranged(q: Queues, t: Queues, env: Env, accepted: map<RequestId, Request>, cancelled: set<RequestId>)
    requires Good(q, env, accepted, cancelled)
    requires t == q.(received := t.received, untrusted := t.untrusted)
    requires forall i :: i in t.received ==> i in accepted && (t.received[i].Wanted? ==> t.received[i].request == accepted[i])
    requires forall i :: i in t.untrusted ==> i in accepted && t.untrusted[i] == accepted[i]
    requires AtMostOnePlace(t, accepted) && CancelledGone(t, accepted, cancelled)
    ensures Good(t, env, accepted, cancelled)
  {
    forall k ensures WaitingFor(t, k) == WaitingFor(q, k) && WaitersMatch(WaitingFor(t, k), k, env, accepted) {
      assert WaitersMatch(WaitingFor(q, k), k, env, accepted);
    }
  }

  lemma TakeReceived(q: Queues, env: Env, accepted: map<RequestId, Request>, cancelled: set<RequestId>, id: RequestId)
    requires Good(q, env, accepted, cancelled) && id in q.received
    ensures Good(q.(received := q.received - {id}), env, accepted, cancelled)
    ensures q.received[id].Wanted? ==> InHand(q.(received := q.received - {id}), accepted, cancelled, q.received[id].request)
  {
    var t := q.(received := q.received - {id});
    TakenPlaces(q, t, accepted, cancelled);
    Rearranged(q, t, env, accepted, cancelled);
    if q.received[id].Wanted? {
      assert Places(q, accepted[id]) <= 1;
    }
  }

  lemma TakeUntrusted(q: Queues, env: Env, accepted: map<RequestId, Request>, cancelled: set<RequestId>, id: RequestId)
    requires Good(q, env, accepted, cancelled)
    ensures Good(q.(untrusted := q.untrusted - {id}), env, accepted, cancelled)
    ensures id in q.untrusted ==> InHand(q.(untrusted := q.untrusted - {id}), accepted, cancelled, q.untrusted[id])
  {
    var t := q.(untrusted := q.untrusted - {id});
    TakenPlaces(q, t, accepted, cancelled);
    Rearranged(q, t, env, accepted, cancelled);
    if id in q.untrusted {
      assert Places(q, accepted[id]) <= 1;
    }
  }

  lemma TakenPlaces(q: Queues, t: Queues, accepted: map<RequestId, Request>, cancelled: set<RequestId>)
    requires AtMostOnePlace(q, accepted) && CancelledGone(q, accepted, cancelled)
    requires t == q.(received := t.received, untrusted := t.untrusted)
    requires t.untrusted.Keys <= q.untrusted.Keys
    requires forall i :: i in t.received && t.received[i].Wanted? ==> i in q.received && q.received[i].Wanted?
    ensures AtMostOnePlace(t, accepted) && CancelledGone(t, accepted, cancelled)
  {
    forall r: Request ensures QueueCount(t, r) <= QueueCount(q, r) {
    }
  }

  lemma PutUntrusted(q: Queues, env: Env, accepted: map<RequestId, Request>, cancelled: set<RequestId>, r: Request)
    requires Good(q, env, accepted, cancelled) && InHand(q, accepted, cancelled, r)
    ensures Good(q.(untrusted := q.untrusted[r.id := r]), env, accepted, cancelled)
  {
    var t := q.(untrusted := q.untrusted[r.id := r]);
    PutPlaces(q, t, accepted, cancelled, r);
    Rearranged(q, t, env, accepted, cancelled);
  }

  lemma PutReceived(q: Queues, env: Env, accepted: map<RequestId, Request>, cancelled: set<RequestId>, r: Request)
    requires Good(q, env, accepted, cancelled) && InHand(q, accepted, cancelled, r)
    ensures Good(q.(received := q.received[r.id := Wanted(r)]), env, accepted, cancelled)
  {
    var t := q.(received := q.received[r.id := Wanted(r)]);
    PutPlaces(q, t, accepted, cancelled, r);
    Rearranged(q, t, env, accepted, cancelled);
  }

  lemma PutPlaces(q: Queues, t: Queues, accepted: map<RequestId, Request>, cancelled: set<RequestId>, r: Request)
    requires AtMostOnePlace(q, accepted) && CancelledGone(q, accepted, cancelled) && InHand(q, accepted, cancelled, r)
    requires forall i :: i in accepted ==> accepted[i].id == i
    requires t == q.(received := q.received[r.id := Wanted(r)]) || t == q.(untrusted := q.untrusted[r.id := r])
    ensures AtMostOnePlace(t, accepted) && CancelledGone(t, accepted, cancelled)
  {
    forall x: Request ensures QueueCount(t, x) <= QueueCount(q, x) + One(x.id == r.id) {
    }
    forall i | i in accepted ensures Places(t, accepted[i]) <= 1 {
      assert Places(q, accepted[i]) <= 1;
    }
  }

  /** Handling an entry neither reads nor writes the sync queue. */
  lemma EntryIgnoresReceived(q: Queues, env: Env, e: Received, x: map<RequestId, Received>)
    ensures CollectEntry(q.(received := x), env, e) == (CollectEntry(q, env, e).0.(received := x), CollectEntry(q, env, e).1)
  {
  }

  /** One entry taken off the sync queue and handled. */
  function HandleEntry(q: Queues, env: Env, id: RequestId): Queues
    requires id in q.received
  {
    CollectEntry(q.(received := q.received - {id}), env, q.received[id]).0
  }

  lemma EntryGood(q: Queues, env: Env, accepted: map<RequestId, Request>, cancelled: set<RequestId>, id: RequestId)
    requires Good(q, env, accepted, cancelled) && id in q.received
    ensures Good(HandleEntry(q, env, id), env, accepted, cancelled)
  {
    var t := q.(received := q.received - {id});
    TakeReceived(q, env, accepted, cancelled, id);
    if q.received[id].Wanted? {
      var r := q.received[id].request;
      SettleGood(t, env, accepted, cancelled, r);
      SettlePlaces(t, env, r, r);
      if !CollectSingle(t, env, r).1 {
        PutUntrusted(t, env, accepted, cancelled, r);
      }
    }
  }

  /** Collecting, with the handled entries seen as taken off the queue one by one. */
  function CollectTaken(q: Queues, env: Env, ids: seq<RequestId>): Queues
    requires forall i :: i in ids ==> i in q.received
  {
    CollectAll(q, env, ids).0.(received := q.received - Elements(ids))
  }

  lemma TakenOneByOne(q: Queues, env: Env, before: seq<RequestId>, last: RequestId)
    requires NoDuplicates(before + [last]) && forall i :: i in before + [last] ==> i in q.received
    ensures forall i :: i in before ==> i in q.received
    ensures NoDuplicates(before)
    ensures last in CollectTaken(q, env, before).received
    ensures CollectTaken(q, env, before + [last]) == HandleEntry(CollectTaken(q, env, before), env, last)
  {
    DistinctParts(before, [last]);
    assert last in [last] && last in before + [last];
    assert forall i :: i in before ==> i in before + [last];
    var t := CollectAll(q, env, before).0;
    var u := CollectTaken(q, env, before);
    assert last !in Elements(before);
    assert u.received - {last} == q.received - Elements(before + [last]);
    assert (before + [last])[..|before|] == before;
    EntryIgnoresReceived(t, env, q.received[last], u.received - {last});
  }

  lemma {:induction false} CollectAllGood(q: Queues, env: Env, accepted: map<RequestId, Request>,
                                          cancelled: set<RequestId>, ids: seq<RequestId>)
    requires Good(q, env, accepted, cancelled)
    requires NoDuplicates(ids) && forall i :: i in ids ==> i in q.received
    ensures Good(CollectTaken(q, env, ids), env, accepted, cancelled)
  {
    if ids == [] {
      assert CollectTaken(q, env, ids) == q by { assert q.received - Elements(ids) == q.received; }
    } else {
      var before, last := ids[..|ids| - 1], ids[|ids| - 1];
      assert ids == before + [last];
      TakenOneByOne(q, env, before, last);
      CollectAllGood(q, env, accepted, cancelled, before);
      EntryGood(CollectTaken(q, env, before), env, accepted, cancelled, last);
    }
  }

  /** Nothing but its queue and the log changes for one entry, and a request disappears only when it may be refused. */
  predicate Refusable(env: Env, r: Request) {
    r.origin.userId != env.ownUser || r.session !in env.known || r.origin !in env.verified
  }

  lemma SettlePlacesExact(q: Queues, env: Env, r: Request)
    requires QueueCount(q, r) == 0
    ensures var (t, done) := CollectSingle(q, env, r);
            done ==> Places(t, r) == Places(q, r) + (if Refusable(env, r) then 0 else 1)
    ensures CollectSingle(q, env, r).1 || !Refusable(env, r)
  {
    ForwardOne(q.forwarded, r, r);
    ParkLookup(q, r, r.origin);
  }

  /** A request stays in one place or moves to another, unless it was taken off the sync queue and may be refused. */
  ghost predicate PlaceKept(q: Queues, t: Queues, env: Env, x: Request) {
    && (InReceived(t, x) ==> InReceived(q, x))
    && Places(t, x) == Places(q, x) - One(InReceived(q, x) && !InReceived(t, x) && Refusable(env, x))
  }

  lemma EntryPlaces(q: Queues, env: Env, id: RequestId, x: Request)
    requires id in q.received
    requires q.received[id].Wanted? ==>
               var r := q.received[id].request;
               r.id == id && QueueCount(q.(received := q.received - {id}), r) == 0 && (x.id == id ==> x == r)
    ensures PlaceKept(q, HandleEntry(q, env, id), env, x)
  {
    var t := q.(received := q.received - {id});
    assert x.id != id || !q.received[id].Wanted? ==> QueueCount(t, x) == QueueCount(q, x);
    if q.received[id].Wanted? {
      var r := q.received[id].request;
      SettlePlaces(t, env, r, x);
      SettlePlacesExact(t, env, r);
    }
  }

  lemma {:induction false} CollectAllPlaces(q: Queues, env: Env, accepted: map<RequestId, Request>,
                                            cancelled: set<RequestId>, ids: seq<RequestId>, x: Request)
    requires Good(q, env, accepted, cancelled) && x.id in accepted && accepted[x.id] == x
    requires NoDuplicates(ids) && forall i :: i in ids ==> i in q.received
    ensures PlaceKept(q, CollectTaken(q, env, ids), env, x)
  {
    if ids == [] {
      assert CollectTaken(q, env, ids) == q by { assert q.received - Elements(ids) == q.received; }
    } else {
      var before, last := ids[..|ids| - 1], ids[|ids| - 1];
      assert ids == before + [last];
      TakenOneByOne(q, env, before, last);
      CollectAllGood(q, env, accepted, cancelled, before);
      CollectAllPlaces(q, env, accepted, cancelled, before, x);
      var u := CollectTaken(q, env, before);
      TakeReceived(u, env, accepted, cancelled, last);
      EntryPlaces(u, env, last, x);
    }
  }

  /** The request a cancellation is about. */
  predicate About(x: Request, id: RequestId, origin: DeviceKey) {
    x.id == id && x.origin == origin
  }

  lemma CancelReceivedGood(q: Queues, env: Env, accepted: map<RequestId, Request>, cancelled: set<RequestId>, id: RequestId, origin: DeviceKey)
    requires Good(q, env, accepted, cancelled)
    ensures Good(CancelReceived(q, id, origin), env, accepted, cancelled)
  {
    if id in q.received {
      TakeReceived(q, env, accepted, cancelled, id);
    }
  }

  lemma CancelUntrustedGood(q: Queues, env: Env, accepted: map<RequestId, Request>, cancelled: set<RequestId>, id: RequestId, origin: DeviceKey)
    requires Good(q, env, accepted, cancelled)
    ensures Good(CancelUntrusted(q, id, origin), env, accepted, cancelled)
  {
    var t := CancelUntrusted(q, id, origin);
    TakenPlaces(q, t, accepted, cancelled);
    Rearranged(q, t, env, accepted, cancelled);
  }

  /** A cancellation from the requesting device clears the request from all three queues; it touches no other. */
  lemma CancelPlaces(q: Queues, env: Env, id: RequestId, origin: DeviceKey, x: Request)
    requires id in q.received && q.received[id].Wanted? && x.id == id ==> q.received[id].request == x
    requires id in q.untrusted && x.id == id ==> q.untrusted[id] == x
    ensures About(x, id, origin) ==> QueueCount(Cancel(q, env, id, origin), x) == 0
    ensures !About(x, id, origin) ==> QueueCount(Cancel(q, env, id, origin), x) == QueueCount(q, x)
    ensures Cancel(q, env, id, origin).forwarded == q.forwarded
  {
    var a := CancelReceived(q, id, origin);
    CancelWaitingLookup(a, env, id, origin, x.origin);
  }

  lemma CancelWaitingLookup(q: Queues, env: Env, id: RequestId, origin: DeviceKey, k: DeviceKey)
    ensures WaitingFor(CancelWaiting(q, env, id, origin), k) == if k == origin then WaitingFor(q, k) - {id} else WaitingFor(q, k)
  {
  }

  lemma CancelWaitingGood(q: Queues, env: Env, accepted: map<RequestId, Request>, cancelled: set<RequestId>, id: RequestId, origin: DeviceKey)
    requires Good(q, env, accepted, cancelled)
    ensures Good(CancelWaiting(q, env, id, origin), env, accepted, cancelled)
  {
    var t := CancelWaiting(q, env, id, origin);
    forall k ensures WaitingFor(t, k).Items <= WaitingFor(q, k).Items && WaitingFor(t, k).Keys <= WaitingFor(q, k).Keys {
      CancelWaitingLookup(q, env, id, origin, k);
    }
    CancelWaitingExact(q, env, id, origin);
    WaitingShrinks(q, t, env, accepted);
    forall i | i in accepted
      ensures Places(t, accepted[i]) <= 1 && (i in cancelled ==> QueueCount(t, accepted[i]) == 0)
    {
      assert Places(q, accepted[i]) <= 1;
      assert InWaiting(t, accepted[i]) ==> InWaiting(q, accepted[i]);
    }
  }

  lemma WaitingShrinks(q: Queues, t: Queues, env: Env, accepted: map<RequestId, Request>)
    requires Consistent(q, env, accepted)
    requires t == q.(waiting := t.waiting, noSession := t.noSession)
    requires forall k :: WaitingFor(t, k).Items <= WaitingFor(q, k).Items
    ensures Consistent(t, env, accepted)
  {
    forall k ensures WaitersMatch(WaitingFor(t, k), k, env, accepted) {
      assert WaitersMatch(WaitingFor(q, k), k, env, accepted);
      forall i | i in WaitingFor(t, k) ensures i in WaitingFor(q, k) && WaitingFor(q, k)[i] == WaitingFor(t, k)[i] {
        assert (i, WaitingFor(t, k)[i]) in WaitingFor(t, k).Items;
      }
    }
  }

  lemma CancelWaitingExact(q: Queues, env: Env, id: RequestId, origin: DeviceKey)
    requires WaitingExact(q, env)
    ensures WaitingExact(CancelWaiting(q, env, id, origin), env)
  {
    var t := CancelWaiting(q, env, id, origin);
    if origin in q.noSession {
      ListRemoveDistinct(q.noSession, origin);
    }
    forall k ensures k in t.noSession <==> WaitingFor(t, k) != map[] {
      CancelWaitingLookup(q, env, id, origin, k);
      assert k in q.noSession <==> WaitingFor(q, k) != map[];
    }
  }

  lemma ClaimLookup(q: Queues, env: Env, k: DeviceKey, signed: bool, other: DeviceKey)
    ensures WaitingFor(Claim(q, env, k, signed), other) ==
            if other == k && k in env.verified && signed && k in q.noSession then map[] else WaitingFor(q, other)
  {
  }

  lemma ClaimPlaces(q: Queues, env: Env, k: DeviceKey, signed: bool, x: Request)
    requires x.id in WaitingFor(q, k) ==> x.origin == k
    requires InWaiting(q, x) ==> !InReceived(q, x)
    ensures QueueCount(Claim(q, env, k, signed), x) == QueueCount(q, x)
  {
    ClaimLookup(q, env, k, signed, x.origin);
  }

  lemma ClaimWaitingExact(q: Queues, env: Env, k: DeviceKey, signed: bool)
    requires WaitingExact(q, env)
    ensures WaitingExact(Claim(q, env, k, signed), env)
  {
    var t := Claim(q, env, k, signed);
    if k in q.noSession {
      ListRemoveDistinct(q.noSession, k);
    }
    forall other ensures other in t.noSession <==> WaitingFor(t, other) != map[] {
      ClaimLookup(q, env, k, signed, other);
      assert other in q.noSession <==> WaitingFor(q, other) != map[];
    }
  }

  lemma ClaimConsistent(q: Queues, env: Env, accepted: map<RequestId, Request>, k: DeviceKey, signed: bool)
    requires Consistent(q, env, accepted)
    ensures Consistent(Claim(q, env, k, signed), env, accepted)
  {
    var t := Claim(q, env, k, signed);
    var w := WaitingFor(q, k);
    assert WaitersMatch(w, k, env, accepted);
    forall i | i in t.received
      ensures i in accepted && (t.received[i].Wanted? ==> t.received[i].request == accepted[i])
    {
      assert i in w ==> w[i] == accepted[i];
    }
    forall other ensures WaitersMatch(WaitingFor(t, other), other, env, accepted) {
      assert WaitersMatch(WaitingFor(q, other), other, env, accepted);
      ClaimLookup(q, env, k, signed, other);
    }
    assert t.untrusted == q.untrusted && t.forwarded == q.forwarded;
  }

  lemma ClaimKeepsPlaces(q: Queues, env: Env, accepted: map<RequestId, Request>, cancelled: set<RequestId>, k: DeviceKey, signed: bool)
    requires Consistent(q, env, accepted) && AtMostOnePlace(q, accepted) && CancelledGone(q, accepted, cancelled)
    ensures var t := Claim(q, env, k, signed); AtMostOnePlace(t, accepted) && CancelledGone(t, accepted, cancelled)
  {
    assert WaitersMatch(WaitingFor(q, k), k, env, accepted);
    forall i | i in accepted
      ensures QueueCount(Claim(q, env, k, signed), accepted[i]) == QueueCount(q, accepted[i])
    {
      assert Places(q, accepted[i]) <= 1;
      ClaimPlaces(q, env, k, signed, accepted[i]);
    }
    assert Claim(q, env, k, signed).forwarded == q.forwarded;
  }

  lemma ClaimGood(q: Queues, env: Env, accepted: map<RequestId, Request>, cancelled: set<RequestId>, k: DeviceKey, signed: bool)
    requires Good(q, env, accepted, cancelled)
    ensures Good(Claim(q, env, k, signed), env, accepted, cancelled)
  {
    ClaimWaitingExact(q, env, k, signed);
    ClaimConsistent(q, env, accepted, k, signed);
    ClaimKeepsPlaces(q, env, accepted, cancelled, k, signed);
  }

  lemma ContinueSettles(q: Queues, env: Env, r: Request)
    requires r.id in q.untrusted && q.untrusted[r.id] == r
    ensures var u := q.(untrusted := q.untrusted - {r.id});
            var (t, done) := CollectSingle(u, env, r);
            Continue(q, env, r) == if done then (t, Some(true)) else (q, Some(false))
  {
    var u := q.(untrusted := q.untrusted - {r.id});
    SettleCases(q, env, r);
    if !CollectSingle(u, env, r).1 {
      assert CollectSingle(q, env, r) == (q, false);
    }
  }

  lemma ContinueGood(q: Queues, env: Env, accepted: map<RequestId, Request>, cancelled: set<RequestId>, r: Request)
    requires Good(q, env, accepted, cancelled)
    ensures Good(Continue(q, env, r).0, env, accepted, cancelled)
  {
    if r.id in q.untrusted && q.untrusted[r.id] == r {
      ContinueSettles(q, env, r);
      TakeUntrusted(q, env, accepted, cancelled, r.id);
      SettleGood(q.(untrusted := q.untrusted - {r.id}), env, accepted, cancelled, r);
    }
  }

  lemma ContinuePlaces(q: Queues, env: Env, r: Request, x: Request)
    requires r.id in q.untrusted && q.untrusted[r.id] == r && x.id == r.id ==> x == r && Places(q, x) <= 1
    requires InUntrusted(q, x) ==> q.untrusted[x.id] == x
    ensures Places(Continue(q, env, r).0, x) == Places(q, x) - One(r == x && InUntrusted(q, x) && Refusable(env, x))
  {
    if r.id in q.untrusted && q.untrusted[r.id] == r {
      var u := q.(untrusted := q.untrusted - {r.id});
      ContinueSettles(q, env, r);
      if x.id == r.id {
        SettlePlacesExact(u, env, r);
      } else {
        SettleOthers(u, env, r, x);
        assert QueueCount(u, x) == QueueCount(q, x);
      }
    }
  }

  lemma SettleOthers(q: Queues, env: Env, r: Request, x: Request)
    requires x.id != r.id
    ensures Places(CollectSingle(q, env, r).0, x) == Places(q, x)
  {
    SettleCases(q, env, r);
    ForwardOne(q.forwarded, r, x);
    ParkLookup(q, r, x.origin);
  }

  /** A request under an unused id is in no place yet. */
  lemma NewIsNowhere(q: Queues, env: Env, accepted: map<RequestId, Request>, r: Request)
    requires Consistent(q, env, accepted) && r.id !in accepted
    ensures Places(q, r) == 0
  {
    assert WaitersMatch(WaitingFor(q, r.origin), r.origin, env, accepted);
    NotForwarded(q.forwarded, r);
  }

  lemma AcceptConsistent(q: Queues, env: Env, accepted: map<RequestId, Request>, r: Request)
    requires Consistent(q, env, accepted) && r.id !in accepted
    ensures Consistent(q, env, accepted[r.id := r])
  {
    forall k ensures WaitersMatch(WaitingFor(q, k), k, env, accepted[r.id := r]) {
      assert WaitersMatch(WaitingFor(q, k), k, env, accepted);
    }
  }

  lemma AcceptNew(q: Queues, env: Env, accepted: map<RequestId, Request>, cancelled: set<RequestId>, r: Request)
    requires Good(q, env, accepted, cancelled) && r.id !in accepted
    ensures Good(q, env, accepted[r.id := r], cancelled)
    ensures InHand(q, accepted[r.id := r], cancelled, r)
  {
    NewIsNowhere(q, env, accepted, r);
    AcceptConsistent(q, env, accepted, r);
  }

  lemma CancelGood(s: System, id: RequestId, origin: DeviceKey)
    requires Ledger(s)
    ensures Ledger(Next(s, CancelArrives(id, origin)))
  {
    var a := CancelReceived(s.q, id, origin);
    CancelReceivedGood(s.q, s.env, s.accepted, s.cancelled, id, origin);
    CancelWaitingGood(a, s.env, s.accepted, s.cancelled, id, origin);
    CancelUntrustedGood(CancelWaiting(a, s.env, id, origin), s.env, s.accepted, s.cancelled, id, origin);
    if id in s.accepted {
      CancelPlaces(s.q, s.env, id, origin, s.accepted[id]);
    }
  }

  /** The ledger does not depend on which sessions exist. */
  lemma SessionsKeepGood(q: Queues, env: Env, accepted: map<RequestId, Request>, cancelled: set<RequestId>, sessions: set<DeviceKey>)
    requires Good(q, env, accepted, cancelled)
    ensures Good(q.(sessions := sessions), env, accepted, cancelled)
  {
    var t := q.(sessions := sessions);
    forall k ensures WaitingFor(t, k) == WaitingFor(q, k) && WaitersMatch(WaitingFor(t, k), k, env, accepted) {
      assert WaitersMatch(WaitingFor(q, k), k, env, accepted);
    }
    assert forall x :: Places(t, x) == Places(q, x);
  }

  lemma StepKeepsLedger(s: System, step: Step)
    requires Ledger(s)
    ensures Ledger(Next(s, step))
  {
    match step
    case Arrive(r, groupAlgorithm) =>
      if groupAlgorithm && r.id !in s.accepted {
        AcceptNew(s.q, s.env, s.accepted, s.cancelled, r);
        PutReceived(s.q, s.env, s.accepted[r.id := r], s.cancelled, r);
      }
    case CancelArrives(id, origin) => CancelGood(s, id, origin);
    case CollectQueue(ids) =>
      if Elements(ids) == s.q.received.Keys && NoDuplicates(ids) {
        CollectIsTaken(s.q, s.env, ids);
        CollectAllGood(s.q, s.env, s.accepted, s.cancelled, ids);
      }
    case ContinueRequest(r) => ContinueGood(s.q, s.env, s.accepted, s.cancelled, r);
    case Decline(id) => TakeUntrusted(s.q, s.env, s.accepted, s.cancelled, id);
    case KeysClaimed(k, signed) => ClaimGood(s.q, s.env, s.accepted, s.cancelled, k, signed);
    case SessionsChange(sessions) => SessionsKeepGood(s.q, s.env, s.accepted, s.cancelled, sessions);
    case EnvChanges(env) =>
  }

  lemma CollectIsTaken(q: Queues, env: Env, ids: seq<RequestId>)
    requires Elements(ids) == q.received.Keys
    ensures forall i :: i in ids ==> i in q.received
    ensures Collect(q, env, ids).0 == CollectTaken(q, env, ids)
  {
    assert forall i :: i in ids ==> i in Elements(ids);
    assert q.received - Elements(ids) == map[];
  }

  /** The steps that take a request out of the queues without forwarding it, judged before the step. */
  ghost predicate Dismisses(s: System, step: Step, x: Request) {
    match step
    case CancelArrives(id, origin) => About(x, id, origin) && QueueCount(s.q, x) > 0
    case Decline(id) => id == x.id && InUntrusted(s.q, x)
    case CollectQueue(ids) =>
      Elements(ids) == s.q.received.Keys && NoDuplicates(ids) && InReceived(s.q, x) && Refusable(s.env, x)
    case ContinueRequest(r) => r == x && InUntrusted(s.q, x) && Refusable(s.env, x)
    case _ => false
  }

  /**
   * No accepted request is duplicated or lost by a step: it stays in one place if and only if the step is no cancellation
   * by its own device, no refusal by the user, and no collecting that finds it is not ours to answer.
   */
  lemma StepPlaces(s: System, step: Step, x: Request)
    requires Ledger(s) && x.id in s.accepted && s.accepted[x.id] == x
    ensures Places(Next(s, step).q, x) == Places(s.q, x) - One(Dismisses(s, step, x))
  {
    assert Places(s.q, x) <= 1;
    match step
    case Arrive(r, groupAlgorithm) =>
    case CancelArrives(id, origin) => CancelPlaces(s.q, s.env, id, origin, x);
    case CollectQueue(ids) =>
      if Elements(ids) == s.q.received.Keys && NoDuplicates(ids) {
        CollectIsTaken(s.q, s.env, ids);
        CollectAllPlaces(s.q, s.env, s.accepted, s.cancelled, ids, x);
      }
    case ContinueRequest(r) => ContinuePlaces(s.q, s.env, r, x);
    case Decline(id) =>
    case KeysClaimed(k, signed) => ClaimPlaces(s.q, s.env, k, signed, x);
    case SessionsChange(sessions) =>
    case EnvChanges(env) =>
  }

  /** Everything appended to the log is a session we hold, for a device of our own user that is verified and has an Olm session. */
  ghost predicate ForwardsTrusted(before: seq<Request>, after: seq<Request>, env: Env, sessions: set<DeviceKey>) {
    && |before| <= |after| && after[..|before|] == before
    && forall j :: |before| <= j < |after| ==>
      var r := after[j];
      r.origin.userId == env.ownUser && r.origin in env.verified && env.verified[r.origin]
      && r.session in env.known && r.origin in sessions
  }

  lemma SettleForwardsTrusted(q: Queues, env: Env, r: Request)
    ensures CollectSingle(q, env, r).0.sessions == q.sessions
    ensures ForwardsTrusted(q.forwarded, CollectSingle(q, env, r).0.forwarded, env, q.sessions)
  {
    SettleCases(q, env, r);
  }

  lemma {:induction false} CollectForwardsTrusted(q: Queues, env: Env, ids: seq<RequestId>)
    requires forall i :: i in ids ==> i in q.received
    ensures CollectAll(q, env, ids).0.sessions == q.sessions
    ensures ForwardsTrusted(q.forwarded, CollectAll(q, env, ids).0.forwarded, env, q.sessions)
  {
    if ids != [] {
      var before := ids[..|ids| - 1];
      CollectForwardsTrusted(q, env, before);
      var e := q.received[ids[|ids| - 1]];
      if e.Wanted? {
        SettleForwardsTrusted(CollectAll(q, env, before).0, env, e.request);
      }
    }
  }

  lemma StepForwardsTrusted(s: System, step: Step)
    ensures ForwardsTrusted(s.q.forwarded, Next(s, step).q.forwarded, s.env, s.q.sessions)
  {
    match step
    case CollectQueue(ids) =>
      if Elements(ids) == s.q.received.Keys && NoDuplicates(ids) {
        assert forall i :: i in ids ==> i in Elements(ids);
        CollectForwardsTrusted(s.q, s.env, ids);
      }
    case ContinueRequest(r) => SettleForwardsTrusted(s.q, s.env, r);
    case _ =>
  }

  // ----- Where collecting puts each request -----

  /** A settled request is forwarded, parked, shown to the user or gone, each in exactly its own case. */
  ghost predicate Settled(q: Queues, env: Env, sessions: set<DeviceKey>, x: Request) {
    var ours := !Refusable(env, x);
    var trusted := ours && env.verified[x.origin];
    && !InReceived(q, x)
    && (InUntrusted(q, x) <==> ours && !trusted)
    && (InWaiting(q, x) <==> trusted && x.origin !in sessions)
    && TimesForwarded(q.forwarded, x) == One(trusted && x.origin in sessions)
  }

  /** What settling makes of the queues, in each case. */
  lemma SettleOutcome(q: Queues, env: Env, r: Request)
    ensures CollectSingle(q, env, r) ==
              if Refusable(env, r) then (q, true)
              else if !env.verified[r.origin] then (q, false)
              else if r.origin !in q.sessions then (Park(q, r), true)
              else (q.(forwarded := q.forwarded + [r]), true)
  {
  }

  lemma SettledHere(t: Queues, env: Env, x: Request)
    requires Places(t, x) == 0
    ensures Settled(CollectEntry(t, env, Wanted(x)).0, env, t.sessions, x)
  {
    SettleOutcome(t, env, x);
    assert !InReceived(t, x) && !InUntrusted(t, x) && !InWaiting(t, x) && TimesForwarded(t.forwarded, x) == 0;
    if !Refusable(env, x) && env.verified[x.origin] {
      ForwardOne(t.forwarded, x, x);
      ParkLookup(t, x, x.origin);
    }
  }

  lemma EntrySettles(q: Queues, env: Env, accepted: map<RequestId, Request>, cancelled: set<RequestId>, x: Request)
    requires Good(q, env, accepted, cancelled) && x.id in q.received && q.received[x.id] == Wanted(x)
    ensures Settled(HandleEntry(q, env, x.id), env, q.sessions, x)
  {
    TakeReceived(q, env, accepted, cancelled, x.id);
    SettledHere(q.(received := q.received - {x.id}), env, x);
  }

  lemma EntryKeepsSettled(q: Queues, env: Env, id: RequestId, sessions: set<DeviceKey>, x: Request)
    requires id in q.received && (q.received[id].Wanted? ==> q.received[id].request.id == id)
    requires x.id != id && Settled(q, env, sessions, x)
    ensures Settled(HandleEntry(q, env, id), env, sessions, x)
  {
    if q.received[id].Wanted? {
      var t, r := q.(received := q.received - {id}), q.received[id].request;
      SettleCases(t, env, r);
      ForwardOne(t.forwarded, r, x);
      ParkLookup(t, r, x.origin);
    }
  }

  /** One more entry settles its own request and leaves settled ones settled. */
  lemma NextEntrySettles(u: Queues, env: Env, accepted: map<RequestId, Request>, cancelled: set<RequestId>, id: RequestId, x: Request)
    requires Good(u, env, accepted, cancelled) && id in u.received
    requires if id == x.id then u.received[id] == Wanted(x) else Settled(u, env, u.sessions, x)
    ensures Settled(HandleEntry(u, env, id), env, u.sessions, x)
  {
    if id == x.id {
      EntrySettles(u, env, accepted, cancelled, x);
    } else {
      EntryKeepsSettled(u, env, id, u.sessions, x);
    }
  }

  /** The same on the queues as collecting leaves them after the entries before. */
  lemma CollectOneMoreSettles(q: Queues, env: Env, accepted: map<RequestId, Request>, cancelled: set<RequestId>,
                              before: seq<RequestId>, last: RequestId, x: Request)
    requires Good(q, env, accepted, cancelled)
    requires NoDuplicates(before + [last]) && forall i :: i in before + [last] ==> i in q.received
    requires forall i :: i in before ==> i in q.received
    requires if last == x.id then q.received[last] == Wanted(x) else Settled(CollectTaken(q, env, before), env, q.sessions, x)
    ensures Settled(CollectTaken(q, env, before + [last]), env, q.sessions, x)
  {
    TakenOneByOne(q, env, before, last);
    CollectAllGood(q, env, accepted, cancelled, before);
    CollectForwardsTrusted(q, env, before);
    var u := CollectTaken(q, env, before);
    assert u.sessions == q.sessions && u.received[last] == q.received[last];
    NextEntrySettles(u, env, accepted, cancelled, last, x);
  }

  /** Collecting settles every request of the sync queue, whatever else is in the queue and in whatever order. */
  lemma {:induction false} CollectAllSettles(q: Queues, env: Env, accepted: map<RequestId, Request>,
                                             cancelled: set<RequestId>, ids: seq<RequestId>, x: Request)
    requires Good(q, env, accepted, cancelled)
    requires NoDuplicates(ids) && forall i :: i in ids ==> i in q.received
    requires x.id in ids && q.received[x.id] == Wanted(x)
    ensures Settled(CollectTaken(q, env, ids), env, q.sessions, x)
  {
    var before, last := ids[..|ids| - 1], ids[|ids| - 1];
    assert ids == before + [last];
    TakenOneByOne(q, env, before, last);
    if last != x.id {
      CollectAllSettles(q, env, accepted, cancelled, before, x);
    }
    CollectOneMoreSettles(q, env, accepted, cancelled, before, last, x);
  }

  /**
   * After collecting, a request of the sync queue was forwarded if its device is verified and has a session, waits if it
   * is verified and has none, is shown to the user if it is not verified, and is gone only if it is not ours to answer.
   */
  lemma CollectSettles(s: System, ids: seq<RequestId>, x: Request)
    requires Ledger(s) && Elements(ids) == s.q.received.Keys && NoDuplicates(ids)
    requires x.id in s.q.received && s.q.received[x.id] == Wanted(x)
    ensures Settled(Next(s, CollectQueue(ids)).q, s.env, s.q.sessions, x)
  {
    CollectIsTaken(s.q, s.env, ids);
    assert x.id in Elements(ids);
    CollectAllSettles(s.q, s.env, s.accepted, s.cancelled, ids, x);
  }

  ghost function RunFrom(s: System, steps: seq<Step>): System {
    if steps == [] then s else Next(RunFrom(s, steps[..|steps| - 1]), steps[|steps| - 1])
  }

  function Start(env: Env): System {
    System(NO_QUEUES, env, map[], {})
  }

  lemma {:induction false} RunKeepsLedger(s: System, steps: seq<Step>)
    requires Ledger(s)
    ensures Ledger(RunFrom(s, steps))
  {
    if steps != [] {
      RunKeepsLedger(s, steps[..|steps| - 1]);
      StepKeepsLedger(RunFrom(s, steps[..|steps| - 1]), steps[|steps| - 1]);
    }
  }

  lemma {:induction false} RunKeepsAccepted(s: System, steps: seq<Step>, id: RequestId)
    requires id in s.accepted
    ensures id in RunFrom(s, steps).accepted && RunFrom(s, steps).accepted[id] == s.accepted[id]
    ensures s.cancelled <= RunFrom(s, steps).cancelled
  {
    if steps != [] {
      RunKeepsAccepted(s, steps[..|steps| - 1], id);
    }
  }

  /**
   * In every reachable state each accepted request is in at most one of the three queues and the forwarding log,
   * and is forwarded at most once; the devices to claim keys for are exactly those with waiting requests.
   */
  lemma ReachableLedger(env: Env, steps: seq<Step>)
    ensures Ledger(RunFrom(Start(env), steps))
  {
    assert WaitingExact(NO_QUEUES, env);
    RunKeepsLedger(Start(env), steps);
  }

  lemma NotAcceptedNotDismissed(s: System, step: Step, x: Request)
    requires Ledger(s) && x.id !in s.accepted
    ensures !Dismisses(s, step, x)
  {
    NewIsNowhere(s.q, s.env, s.accepted, x);
  }

  /** Some step of the run dismissed the request. */
  ghost predicate Dismissed(env: Env, steps: seq<Step>, x: Request) {
    exists i :: 0 <= i < |steps| && Dismisses(RunFrom(Start(env), steps[..i]), steps[i], x)
  }

  lemma DismissedOneMore(env: Env, before: seq<Step>, last: Step, x: Request)
    ensures Dismissed(env, before + [last], x) <==>
              Dismissed(env, before, x) || Dismisses(RunFrom(Start(env), before), last, x)
  {
    var steps := before + [last];
    assert steps[..|before|] == before && steps[|before|] == last;
    if i :| 0 <= i < |before| && Dismisses(RunFrom(Start(env), before[..i]), before[i], x) {
      assert steps[..i] == before[..i] && steps[i] == before[i];
    }
    if i :| 0 <= i < |steps| && Dismisses(RunFrom(Start(env), steps[..i]), steps[i], x) {
      if i < |before| {
        assert steps[..i] == before[..i] && steps[i] == before[i];
      }
    }
  }

  /** What has not arrived yet was not dismissed. */
  lemma {:induction false} NotYetDismissed(env: Env, steps: seq<Step>, x: Request)
    requires x.id !in RunFrom(Start(env), steps).accepted
    ensures !Dismissed(env, steps, x)
  {
    if steps != [] {
      var before, last := steps[..|steps| - 1], steps[|steps| - 1];
      assert steps == before + [last];
      NotYetDismissed(env, before, x);
      ReachableLedger(env, before);
      NotAcceptedNotDismissed(RunFrom(Start(env), before), last, x);
      DismissedOneMore(env, before, last, x);
    }
  }

  /** A newly accepted request is in the sync queue and nowhere else. */
  lemma ArrivalPlace(s: System, step: Step, x: Request)
    requires Ledger(s) && x.id !in s.accepted && x.id in Next(s, step).accepted && Next(s, step).accepted[x.id] == x
    ensures Places(Next(s, step).q, x) == 1
  {
    NewIsNowhere(s.q, s.env, s.accepted, x);
  }

  lemma PlaceAfterStep(s: System, step: Step, x: Request, dismissed: bool)
    requires Ledger(s) && x.id in Next(s, step).accepted && Next(s, step).accepted[x.id] == x
    requires if x.id in s.accepted then Places(s.q, x) == 1 - One(dismissed) else !dismissed
    ensures Places(Next(s, step).q, x) == 1 - One(dismissed || Dismisses(s, step, x))
  {
    if x.id in s.accepted {
      assert s.accepted[x.id] == x;
      StepPlaces(s, step, x);
    } else {
      NotAcceptedNotDismissed(s, step, x);
      ArrivalPlace(s, step, x);
    }
  }

  /** The same after the run before. */
  lemma PlaceAfterRun(env: Env, before: seq<Step>, last: Step, x: Request, dismissed: bool)
    requires var s := RunFrom(Start(env), before);
             && x.id in Next(s, last).accepted && Next(s, last).accepted[x.id] == x
             && if x.id in s.accepted then Places(s.q, x) == 1 - One(dismissed) else !dismissed
    ensures var s := RunFrom(Start(env), before);
            Places(Next(s, last).q, x) == 1 - One(dismissed || Dismisses(s, last, x))
  {
    ReachableLedger(env, before);
    PlaceAfterStep(RunFrom(Start(env), before), last, x, dismissed);
  }

  lemma AcceptedStays(s: System, step: Step, id: RequestId)
    requires id in s.accepted
    ensures id in Next(s, step).accepted && Next(s, step).accepted[id] == s.accepted[id]
  {
  }

  /** In every reachable state an accepted request is in exactly one place, unless a step of the run dismissed it; then it is in none. */
  lemma {:induction false} ExactlyOnePlace(env: Env, steps: seq<Step>, x: Request)
    requires var s := RunFrom(Start(env), steps); x.id in s.accepted && s.accepted[x.id] == x
    ensures Places(RunFrom(Start(env), steps).q, x) == if Dismissed(env, steps, x) then 0 else 1
  {
    if steps != [] {
      var before, last := steps[..|steps| - 1], steps[|steps| - 1];
      assert steps == before + [last];
      DismissedOneMore(env, before, last, x);
      if x.id in RunFrom(Start(env), before).accepted {
        AcceptedStays(RunFrom(Start(env), before), last, x.id);
        ExactlyOnePlace(env, before, x);
      } else {
        NotYetDismissed(env, before, x);
      }
      PlaceAfterRun(env, before, last, x, Dismissed(env, before, x));
    }
  }

  lemma {:induction false} LongerLog(a: seq<Request>, b: seq<Request>, x: Request)
    requires |a| <= |b| && b[..|a|] == a
    ensures TimesForwarded(a, x) <= TimesForwarded(b, x)
  {
    if |a| < |b| {
      assert b[..|b| - 1][..|a|] == a;
      LongerLog(a, b[..|b| - 1], x);
    } else {
      assert a == b;
    }
  }

  /** Once its own device has cancelled it, a request leaves the queues for good and is never forwarded again. */
  lemma {:induction false} CancelledNeverForwarded(s: System, steps: seq<Step>, id: RequestId)
    requires Ledger(s) && id in s.cancelled
    ensures var t := RunFrom(s, steps);
            && id in s.accepted && id in t.accepted && t.accepted[id] == s.accepted[id]
            && QueueCount(t.q, s.accepted[id]) == 0
            && TimesForwarded(t.q.forwarded, s.accepted[id]) == TimesForwarded(s.q.forwarded, s.accepted[id])
  {
    var x := s.accepted[id];
    RunKeepsAccepted(s, steps, id);
    RunKeepsLedger(s, steps);
    if steps != [] {
      var before := steps[..|steps| - 1];
      RunKeepsAccepted(s, before, id);
      RunKeepsLedger(s, before);
      CancelledNeverForwarded(s, before, id);
      var u := RunFrom(s, before);
      StepPlaces(u, steps[|steps| - 1], x);
      StepForwardsTrusted(u, steps[|steps| - 1]);
      LongerLog(u.q.forwarded, RunFrom(s, steps).q.forwarded, x);
    }
  }
}
