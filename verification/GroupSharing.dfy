/**
 * The two ways the machine shares a room key (src/nio/crypto/olm_machine.py): one pass that
 * yields requests of at most 20 devices, and repeated batches of 20 that are acknowledged in turn.
 */
module GroupSharing {
  import opened Wrappers
  import opened Sequences
  import opened Devices

  const MAX_TO_DEVICE_MESSAGES := 20

  /** A device as the sharers see it: identity, ownership, trust, and whether an Olm session exists. */
  datatype Device = Device(
    key: DeviceKey,
    own: bool,
    blacklisted: bool,
    verified: bool,
    trustIgnored: bool,
    hasSession: bool)

  /** The two sets a group session carries. */
  datatype Cover = Cover(shared: set<DeviceKey>, ignored: set<DeviceKey>)

  const EMPTY_COVER := Cover({}, {})

  datatype Policy = Policy(ignoreMissingSessions: bool, ignoreUnverifiedDevices: bool)

  datatype Failure = UnverifiedDevice(device: DeviceKey) | MissingSession(device: DeviceKey) | AlreadyShared

  predicate Handled(c: Cover, k: DeviceKey) {
    k in c.shared || k in c.ignored
  }

  /** Devices that never receive the key: our own id and the blacklist. */
  predicate Skipped(d: Device) {
    d.own || d.blacklisted
  }

  predicate Trusted(d: Device, p: Policy) {
    d.verified || d.trustIgnored || p.ignoreUnverifiedDevices
  }

  // ----- The one-shot sharer -----

  /** State of its collecting loop. */
  datatype Scan = Scan(ignored: set<DeviceKey>, picked: seq<DeviceKey>, failed: Option<Failure>)

  function ScanDevice(s: Scan, shared: set<DeviceKey>, d: Device, p: Policy): Scan {
    if s.failed.Some? then s
    else if Skipped(d) then s.(ignored := s.ignored + {d.key})
    else if d.key in shared || d.key in s.ignored then s
    else if !d.hasSession then s
    else if !Trusted(d, p) then s.(failed := Some(UnverifiedDevice(d.key)))
    else s.(picked := s.picked + [d.key])
  }

  function ScanAll(c: Cover, devices: seq<Device>, p: Policy): Scan {
    if devices == [] then Scan(c.ignored, [], None)
    else ScanDevice(ScanAll(c, devices[..|devices| - 1], p), c.shared, devices[|devices| - 1], p)
  }

  /** `chunks(lst, n)`. */
  function Chunks(s: seq<DeviceKey>, n: nat): seq<seq<DeviceKey>>
    requires n > 0
  {
    if s == [] then []
    else if |s| <= n then [s]
    else [s[..n]] + Chunks(s[n..], n)
  }

  // ----- The batch sharer -----

  /** State of its collecting loop; `stop` stands for the two break statements. */
  datatype Batch = Batch(ignored: set<DeviceKey>, picked: seq<DeviceKey>, failed: Option<Failure>, stop: bool)

  function BatchDevice(b: Batch, shared: set<DeviceKey>, d: Device, p: Policy): Batch {
    if b.failed.Some? || b.stop then b
    else if Skipped(d) then b.(ignored := b.ignored + {d.key})
    else if d.key in shared || d.key in b.ignored then b
    else if !d.hasSession then
      if p.ignoreMissingSessions then b.(ignored := b.ignored + {d.key})
      else b.(failed := Some(MissingSession(d.key)))
    else if !Trusted(d, p) then b.(failed := Some(UnverifiedDevice(d.key)))
    else
      var picked := b.picked + [d.key];
      b.(picked := picked, stop := |picked| >= MAX_TO_DEVICE_MESSAGES)
  }

  function BatchAll(c: Cover, devices: seq<Device>, p: Policy): Batch {
    if devices == [] then Batch(c.ignored, [], None, false)
    else BatchDevice(BatchAll(c, devices[..|devices| - 1], p), c.shared, devices[|devices| - 1], p)
  }

  // ----- What both should reach -----

  /** Gets the key: not skipped, not handled yet, reachable. */
  predicate Eligible(c: Cover, d: Device) {
    !Skipped(d) && !Handled(c, d.key) && d.hasSession
  }

  ghost predicate Distinct(devices: seq<Device>) {
    forall i, j :: 0 <= i < j < |devices| ==> devices[i].key != devices[j].key
  }

  function Recipients(c: Cover, devices: seq<Device>): set<DeviceKey> {
    set d | d in devices && Eligible(c, d) :: d.key
  }

  /** An eligible device that nobody decided to trust or ignore: it stops both sharers. */
  ghost predicate Blocked(c: Cover, devices: seq<Device>, p: Policy) {
    exists d :: d in devices && Eligible(c, d) && !Trusted(d, p)
  }

  /** Devices a share response would still find uncovered. */
  function Open(c: Cover, devices: seq<Device>): set<DeviceKey> {
    set d | d in devices && !Handled(c, d.key) :: d.key
  }

  function SkippedKeys(devices: seq<Device>): set<DeviceKey> {
    set d | d in devices && Skipped(d) :: d.key
  }

  lemma DistinctPrefix(devices: seq<Device>)
    requires Distinct(devices) && devices != []
    ensures var t := devices[..|devices| - 1];
            && Distinct(t) && devices == t + [devices[|devices| - 1]]
            && forall d :: d in t ==> d.key != devices[|devices| - 1].key
  {
  }

  /** The one-shot pass picks every eligible device once, unless one of them blocks it. */
  lemma {:induction false} ScanPicksRecipients(c: Cover, devices: seq<Device>, p: Policy)
    requires Distinct(devices)
    ensures var s := ScanAll(c, devices, p);
            && (s.failed.Some? <==> Blocked(c, devices, p))
            && (s.failed.None? ==>
                NoDuplicates(s.picked) && Elements(s.picked) == Recipients(c, devices)
                && s.ignored == c.ignored + SkippedKeys(devices))
  {
    if devices != [] {
      var t := devices[..|devices| - 1];
      var d := devices[|devices| - 1];
      DistinctPrefix(devices);
      ScanPicksRecipients(c, t, p);
      var s := ScanAll(c, t, p);
      assert forall x :: x in devices <==> x in t || x == d;
      if s.failed.None? {
        ScanStep(c, t, d, p);
      }
    }
  }

  /** One more device adds its own key, or nothing, to each of the sets. */
  lemma OneMoreDevice(c: Cover, t: seq<Device>, d: Device)
    requires forall x :: x in t ==> x.key != d.key
    ensures SkippedKeys(t + [d]) == SkippedKeys(t) + (if Skipped(d) then {d.key} else {})
    ensures Recipients(c, t + [d]) == Recipients(c, t) + (if Eligible(c, d) then {d.key} else {})
    ensures Unreachable(c, t + [d]) == Unreachable(c, t) +
            (if !Skipped(d) && !Handled(c, d.key) && !d.hasSession then {d.key} else {})
    ensures d.key !in SkippedKeys(t) && d.key !in Unreachable(c, t) && d.key !in Recipients(c, t)
  {
    assert forall x :: x in t + [d] <==> x in t || x == d;
  }

  lemma ScanStep(c: Cover, t: seq<Device>, d: Device, p: Policy)
    requires forall x :: x in t ==> x.key != d.key
    requires !Blocked(c, t, p)
    requires var s := ScanAll(c, t, p);
             s.failed.None? && NoDuplicates(s.picked) && Elements(s.picked) == Recipients(c, t)
             && s.ignored == c.ignored + SkippedKeys(t)
    ensures var s := ScanDevice(ScanAll(c, t, p), c.shared, d, p);
            && (s.failed.Some? <==> Blocked(c, t + [d], p))
            && (s.failed.None? ==>
                NoDuplicates(s.picked) && Elements(s.picked) == Recipients(c, t + [d])
                && s.ignored == c.ignored + SkippedKeys(t + [d]))
  {
    var s := ScanAll(c, t, p);
    assert d in t + [d];
    OneMoreDevice(c, t, d);
    AppendDistinct(s.picked, d.key);
    if Eligible(c, d) && !Trusted(d, p) {
      assert Blocked(c, t + [d], p);
    }
  }

  // ----- Chunks -----

  ghost function Concat(chunks: seq<seq<DeviceKey>>): seq<DeviceKey> {
    if chunks == [] then [] else Concat(chunks[..|chunks| - 1]) + chunks[|chunks| - 1]
  }

  /** Chunking keeps the order and every element; only the last chunk may be short, none is empty. */
  lemma {:induction false} ChunksCover(s: seq<DeviceKey>, n: nat)
    requires n > 0
    ensures forall i :: 0 <= i < |Chunks(s, n)| ==> 0 < |Chunks(s, n)[i]| <= n
    ensures forall i :: 0 <= i < |Chunks(s, n)| - 1 ==> |Chunks(s, n)[i]| == n
    ensures Concat(Chunks(s, n)) == s
  {
    if |s| > n {
      ChunksCover(s[n..], n);
      ConcatCons(s[..n], Chunks(s[n..], n));
    } else if s != [] {
      assert Concat([s]) == Concat([]) + s;
    }
  }

  lemma {:induction false} ConcatCons(first: seq<DeviceKey>, rest: seq<seq<DeviceKey>>)
    ensures Concat([first] + rest) == first + Concat(rest)
  {
    if rest == [] {
      assert ([first] + rest)[..0] == [];
    } else {
      assert ([first] + rest)[..|rest|] == [first] + rest[..|rest| - 1];
      ConcatCons(first, rest[..|rest| - 1]);
    }
  }

  /** When the chunks together list nothing twice, each element sits in exactly one of them. */
  lemma {:induction false} ExactlyOneChunk(chunks: seq<seq<DeviceKey>>, k: DeviceKey)
    requires NoDuplicates(Concat(chunks))
    ensures k in Concat(chunks) <==> exists i :: 0 <= i < |chunks| && k in chunks[i]
    ensures forall i, j :: 0 <= i < j < |chunks| ==> !(k in chunks[i] && k in chunks[j])
  {
    if chunks != [] {
      var init, last := chunks[..|chunks| - 1], chunks[|chunks| - 1];
      var all := Concat(chunks);
      assert all == Concat(init) + last;
      DistinctParts(Concat(init), last);
      ExactlyOneChunk(init, k);
      assert forall i :: 0 <= i < |init| ==> chunks[i] == init[i];
      if i :| 0 <= i < |chunks| && k in chunks[i] {
        assert i < |init| ==> k in init[i];
      }
    }
  }

  /**
   * The one-shot sharer, unless blocked, sends every eligible device the key in exactly one
   * request, and no request addresses more than 20 devices.
   */
  lemma OneShotCoversRecipients(c: Cover, devices: seq<Device>, p: Policy, k: DeviceKey)
    requires Distinct(devices) && !Blocked(c, devices, p)
    ensures var requests := Chunks(ScanAll(c, devices, p).picked, MAX_TO_DEVICE_MESSAGES);
            && (k in Recipients(c, devices) <==> exists i :: 0 <= i < |requests| && k in requests[i])
            && (forall i, j :: 0 <= i < j < |requests| ==> !(k in requests[i] && k in requests[j]))
            && (forall i :: 0 <= i < |requests| ==> 0 < |requests[i]| <= MAX_TO_DEVICE_MESSAGES)
  {
    ScanPicksRecipients(c, devices, p);
    var picked := ScanAll(c, devices, p).picked;
    ChunksCover(picked, MAX_TO_DEVICE_MESSAGES);
    ExactlyOneChunk(Chunks(picked, MAX_TO_DEVICE_MESSAGES), k);
    assert k in picked <==> k in Elements(picked);
  }

  // ----- Both sharers for every policy, device by device -----

  /** Still to be looked at: another device, not blacklisted, that neither has the key nor is ignored. */
  predicate InPlay(c: Cover, d: Device) {
    !d.own && !d.blacklisted && d.key !in c.shared && d.key !in c.ignored
  }

  /** No decision of the user or of the policy lets the device have the key. */
  predicate Untrusted(d: Device, p: Policy) {
    !d.verified && !d.trustIgnored && !p.ignoreUnverifiedDevices
  }

  /** What makes the batch sharer raise. */
  predicate RaisesInBatch(d: Device, p: Policy) {
    if d.hasSession then Untrusted(d, p) else !p.ignoreMissingSessions
  }

  /** The devices in play with a session, in order. */
  function Reachable(c: Cover, devices: seq<Device>): seq<DeviceKey> {
    if devices == [] then []
    else
      var before, d := Reachable(c, devices[..|devices| - 1]), devices[|devices| - 1];
      if InPlay(c, d) && d.hasSession then before + [d.key] else before
  }

  /** The ignored set after some devices were visited; only the batch sharer ignores a device without a session. */
  ghost predicate IgnoredAfter(ignored: set<DeviceKey>, c: Cover, devices: seq<Device>, sessionless: bool) {
    forall k :: k in ignored <==>
      || k in c.ignored
      || exists d :: d in devices && d.key == k && (d.own || d.blacklisted || (sessionless && InPlay(c, d) && !d.hasSession))
  }

  lemma IgnoredOneMore(ignored: set<DeviceKey>, c: Cover, t: seq<Device>, d: Device, sessionless: bool)
    requires IgnoredAfter(ignored, c, t, sessionless)
    ensures IgnoredAfter(
              if d.own || d.blacklisted || (sessionless && InPlay(c, d) && !d.hasSession) then ignored + {d.key} else ignored,
              c, t + [d], sessionless)
  {
    assert forall x :: x in t + [d] <==> x in t || x == d;
  }

  /** A device is in play when its turn comes exactly when it is in play at the start. */
  lemma InPlayAtItsTurn(ignored: set<DeviceKey>, c: Cover, t: seq<Device>, d: Device, sessionless: bool)
    requires IgnoredAfter(ignored, c, t, sessionless) && forall x :: x in t ==> x.key != d.key
    ensures d.key in ignored <==> d.key in c.ignored
  {
  }

  /** How far the one-shot scan gets, what it picked by then, and why it stopped. */
  ghost predicate ScanStopsAt(c: Cover, devices: seq<Device>, p: Policy, n: nat) {
    n <= |devices| &&
    var s := ScanAll(c, devices, p);
    && (forall j :: 0 <= j < n ==> !(InPlay(c, devices[j]) && devices[j].hasSession && Untrusted(devices[j], p)))
    && s.picked == Reachable(c, devices[..n])
    && IgnoredAfter(s.ignored, c, devices[..n], false)
    && (n == |devices| ==> s.failed.None?)
    && (n < |devices| ==>
        && InPlay(c, devices[n]) && devices[n].hasSession && Untrusted(devices[n], p)
        && s.failed == Some(UnverifiedDevice(devices[n].key)))
  }

  /** The one-shot sharer stops at the first untrusted device in play with a session, which its error names, and at no other. */
  lemma {:induction false} ScanStops(c: Cover, devices: seq<Device>, p: Policy) returns (n: nat)
    requires Distinct(devices)
    ensures ScanStopsAt(c, devices, p, n)
  {
    if devices == [] {
      n := 0;
    } else {
      var t, d := devices[..|devices| - 1], devices[|devices| - 1];
      assert devices == t + [d];
      DistinctPrefix(devices);
      n := ScanStops(c, t, p);
      assert devices[..n] == t[..n];
      if n == |t| {
        assert t[..n] == t && devices[..|devices|] == devices;
        var s := ScanAll(c, t, p);
        InPlayAtItsTurn(s.ignored, c, t, d, false);
        IgnoredOneMore(s.ignored, c, t, d, false);
        if !(InPlay(c, d) && d.hasSession && Untrusted(d, p)) {
          n := |devices|;
        }
      }
    }
  }

  /** How far a batch gets, what it picked by then, and why it stopped. */
  ghost predicate BatchStopsAt(c: Cover, devices: seq<Device>, p: Policy, n: nat) {
    n <= |devices| &&
    var b := BatchAll(c, devices, p);
    && (forall j :: 0 <= j < n ==> !(InPlay(c, devices[j]) && RaisesInBatch(devices[j], p)))
    && b.picked == Reachable(c, devices[..n])
    && IgnoredAfter(b.ignored, c, devices[..n], true)
    && |b.picked| <= 20 && (b.stop <==> |b.picked| == 20)
    && (n == |devices| ==> b.failed.None?)
    && (n < |devices| && |b.picked| == 20 ==> b.failed.None?)
    && (n > 0 && |b.picked| == 20 ==> InPlay(c, devices[n - 1]) && devices[n - 1].hasSession)
    && (n < |devices| && |b.picked| < 20 ==>
        var d := devices[n];
        && InPlay(c, d) && RaisesInBatch(d, p)
        && b.failed == Some(if d.hasSession then UnverifiedDevice(d.key) else MissingSession(d.key)))
  }

  /** A batch that has stopped is not changed by one more device. */
  lemma StoppedBatchStays(c: Cover, t: seq<Device>, d: Device, p: Policy, n: nat)
    requires BatchStopsAt(c, t, p, n) && (n < |t| || BatchAll(c, t, p).stop)
    ensures BatchStopsAt(c, t + [d], p, n)
  {
    var devices := t + [d];
    assert devices[..|devices| - 1] == t && devices[..n] == t[..n];
  }

  lemma BatchGoesOn(c: Cover, t: seq<Device>, d: Device, p: Policy)
    requires forall x :: x in t ==> x.key != d.key
    requires BatchStopsAt(c, t, p, |t|) && !BatchAll(c, t, p).stop
    ensures BatchStopsAt(c, t + [d], p, if InPlay(c, d) && RaisesInBatch(d, p) then |t| else |t| + 1)
  {
    var devices := t + [d];
    assert devices[..|devices| - 1] == t && devices[..|t|] == t && t[..|t|] == t && devices[..|devices|] == devices;
    BatchOneMore(c, t, d, p);
  }

  /**
   * For every policy a batch stops with its twentieth recipient, or else at the first device in play that has no session
   * while sessions are insisted on or is untrusted; its error names that device and its kind.
   */
  lemma {:induction false} BatchStops(c: Cover, devices: seq<Device>, p: Policy) returns (n: nat)
    requires Distinct(devices)
    ensures BatchStopsAt(c, devices, p, n)
  {
    if devices == [] {
      n := 0;
    } else {
      var t, d := devices[..|devices| - 1], devices[|devices| - 1];
      assert devices == t + [d];
      DistinctPrefix(devices);
      n := BatchStops(c, t, p);
      if n == |t| && !BatchAll(c, t, p).stop {
        BatchGoesOn(c, t, d, p);
        n := if InPlay(c, d) && RaisesInBatch(d, p) then |t| else |devices|;
      } else {
        StoppedBatchStays(c, t, d, p, n);
      }
    }
  }

  /** One more device in a batch that is neither full nor failed. */
  lemma BatchOneMore(c: Cover, t: seq<Device>, d: Device, p: Policy)
    requires forall x :: x in t ==> x.key != d.key
    requires BatchAll(c, t, p).failed.None? && !BatchAll(c, t, p).stop && IgnoredAfter(BatchAll(c, t, p).ignored, c, t, true)
    ensures var b, next := BatchAll(c, t, p), BatchDevice(BatchAll(c, t, p), c.shared, d, p);
            if InPlay(c, d) && RaisesInBatch(d, p) then
              next == b.(failed := Some(if d.hasSession then UnverifiedDevice(d.key) else MissingSession(d.key)))
            else
              && next.failed.None? && IgnoredAfter(next.ignored, c, t + [d], true)
              && next.picked == (if InPlay(c, d) && d.hasSession then b.picked + [d.key] else b.picked)
              && (next.stop <==> InPlay(c, d) && d.hasSession && |next.picked| >= 20)
  {
    var b := BatchAll(c, t, p);
    InPlayAtItsTurn(b.ignored, c, t, d, true);
    IgnoredOneMore(b.ignored, c, t, d, true);
  }

  /** The first device in play at which a batch raises, before its twentieth recipient. */
  ghost predicate FirstRaising(c: Cover, devices: seq<Device>, p: Policy, i: nat) {
    && i < |devices| && InPlay(c, devices[i]) && RaisesInBatch(devices[i], p)
    && (forall j :: 0 <= j < i ==> !(InPlay(c, devices[j]) && RaisesInBatch(devices[j], p)))
    && |Reachable(c, devices[..i])| < 20
  }

  /** A batch fails if and only if there is such a device, and then with that device and its kind of error. */
  lemma BatchFailsIff(c: Cover, devices: seq<Device>, p: Policy)
    requires Distinct(devices)
    ensures BatchAll(c, devices, p).failed.Some? <==> exists i: nat :: FirstRaising(c, devices, p, i)
    ensures forall i: nat :: FirstRaising(c, devices, p, i) ==>
              BatchAll(c, devices, p).failed ==
                Some(if devices[i].hasSession then UnverifiedDevice(devices[i].key) else MissingSession(devices[i].key))
  {
    var n := BatchStops(c, devices, p);
    if BatchAll(c, devices, p).failed.Some? {
      assert FirstRaising(c, devices, p, n);
    }
    forall i: nat | FirstRaising(c, devices, p, i) ensures i == n && BatchAll(c, devices, p).failed.Some? {
      if n < i {
        FullBefore(c, devices, n, i);
      }
    }
  }

  /** Reachable devices only add up. */
  lemma {:induction false} FullBefore(c: Cover, devices: seq<Device>, n: nat, i: nat)
    requires n <= i <= |devices|
    ensures |Reachable(c, devices[..n])| <= |Reachable(c, devices[..i])|
  {
    if n < i {
      assert devices[..i][..i - 1] == devices[..i - 1];
      FullBefore(c, devices, n, i - 1);
    }
  }

  lemma {:induction false} ReachableAre(c: Cover, devices: seq<Device>)
    ensures forall k :: k in Reachable(c, devices) <==>
              exists d :: d in devices && d.key == k && InPlay(c, d) && d.hasSession
  {
    if devices != [] {
      var t, d := devices[..|devices| - 1], devices[|devices| - 1];
      assert devices == t + [d];
      ReachableAre(c, t);
      assert forall x :: x in devices <==> x in t || x == d;
    }
  }

  /** No request of either sharer is for our own device, a blacklisted or an untrusted one, or one that has the key or is ignored. */
  lemma OnlyTrustedDevices(c: Cover, devices: seq<Device>, p: Policy, k: DeviceKey)
    requires Distinct(devices)
    requires k in ScanAll(c, devices, p).picked || k in BatchAll(c, devices, p).picked
    ensures exists d :: d in devices && d.key == k && !d.own && !d.blacklisted && d.hasSession
              && k !in c.shared && k !in c.ignored && (d.verified || d.trustIgnored || p.ignoreUnverifiedDevices)
  {
    var n := ScanStops(c, devices, p);
    var m := BatchStops(c, devices, p);
    var prefix := if k in ScanAll(c, devices, p).picked then devices[..n] else devices[..m];
    ReachableAre(c, prefix);
    var d :| d in prefix && d.key == k && InPlay(c, d) && d.hasSession;
    var j :| 0 <= j < |prefix| && prefix[j] == d;
    assert devices[j] == d;
  }

  // ----- Rounds of batch and acknowledgement -----

  /** Unhandled devices the batch sharer can only ignore. */
  function Unreachable(c: Cover, devices: seq<Device>): set<DeviceKey> {
    set d | d in devices && !Skipped(d) && !Handled(c, d.key) && !d.hasSession :: d.key
  }

  /** One batch handles exactly a prefix of the device list, and stops short of the end only when it is full. */
  ghost predicate BatchReaches(c: Cover, devices: seq<Device>, p: Policy, n: nat) {
    n <= |devices| &&
    var b := BatchAll(c, devices, p);
    var t := devices[..n];
    && b.failed.None?
    && NoDuplicates(b.picked) && Elements(b.picked) == Recipients(c, t)
    && b.ignored == c.ignored + SkippedKeys(t) + Unreachable(c, t)
    && !Blocked(c, t, p)
    && |b.picked| <= MAX_TO_DEVICE_MESSAGES
    && (b.stop <==> |b.picked| == MAX_TO_DEVICE_MESSAGES)
    && (n < |devices| ==> b.stop)
  }

  lemma {:induction false} BatchHandlesPrefix(c: Cover, devices: seq<Device>, p: Policy) returns (n: nat)
    requires Distinct(devices) && p.ignoreMissingSessions
    ensures BatchAll(c, devices, p).failed.Some? ==> Blocked(c, devices, p)
    ensures BatchAll(c, devices, p).failed.None? ==> BatchReaches(c, devices, p, n)
  {
    n := 0;
    if devices == [] {
      assert devices[..0] == [];
    } else {
      var t := devices[..|devices| - 1];
      var d := devices[|devices| - 1];
      DistinctPrefix(devices);
      n := BatchHandlesPrefix(c, t, p);
      var b := BatchAll(c, t, p);
      assert forall x :: x in devices <==> x in t || x == d;
      if b.failed.None? {
        if b.stop {
          assert devices[..n] == t[..n];
        } else {
          BatchStep(c, t, d, p);
          assert t[..|t|] == t && devices[..|devices|] == devices;
          n := |devices|;
        }
      }
    }
  }

  lemma BatchStep(c: Cover, t: seq<Device>, d: Device, p: Policy)
    requires p.ignoreMissingSessions && forall x :: x in t ==> x.key != d.key
    requires BatchReaches(c, t, p, |t|) && !BatchAll(c, t, p).stop
    ensures var b := BatchDevice(BatchAll(c, t, p), c.shared, d, p);
            && (b.failed.Some? ==> Blocked(c, t + [d], p))
            && (b.failed.None? ==>
                && !Blocked(c, t + [d], p)
                && NoDuplicates(b.picked) && Elements(b.picked) == Recipients(c, t + [d])
                && b.ignored == c.ignored + SkippedKeys(t + [d]) + Unreachable(c, t + [d])
                && |b.picked| <= MAX_TO_DEVICE_MESSAGES && (b.stop <==> |b.picked| == MAX_TO_DEVICE_MESSAGES))
  {
    var b := BatchAll(c, t, p);
    assert t[..|t|] == t;
    assert d in t + [d];
    OneMoreDevice(c, t, d);
    AppendDistinct(b.picked, d.key);
  }

  datatype RoundResult = RoundResult(cover: Cover, sent: set<DeviceKey>, failed: Option<Failure>, markedShared: bool)

  /** One batch, sent and acknowledged; a failing batch keeps what it had ignored so far. */
  function Round(c: Cover, devices: seq<Device>, p: Policy): RoundResult {
    var b := BatchAll(c, devices, p);
    if b.failed.Some? then RoundResult(c.(ignored := b.ignored), {}, b.failed, false)
    else
      var after := Cover(c.shared + Elements(b.picked), b.ignored);
      RoundResult(after, Elements(b.picked), None, Open(after, devices) == {})
  }

  /** A successful round grows the cover by the batch and by devices that get no key. */
  ghost predicate RoundGrows(c: Cover, devices: seq<Device>, r: RoundResult) {
    && r.sent <= Recipients(c, devices)
    && |r.sent| <= MAX_TO_DEVICE_MESSAGES
    && r.cover.shared == c.shared + r.sent
    && c.ignored <= r.cover.ignored <= c.ignored + SkippedKeys(devices) + Unreachable(c, devices)
    && Recipients(r.cover, devices) == Recipients(c, devices) - r.sent
    && Open(r.cover, devices) <= Open(c, devices) - r.sent
  }

  lemma RecipientsAreOpen(c: Cover, devices: seq<Device>)
    ensures Recipients(c, devices) <= Open(c, devices)
  {
  }

  lemma PrefixRecipients(c: Cover, devices: seq<Device>, n: nat)
    requires n <= |devices|
    ensures Recipients(c, devices[..n]) <= Recipients(c, devices)
    ensures SkippedKeys(devices[..n]) <= SkippedKeys(devices)
    ensures Unreachable(c, devices[..n]) <= Unreachable(c, devices)
  {
    assert forall d :: d in devices[..n] ==> d in devices;
  }

  /** Devices are told apart by their keys. */
  lemma SameKey(devices: seq<Device>, d: Device, e: Device)
    requires Distinct(devices) && d in devices && e in devices && d.key == e.key
    ensures d == e
  {
  }

  lemma SuccessfulRound(c: Cover, devices: seq<Device>, p: Policy)
    requires Distinct(devices) && p.ignoreMissingSessions
    requires Round(c, devices, p).failed.None?
    ensures RoundGrows(c, devices, Round(c, devices, p))
  {
    var r := Round(c, devices, p);
    var n := BatchHandlesPrefix(c, devices, p);
    PrefixRecipients(c, devices, n);
    DistinctSize(BatchAll(c, devices, p).picked);
    forall d | d in devices ensures Eligible(r.cover, d) <==> Eligible(c, d) && d.key !in r.sent {
      EligibleAfter(c, devices, n, d);
    }
    assert Recipients(r.cover, devices) == Recipients(c, devices) - r.sent;
  }

  lemma EligibleAfter(c: Cover, devices: seq<Device>, n: nat, d: Device)
    requires Distinct(devices) && d in devices && n <= |devices|
    ensures var t := devices[..n];
            var after := Cover(c.shared + Recipients(c, t), c.ignored + SkippedKeys(t) + Unreachable(c, t));
            Eligible(after, d) <==> Eligible(c, d) && d.key !in Recipients(c, t)
  {
    var t := devices[..n];
    assert forall e :: e in t ==> e in devices;
    forall e | e in t && e.key == d.key ensures e == d {
      SameKey(devices, d, e);
    }
  }

  /** A round fails only when some eligible device is neither trusted nor ignored. */
  lemma FailedRoundIsBlocked(c: Cover, devices: seq<Device>, p: Policy)
    requires Distinct(devices) && p.ignoreMissingSessions && Round(c, devices, p).failed.Some?
    ensures Blocked(c, devices, p)
  {
    var _ := BatchHandlesPrefix(c, devices, p);
  }

  /** A batch that is not full has handled every device. */
  lemma ShortBatchCoversAll(c: Cover, devices: seq<Device>, p: Policy, n: nat)
    requires BatchReaches(c, devices, p, n) && !BatchAll(c, devices, p).stop
    ensures Round(c, devices, p).markedShared
  {
    assert devices[..|devices|] == devices;
    var after := Round(c, devices, p).cover;
    forall d | d in devices ensures Handled(after, d.key) {
      assert Skipped(d) ==> d.key in SkippedKeys(devices);
      assert !Skipped(d) && !Handled(c, d.key) ==> d.key in Recipients(c, devices) || d.key in Unreachable(c, devices);
    }
  }

  /** Each successful round marks the session shared or settles at least 20 more devices. */
  lemma RoundProgress(c: Cover, devices: seq<Device>, p: Policy)
    requires Distinct(devices) && p.ignoreMissingSessions
    requires var r := Round(c, devices, p); r.failed.None? && !r.markedShared
    ensures |Open(Round(c, devices, p).cover, devices)| + MAX_TO_DEVICE_MESSAGES <= |Open(c, devices)|
  {
    var r := Round(c, devices, p);
    var n := BatchHandlesPrefix(c, devices, p);
    if !BatchAll(c, devices, p).stop {
      ShortBatchCoversAll(c, devices, p, n);
    }
    DistinctSize(BatchAll(c, devices, p).picked);
    assert |r.sent| == MAX_TO_DEVICE_MESSAGES;
    SuccessfulRound(c, devices, p);
    RecipientsAreOpen(c, devices);
    SubsetSize(Open(r.cover, devices), Open(c, devices) - r.sent);
  }

  lemma {:induction false} SubsetSize(a: set<DeviceKey>, b: set<DeviceKey>)
    requires a <= b
    ensures |a| <= |b|
  {
    if a != {} {
      var x :| x in a;
      SubsetSize(a - {x}, b - {x});
    }
  }

  /** Rounds repeated until the session is marked shared or a batch fails. */
  function Rounds(c: Cover, devices: seq<Device>, p: Policy): (r: (RoundResult, nat))
    requires Distinct(devices) && p.ignoreMissingSessions
    ensures r.0.failed.Some? || r.0.markedShared
    ensures r.1 <= |Open(c, devices)| / MAX_TO_DEVICE_MESSAGES + 1
    decreases |Open(c, devices)|
  {
    var first := Round(c, devices, p);
    if first.failed.Some? || first.markedShared then (first, 1)
    else
      RoundProgress(c, devices, p);
      var (last, count) := Rounds(first.cover, devices, p);
      (last, count + 1)
  }

  /** Repeated rounds succeed exactly when no device blocks, and then the key went to all eligible devices and no others. */
  lemma {:induction false} RoundsReachRecipients(c: Cover, devices: seq<Device>, p: Policy)
    requires Distinct(devices) && p.ignoreMissingSessions
    ensures var last := Rounds(c, devices, p).0;
            && (last.failed.Some? <==> Blocked(c, devices, p))
            && (last.failed.None? ==> last.cover.shared == c.shared + Recipients(c, devices))
    decreases |Open(c, devices)|
  {
    var first := Round(c, devices, p);
    if first.failed.Some? {
      FailedRoundIsBlocked(c, devices, p);
    } else {
      SuccessfulRound(c, devices, p);
      BlockedAfter(c, devices, p);
      if first.markedShared {
        RecipientsAreOpen(first.cover, devices);
      } else {
        RoundProgress(c, devices, p);
        RoundsReachRecipients(first.cover, devices, p);
      }
    }
  }

  /** A successful round cannot step over a blocking device, and a covered session has none. */
  lemma BlockedAfter(c: Cover, devices: seq<Device>, p: Policy)
    requires Distinct(devices) && p.ignoreMissingSessions && Round(c, devices, p).failed.None?
    ensures Blocked(Round(c, devices, p).cover, devices, p) <==> Blocked(c, devices, p)
    ensures Round(c, devices, p).markedShared ==> !Blocked(Round(c, devices, p).cover, devices, p)
  {
    var n := BatchHandlesPrefix(c, devices, p);
    var r := Round(c, devices, p);
    var t := devices[..n];
    forall d | d in devices && !Trusted(d, p) ensures Eligible(r.cover, d) <==> Eligible(c, d) {
      EligibleAfter(c, devices, n, d);
      forall e | e in t && e.key == d.key ensures e == d {
        SameKey(devices, d, e);
      }
    }
    assert forall d :: d in devices && Eligible(r.cover, d) ==> d.key in Open(r.cover, devices);
  }

  /** The two sharers agree: they fail on the same inputs and otherwise reach the same devices. */
  lemma SharersAgree(c: Cover, devices: seq<Device>, p: Policy)
    requires Distinct(devices) && p.ignoreMissingSessions
    ensures var once := ScanAll(c, devices, p);
            var rounds := Rounds(c, devices, p).0;
            && (once.failed.Some? <==> rounds.failed.Some?)
            && (once.failed.None? ==> rounds.cover.shared == c.shared + Elements(once.picked))
  {
    ScanPicksRecipients(c, devices, p);
    RoundsReachRecipients(c, devices, p);
  }

  // ----- The sharers as the machine runs them -----

  /** The devices of the users in the order both sharers visit them. */
  function Visited(users: seq<string>, store: map<string, seq<Device>>): seq<Device> {
    if users == [] then []
    else
      var u := users[|users| - 1];
      Visited(users[..|users| - 1], store) + DevicesOf(store, u)
  }

  function DevicesOf(store: map<string, seq<Device>>, user: string): seq<Device> {
    if user in store then store[user] else []
  }

  /** User by user, in the order given. */
  lemma {:induction false} VisitedInOrder(a: seq<string>, b: seq<string>, store: map<string, seq<Device>>)
    ensures Visited(a + b, store) == Visited(a, store) + Visited(b, store)
  {
    if b == [] {
      assert a + b == a;
    } else {
      var init, last := b[..|b| - 1], DevicesOf(store, b[|b| - 1]);
      assert (a + b)[..|a + b| - 1] == a + init;
      VisitedInOrder(a, init, store);
      assert Visited(a, store) + Visited(init, store) + last == Visited(a, store) + (Visited(init, store) + last);
    }
  }

  /** Each user's devices in the order of the store. */
  lemma VisitedOne(user: string, store: map<string, seq<Device>>)
    ensures Visited([user], store) == if user in store then store[user] else []
  {
    assert [user][..0] == [];
    assert Visited([], store) + DevicesOf(store, user) == DevicesOf(store, user);
  }

  lemma {:induction false} VisitedBelong(users: seq<string>, store: map<string, seq<Device>>, d: Device)
    requires forall u, x :: u in store && x in store[u] ==> x.key.userId == u
    ensures d in Visited(users, store) <==> d.key.userId in users && d.key.userId in store && d in store[d.key.userId]
  {
    if users != [] {
      assert users == users[..|users| - 1] + [users[|users| - 1]];
      VisitedBelong(users[..|users| - 1], store, d);
    }
  }

  /** A store that keeps each device once, under its own user, makes the sharers visit each device once. */
  lemma {:induction false} VisitedDistinct(users: seq<string>, store: map<string, seq<Device>>)
    requires NoDuplicates(users)
    requires forall u :: u in store ==> Distinct(store[u]) && forall x :: x in store[u] ==> x.key.userId == u
    ensures Distinct(Visited(users, store))
  {
    if users != [] {
      var before, u := users[..|users| - 1], users[|users| - 1];
      assert users == before + [u];
      VisitedDistinct(before, store);
      DistinctParts(before, [u]);
      assert u in [u];
      var a, b := Visited(before, store), DevicesOf(store, u);
      forall x, y | x in a && y in b ensures x.key != y.key {
        VisitedBelong(before, store, x);
      }
      assert forall i :: 0 <= i < |a| ==> a[i] in a;
      assert forall i :: 0 <= i < |b| ==> b[i] in b;
    }
  }

  lemma {:induction false} ScanExtends(c: Cover, a: seq<Device>, b: seq<Device>, p: Policy)
    requires ScanAll(c, a, p).failed.Some?
    ensures ScanAll(c, a + b, p) == ScanAll(c, a, p)
  {
    if b == [] {
      assert a + b == a;
    } else {
      assert (a + b)[..|a + b| - 1] == a + b[..|b| - 1];
      ScanExtends(c, a, b[..|b| - 1], p);
    }
  }

  lemma {:induction false} BatchExtends(c: Cover, a: seq<Device>, b: seq<Device>, p: Policy)
    requires BatchAll(c, a, p).failed.Some? || BatchAll(c, a, p).stop
    ensures BatchAll(c, a + b, p) == BatchAll(c, a, p)
  {
    if b == [] {
      assert a + b == a;
    } else {
      assert (a + b)[..|a + b| - 1] == a + b[..|b| - 1];
      BatchExtends(c, a, b[..|b| - 1], p);
    }
  }

  /** The visiting order splits at any device. */
  lemma SplitMiddle(a: seq<Device>, b: seq<Device>, c: seq<Device>, k: nat)
    requires k <= |b|
    ensures a + (b + c) == a + b[..k] + (b[k..] + c)
  {
  }

  lemma VisitedSplit(users: seq<string>, store: map<string, seq<Device>>, i: nat, k: nat) returns (rest: seq<Device>)
    requires i < |users| && k <= |DevicesOf(store, users[i])|
    ensures Visited(users, store) == Visited(users[..i], store) + DevicesOf(store, users[i])[..k] + rest
  {
    var ds, after := DevicesOf(store, users[i]), Visited(users[i + 1..], store);
    assert users == users[..i] + users[i..] && users[i..] == [users[i]] + users[i + 1..];
    VisitedInOrder(users[..i], users[i..], store);
    VisitedInOrder([users[i]], users[i + 1..], store);
    VisitedOne(users[i], store);
    rest := ds[k..] + after;
    SplitMiddle(Visited(users[..i], store), ds, after, k);
  }

  /** The devices of the first `i` users and the first `k` of the next one. */
  function VisitedUpTo(users: seq<string>, store: map<string, seq<Device>>, i: nat, k: nat): seq<Device>
    requires i < |users| && k <= |DevicesOf(store, users[i])|
  {
    Visited(users[..i], store) + DevicesOf(store, users[i])[..k]
  }

  lemma VisitNext(users: seq<string>, store: map<string, seq<Device>>, i: nat, k: nat)
    requires i < |users| && k < |DevicesOf(store, users[i])|
    ensures VisitedUpTo(users, store, i, k + 1) == VisitedUpTo(users, store, i, k) + [DevicesOf(store, users[i])[k]]
  {
    var ds := DevicesOf(store, users[i]);
    assert ds[..k + 1] == ds[..k] + [ds[k]];
  }

  lemma VisitUser(users: seq<string>, store: map<string, seq<Device>>, i: nat)
    requires i < |users|
    ensures VisitedUpTo(users, store, i, 0) == Visited(users[..i], store)
    ensures VisitedUpTo(users, store, i, |DevicesOf(store, users[i])|) == Visited(users[..i + 1], store)
  {
    var ds := DevicesOf(store, users[i]);
    assert ds[..|ds|] == ds && users[..i + 1][..i] == users[..i];
  }

  lemma ScanNext(c: Cover, users: seq<string>, store: map<string, seq<Device>>, i: nat, k: nat, p: Policy)
    requires i < |users| && k < |DevicesOf(store, users[i])|
    ensures var s := ScanDevice(ScanAll(c, VisitedUpTo(users, store, i, k), p), c.shared, DevicesOf(store, users[i])[k], p);
            && ScanAll(c, VisitedUpTo(users, store, i, k + 1), p) == s
            && (s.failed.Some? ==> ScanAll(c, Visited(users, store), p) == s)
  {
    var before, d := VisitedUpTo(users, store, i, k), DevicesOf(store, users[i])[k];
    VisitNext(users, store, i, k);
    assert (before + [d])[..|before|] == before;
    if ScanAll(c, before + [d], p).failed.Some? {
      var rest := VisitedSplit(users, store, i, k + 1);
      ScanExtends(c, before + [d], rest, p);
    }
  }

  lemma BatchNext(c: Cover, users: seq<string>, store: map<string, seq<Device>>, i: nat, k: nat, p: Policy)
    requires i < |users| && k < |DevicesOf(store, users[i])|
    ensures var b := BatchDevice(BatchAll(c, VisitedUpTo(users, store, i, k), p), c.shared, DevicesOf(store, users[i])[k], p);
            && BatchAll(c, VisitedUpTo(users, store, i, k + 1), p) == b
            && (b.failed.Some? || b.stop ==> BatchAll(c, Visited(users, store), p) == b)
  {
    var before, d := VisitedUpTo(users, store, i, k), DevicesOf(store, users[i])[k];
    VisitNext(users, store, i, k);
    assert (before + [d])[..|before|] == before;
    var b := BatchAll(c, before + [d], p);
    if b.failed.Some? || b.stop {
      var rest := VisitedSplit(users, store, i, k + 1);
      BatchExtends(c, before + [d], rest, p);
    }
  }

  class OutboundGroupSession {
    var usersSharedWith: set<DeviceKey>
    var usersIgnored: set<DeviceKey>
    var shared: bool

    ghost function View(): Cover
      reads this
    {
      Cover(usersSharedWith, usersIgnored)
    }

    constructor ()
      ensures View() == EMPTY_COVER && !shared
    {
      usersSharedWith, usersIgnored, shared := {}, {}, false;
    }

    /** The loops of `share_group_session_parallel`: all requests of the generator, or the exception it raises. */
    method RequestAll(users: seq<string>, store: map<string, seq<Device>>, p: Policy)
      returns (requests: Result<seq<seq<DeviceKey>>, Failure>)
      modifies this`usersIgnored
      ensures var s := ScanAll(old(View()), Visited(users, store), p);
              && View() == old(View()).(ignored := s.ignored)
              && requests == if s.failed.Some? then Err(s.failed.value) else Ok(Chunks(s.picked, MAX_TO_DEVICE_MESSAGES))
    {
      ghost var c := View();
      var userMap: seq<DeviceKey> := [];
      for i := 0 to |users|
        invariant usersSharedWith == c.shared
        invariant ScanAll(c, Visited(users[..i], store), p) == Scan(usersIgnored, userMap, None)
      {
        var devices := DevicesOf(store, users[i]);
        VisitUser(users, store, i);
        for k := 0 to |devices|
          invariant usersSharedWith == c.shared
          invariant ScanAll(c, VisitedUpTo(users, store, i, k), p) == Scan(usersIgnored, userMap, None)
        {
          var device := devices[k];
          ScanNext(c, users, store, i, k, p);
          if device.own || device.blacklisted {
            usersIgnored := usersIgnored + {device.key};
          } else if device.key in usersSharedWith || device.key in usersIgnored || !device.hasSession {
          } else if !device.verified && !device.trustIgnored && !p.ignoreUnverifiedDevices {
            return Err(UnverifiedDevice(device.key));
          } else {
            userMap := userMap + [device.key];
          }
        }
      }
      assert users[..|users|] == users;
      var sent := ChunkUp(userMap, MAX_TO_DEVICE_MESSAGES);
      requests := Ok(sent);
    }

    /** The loops of `share_group_session`: one request of at most 20 devices, or the exception it raises. */
    method RequestBatch(users: seq<string>, store: map<string, seq<Device>>, p: Policy)
      returns (sharingWith: Result<seq<DeviceKey>, Failure>)
      modifies this`usersIgnored
      ensures var b := BatchAll(old(View()), Visited(users, store), p);
              && View() == old(View()).(ignored := b.ignored)
              && sharingWith == if b.failed.Some? then Err(b.failed.value) else Ok(b.picked)
    {
      ghost var c := View();
      var userMap: seq<DeviceKey> := [];
      for i := 0 to |users|
        invariant usersSharedWith == c.shared
        invariant BatchAll(c, Visited(users[..i], store), p) == Batch(usersIgnored, userMap, None, false)
      {
        var devices := DevicesOf(store, users[i]);
        VisitUser(users, store, i);
        for k := 0 to |devices|
          invariant usersSharedWith == c.shared
          invariant BatchAll(c, VisitedUpTo(users, store, i, k), p) == Batch(usersIgnored, userMap, None, false)
        {
          var device := devices[k];
          BatchNext(c, users, store, i, k, p);
          if device.own || device.blacklisted {
            usersIgnored := usersIgnored + {device.key};
          } else if device.key in usersSharedWith || device.key in usersIgnored {
          } else if !device.hasSession {
            if !p.ignoreMissingSessions {
              return Err(MissingSession(device.key));
            }
            usersIgnored := usersIgnored + {device.key};
          } else if !device.verified && !device.trustIgnored && !p.ignoreUnverifiedDevices {
            return Err(UnverifiedDevice(device.key));
          } else {
            userMap := userMap + [device.key];
            if |userMap| >= MAX_TO_DEVICE_MESSAGES {
              return Ok(userMap);
            }
          }
        }
      }
      assert users[..|users|] == users;
      sharingWith := Ok(userMap);
    }
  }

  /** The machine's outbound sessions. */
  class OutboundSessionMachine {
    var sessions: map<string, OutboundGroupSession>

    constructor ()
      ensures sessions == map[]
    {
      sessions := map[];
    }

    /** `create_outbound_group_session`. */
    method CreateSession(room: string) returns (session: OutboundGroupSession)
      modifies this
      ensures sessions == old(sessions)[room := session]
      ensures fresh(session) && session.View() == EMPTY_COVER && !session.shared
    {
      session := new OutboundGroupSession();
      sessions := sessions[room := session];
    }

    /** `share_group_session_parallel`: a missing or already shared session is replaced by a new one first. */
    method ShareParallel(room: string, users: seq<string>, store: map<string, seq<Device>>, p: Policy)
      returns (requests: Result<seq<seq<DeviceKey>>, Failure>)
      modifies this, if room in sessions then {sessions[room]} else {}
      ensures room in sessions && sessions == old(sessions)[room := sessions[room]] && !sessions[room].shared
      ensures var reused := room in old(sessions) && !old(sessions[room].shared);
              && (if reused then sessions[room] == old(sessions)[room] else fresh(sessions[room]))
              && (room in old(sessions) && !reused ==> unchanged(old(sessions)[room]))
      ensures var start := if room in old(sessions) && !old(sessions[room].shared) then old(sessions[room].View()) else EMPTY_COVER;
              var s := ScanAll(start, Visited(users, store), p);
              && sessions[room].View() == start.(ignored := s.ignored)
              && requests == if s.failed.Some? then Err(s.failed.value) else Ok(Chunks(s.picked, MAX_TO_DEVICE_MESSAGES))
    {
      var session;
      if room !in sessions {
        session := CreateSession(room);
      } else {
        session := sessions[room];
      }
      if session.shared {
        session := CreateSession(room);
      }
      requests := session.RequestAll(users, store, p);
    }

    /** `share_group_session`: a missing session is created, a shared one is an error. */
    method ShareBatch(room: string, users: seq<string>, store: map<string, seq<Device>>, p: Policy)
      returns (sharingWith: Result<seq<DeviceKey>, Failure>)
      modifies this, if room in sessions then {sessions[room]} else {}
      ensures room in sessions && sessions == old(sessions)[room := sessions[room]]
      ensures if room in old(sessions) then sessions[room] == old(sessions)[room] else fresh(sessions[room])
      ensures sessions[room].shared == (room in old(sessions) && old(sessions[room].shared))
      ensures sessions[room].shared ==> sharingWith == Err(AlreadyShared) && sessions[room].View() == old(sessions[room].View())
      ensures !sessions[room].shared ==>
              var start := if room in old(sessions) then old(sessions[room].View()) else EMPTY_COVER;
              var b := BatchAll(start, Visited(users, store), p);
              && sessions[room].View() == start.(ignored := b.ignored)
              && sharingWith == if b.failed.Some? then Err(b.failed.value) else Ok(b.picked)
    {
      var session;
      if room !in sessions {
        session := CreateSession(room);
      } else {
        session := sessions[room];
      }
      if session.shared {
        return Err(AlreadyShared);
      }
      sharingWith := session.RequestBatch(users, store, p);
    }
  }

  method ChunkUp(s: seq<DeviceKey>, n: nat) returns (chunks: seq<seq<DeviceKey>>)
    requires n > 0
    ensures chunks == Chunks(s, n)
  {
    chunks := [];
    var i := 0;
    assert s[0..] == s;
    while i < |s|
      invariant 0 <= i
      invariant Chunks(s, n) == chunks + if i < |s| then Chunks(s[i..], n) else []
    {
      var end := if i + n < |s| then i + n else |s|;
      ghost var tail := s[i..];
      assert |tail| <= n ==> tail == s[i..end];
      assert |tail| > n ==> tail[..n] == s[i..end] && tail[n..] == s[i + n..];
      ghost var later := if i + n < |s| then Chunks(s[i + n..], n) else [];
      assert Chunks(tail, n) == [s[i..end]] + later;
      assert chunks + ([s[i..end]] + later) == chunks + [s[i..end]] + later;
      chunks := chunks + [s[i..end]];
      i := i + n;
    }
  }
}
