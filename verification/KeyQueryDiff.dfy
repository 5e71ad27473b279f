/**
 * What a key query does to the device store (src/nio/crypto/olm_machine.py, src/nio/crypto/device.py):
 * new devices, pinned and rotated identities, updates, deletions, and the record of what changed.
 */
module KeyQueryDiff {
  import opened Wrappers
  import opened Devices

  type User = string
  type DeviceId = string

  datatype Trust = Unset | Verified | Blacklisted | Ignored

  datatype Device = Device(
    userId: User,
    deviceId: DeviceId,
    ed25519: string,
    curve25519: string,
    displayName: string,
    deleted: bool,
    trust: Trust)

  /** One device of a response; `selfSigned` is the outcome of `verify_json` under the payload's own signing key. */
  datatype Payload = Payload(
    userId: User,
    deviceId: DeviceId,
    ed25519: Option<string>,
    curve25519: Option<string>,
    displayName: string,
    selfSigned: bool)

  type UserDevices = map<DeviceId, Device>
  type Store = map<User, UserDevices>
  type Response = map<User, map<DeviceId, Payload>>

  /** Our own device, and whether a changed identity key replaces the stored one. */
  datatype Config = Config(ownUser: User, ownDevice: DeviceId, replaceRotatedKeys: bool)

  // ----- Specification, device by device -----

  /** A payload that passes every check for the place it is listed at. */
  predicate Acceptable(c: Config, u: User, d: DeviceId, p: Payload) {
    && !(u == c.ownUser && d == c.ownDevice)
    && p.userId == u && p.deviceId == d
    && p.ed25519.Some? && p.curve25519.Some? && p.selfSigned
  }

  function NewDevice(p: Payload): Device
    requires p.ed25519.Some? && p.curve25519.Some?
  {
    Device(p.userId, p.deviceId, p.ed25519.value, p.curve25519.value, p.displayName, false, Unset)
  }

  /** An acceptable payload for a stored device. */
  function Refreshed(c: Config, stored: Device, p: Payload): Device
    requires p.ed25519.Some? && p.curve25519.Some?
  {
    if stored.ed25519 != p.ed25519.value then
      if !c.replaceRotatedKeys then stored
      else
        stored.(ed25519 := p.ed25519.value, curve25519 := p.curve25519.value, displayName := p.displayName,
        deleted := false, trust := if stored.trust.Blacklisted? then Blacklisted else Unset)
    else if stored.curve25519 != p.curve25519.value then stored.(curve25519 := p.curve25519.value)
    else stored.(displayName := p.displayName)
  }

  function Listed(c: Config, u: User, mine: UserDevices, d: DeviceId, p: Payload): Option<Device> {
    var known := if d in mine then Some(mine[d]) else None;
    if !Acceptable(c, u, d, p) then known
    else if known.Some? then Some(Refreshed(c, known.value, p))
    else Some(NewDevice(p))
  }

  /** The user's devices once the payloads in `done` were handled. */
  function Merged(c: Config, u: User, mine: UserDevices, payloads: map<DeviceId, Payload>, done: set<DeviceId>): UserDevices
    requires done <= payloads.Keys
  {
    map d | d in mine.Keys + done && (d in mine || Acceptable(c, u, d, payloads[d])) ::
      if d in done then
        if d in mine then (if Acceptable(c, u, d, payloads[d]) then Refreshed(c, mine[d], payloads[d]) else mine[d])
        else NewDevice(payloads[d])
      else mine[d]
  }

  /** Stored devices that the response does not list are marked as deleted. */
  function Swept(mine: UserDevices, listed: set<DeviceId>): UserDevices {
    map d | d in mine :: if d in listed then mine[d] else mine[d].(deleted := true)
  }

  function AfterUser(c: Config, u: User, mine: UserDevices, payloads: map<DeviceId, Payload>): UserDevices {
    Swept(Merged(c, u, mine, payloads, payloads.Keys), payloads.Keys)
  }

  /** The devices whose record is new or different. */
  function Diff(before: UserDevices, after: UserDevices): UserDevices {
    map d | d in after && (d !in before || before[d] != after[d]) :: after[d]
  }

  /** Reading the defaultdict of the store. */
  function DevicesOf(store: Store, u: User): UserDevices {
    if u in store then store[u] else map[]
  }

  /** Every answered user's devices after the response. */
  function Afters(c: Config, store: Store, response: Response): Store {
    map u | u in response :: AfterUser(c, u, DevicesOf(store, u), response[u])
  }

  /** Every answered user's difference. */
  function Diffs(c: Config, store: Store, response: Response): Store {
    map u | u in response :: Diff(DevicesOf(store, u), AfterUser(c, u, DevicesOf(store, u), response[u]))
  }

  function Overlay(store: Store, afters: Store, users: set<User>): Store
    requires users <= afters.Keys
  {
    map u | u in store.Keys + users :: if u in users then afters[u] else store[u]
  }

  function NonEmpty(diffs: Store, users: set<User>): Store {
    map u | u in users && u in diffs && diffs[u] != map[] :: diffs[u]
  }

  function Queried(c: Config, store: Store, response: Response): Store {
    Overlay(store, Afters(c, store, response), response.Keys)
  }

  function ChangedBy(c: Config, store: Store, response: Response): Store {
    NonEmpty(Diffs(c, store, response), response.Keys)
  }

  // ----- The machine's own object -----

  class DeviceMachine {
    const config: Config
    var deviceStore: Store

    constructor (config: Config)
      ensures this.config == config && deviceStore == map[]
    {
      this.config := config;
      deviceStore := map[];
    }

    /** `_handle_key_query` on the device store; the result is `response.changed`. */
    method HandleKeyQuery(response: Response) returns (changed: Store)
      modifies this
      ensures deviceStore == Queried(config, old(deviceStore), response)
      ensures changed == ChangedBy(config, old(deviceStore), response)
    {
      changed := map[];
      var todo := response.Keys;
      ghost var store := deviceStore;
      ghost var afters, diffs := Afters(config, store, response), Diffs(config, store, response);
      NoUserYet(store, afters, diffs, todo);
      while todo != {}
        invariant todo <= response.Keys
        invariant deviceStore == Overlay(store, afters, response.Keys - todo)
        invariant changed == NonEmpty(diffs, response.Keys - todo)
        decreases |todo|
      {
        var u :| u in todo;
        NextUser(store, afters, diffs, response.Keys, todo, u);
        var mine := if u in deviceStore then deviceStore[u] else map[];
        var after, differs := QueryUser(u, mine, response[u]);
        deviceStore := deviceStore[u := after];
        if differs != map[] {
          changed := changed[u := differs];
        }
        todo := todo - {u};
      }
      assert response.Keys - {} == response.Keys;
    }

    /** One user of the response: the listed devices, then the stored ones it no longer lists. */
    method QueryUser(u: User, before: UserDevices, payloads: map<DeviceId, Payload>)
      returns (mine: UserDevices, changed: UserDevices)
      ensures mine == AfterUser(config, u, before, payloads) && changed == Diff(before, mine)
    {
      mine, changed := UpdateListed(u, before, payloads);
      mine, changed := MarkDeleted(before, mine, changed, payloads.Keys);
    }

    /** The inner loop over the devices a response lists for one user. */
    method UpdateListed(u: User, before: UserDevices, payloads: map<DeviceId, Payload>)
      returns (mine: UserDevices, changed: UserDevices)
      ensures mine == Merged(config, u, before, payloads, payloads.Keys) && changed == Diff(before, mine)
    {
      mine, changed := before, map[];
      var todo := payloads.Keys;
      NothingMerged(config, u, before, payloads);
      while todo != {}
        invariant todo <= payloads.Keys
        invariant mine == Merged(config, u, before, payloads, payloads.Keys - todo)
        invariant changed == Diff(before, mine)
        decreases |todo|
      {
        var d :| d in todo;
        ListedNext(config, u, before, payloads, todo, d);
        mine, changed := HandlePayload(u, d, payloads[d], mine, changed);
        todo := todo - {d};
      }
      assert payloads.Keys - {} == payloads.Keys;
    }

    /** One iteration of the inner loop, with its early exits. */
    method HandlePayload(u: User, d: DeviceId, payload: Payload, before: UserDevices, changes: UserDevices)
      returns (mine: UserDevices, changed: UserDevices)
      ensures (mine, changed) == Record(before, changes, d, Listed(config, u, before, d, payload))
    {
      mine, changed := before, changes;
      if u == config.ownUser && d == config.ownDevice {
        return;
      }
      if payload.userId != u || payload.deviceId != d {
        return;
      }
      if payload.ed25519.None? || payload.curve25519.None? {
        return;
      }
      if !payload.selfSigned {
        return;
      }
      var signingKey, curveKey := payload.ed25519.value, payload.curve25519.value;
      if d !in mine {
        mine := mine[d := Device(u, d, signingKey, curveKey, payload.displayName, false, Unset)];
      } else {
        var device := mine[d];
        if device.ed25519 != signingKey {
          if !config.replaceRotatedKeys {
            return;
          }
          device := device.(ed25519 := signingKey, curve25519 := curveKey, displayName := payload.displayName, deleted := false);
          if !device.trust.Blacklisted? {
            device := device.(trust := Unset);
          }
        } else if device.curve25519 == curveKey && device.displayName == payload.displayName {
          return;
        }
        if device.curve25519 != curveKey {
          device := device.(curve25519 := curveKey);
        } else if device.displayName != payload.displayName {
          device := device.(displayName := payload.displayName);
        }
        mine := mine[d := device];
      }
      changed := changed[d := mine[d]];
    }

    /** The loop over stored devices the response no longer lists. */
    method MarkDeleted(before: UserDevices, merged: UserDevices, differs: UserDevices, listed: set<DeviceId>)
      returns (mine: UserDevices, changed: UserDevices)
      requires differs == Diff(before, merged)
      requires forall d :: d in merged && d !in listed ==> d in before && before[d] == merged[d]
      ensures mine == Swept(merged, listed) && changed == Diff(before, mine)
    {
      mine, changed := merged, differs;
      var deletedDevices := set d | d in merged && !merged[d].deleted && d !in listed;
      assert mine == SweptExcept(merged, listed, deletedDevices);
      while deletedDevices != {}
        invariant deletedDevices <= set d | d in merged && !merged[d].deleted && d !in listed
        invariant mine == SweptExcept(merged, listed, deletedDevices)
        invariant changed == Diff(before, mine)
        decreases |deletedDevices|
      {
        var d :| d in deletedDevices;
        SweepNext(merged, listed, deletedDevices, d);
        mine := mine[d := mine[d].(deleted := true)];
        changed := changed[d := mine[d]];
        deletedDevices := deletedDevices - {d};
      }
      assert SweptExcept(merged, listed, {}) == Swept(merged, listed);
    }
  }

  function SweptExcept(mine: UserDevices, listed: set<DeviceId>, todo: set<DeviceId>): UserDevices {
    map d | d in mine :: if d in listed || d in todo then mine[d] else mine[d].(deleted := true)
  }

  lemma SweepNext(mine: UserDevices, listed: set<DeviceId>, todo: set<DeviceId>, d: DeviceId)
    requires d in todo && d in mine && d !in listed
    ensures SweptExcept(mine, listed, todo - {d}) == SweptExcept(mine, listed, todo)[d := mine[d].(deleted := true)]
    ensures SweptExcept(mine, listed, todo)[d] == mine[d]
  {
  }

  lemma NothingMerged(c: Config, u: User, mine: UserDevices, payloads: map<DeviceId, Payload>)
    ensures Merged(c, u, mine, payloads, payloads.Keys - payloads.Keys) == mine
    ensures Diff(mine, mine) == map[]
  {
  }

  lemma MergeNext(c: Config, u: User, mine: UserDevices, payloads: map<DeviceId, Payload>, done: set<DeviceId>, d: DeviceId)
    requires done <= payloads.Keys && d in payloads && d !in done
    ensures var merged := Merged(c, u, mine, payloads, done);
            && (d in merged <==> d in mine) && (d in mine ==> merged[d] == mine[d])
            && Merged(c, u, mine, payloads, done + {d}) ==
               (match Listed(c, u, mine, d, payloads[d]) case None => merged case Some(x) => merged[d := x])
  {
  }

  lemma NoUserYet(store: Store, afters: Store, diffs: Store, users: set<User>)
    ensures Overlay(store, afters, users - users) == store && NonEmpty(diffs, users - users) == map[]
  {
  }

  lemma NextUser(store: Store, afters: Store, diffs: Store, users: set<User>, todo: set<User>, u: User)
    requires users <= afters.Keys && users <= diffs.Keys && todo <= users && u in todo
    ensures DevicesOf(Overlay(store, afters, users - todo), u) == DevicesOf(store, u)
    ensures Overlay(store, afters, users - (todo - {u})) == Overlay(store, afters, users - todo)[u := afters[u]]
    ensures NonEmpty(diffs, users - (todo - {u})) ==
            if diffs[u] != map[] then NonEmpty(diffs, users - todo)[u := diffs[u]] else NonEmpty(diffs, users - todo)
  {
  }

  /** The tables after one payload: an unchanged record is not noted as changed. */
  function Record(mine: UserDevices, changed: UserDevices, d: DeviceId, device: Option<Device>): (UserDevices, UserDevices) {
    match device
    case None => (mine, changed)
    case Some(x) => if d in mine && mine[d] == x then (mine, changed) else (mine[d := x], changed[d := x])
  }

  lemma DiffNext(before: UserDevices, mine: UserDevices, d: DeviceId, device: Option<Device>)
    requires d in mine <==> d in before
    requires d in mine ==> mine[d] == before[d]
    ensures Record(mine, Diff(before, mine), d, device).1 == Diff(before, Record(mine, Diff(before, mine), d, device).0)
    ensures device.Some? ==> Record(mine, Diff(before, mine), d, device).0 == mine[d := device.value]
  {
  }

  /** One turn of the inner loop keeps the table and its difference in step. */
  lemma ListedNext(c: Config, u: User, before: UserDevices, payloads: map<DeviceId, Payload>, todo: set<DeviceId>, d: DeviceId)
    requires todo <= payloads.Keys && d in todo
    ensures var mine := Merged(c, u, before, payloads, payloads.Keys - todo);
            var next := Merged(c, u, before, payloads, payloads.Keys - (todo - {d}));
            Record(mine, Diff(before, mine), d, Listed(c, u, mine, d, payloads[d])) == (next, Diff(before, next))
  {
    var mine := Merged(c, u, before, payloads, payloads.Keys - todo);
    MergeNext(c, u, before, payloads, payloads.Keys - todo, d);
    assert payloads.Keys - (todo - {d}) == payloads.Keys - todo + {d};
    var x := Listed(c, u, before, d, payloads[d]);
    assert Listed(c, u, mine, d, payloads[d]) == x;
    DiffNext(before, mine, d, x);
  }

  // ----- What one key query does -----

  function Lookup(store: Store, k: DeviceKey): Option<Device> {
    if k.userId in store && k.deviceId in store[k.userId] then Some(store[k.userId][k.deviceId]) else None
  }

  /** The new record of one device, read off the response directly. */
  lemma QueriedDevice(c: Config, store: Store, response: Response, k: DeviceKey)
    ensures Lookup(Queried(c, store, response), k) ==
            var before := Lookup(store, k);
            if k.userId !in response then before
            else if k.deviceId in response[k.userId] then
              var p := response[k.userId][k.deviceId];
              if !Acceptable(c, k.userId, k.deviceId, p) then before
              else if before.None? then Some(NewDevice(p))
              else Some(Refreshed(c, before.value, p))
            else if before.None? then None
            else Some(before.value.(deleted := true))
  {
    if k.userId in response {
      var mine, payloads := DevicesOf(store, k.userId), response[k.userId];
      var merged := Merged(c, k.userId, mine, payloads, payloads.Keys);
      assert k.deviceId in merged <==>
          k.deviceId in mine || (k.deviceId in payloads && Acceptable(c, k.userId, k.deviceId, payloads[k.deviceId]));
    }
  }

  /** The response lists the device, in its own place, complete and self-signed, and it is not ours. */
  predicate WellListed(c: Config, response: Response, k: DeviceKey) {
    && k.userId in response && k.deviceId in response[k.userId]
    && !(k.userId == c.ownUser && k.deviceId == c.ownDevice)
    && var p := response[k.userId][k.deviceId];
       p.userId == k.userId && p.deviceId == k.deviceId && p.ed25519.Some? && p.curve25519.Some? && p.selfSigned
  }

  /** A device seen for the first time is stored if and only if it is well listed, with the listed keys and name, active and without trust. */
  lemma FirstSeenDevice(c: Config, store: Store, response: Response, k: DeviceKey)
    requires Lookup(store, k).None?
    ensures Lookup(Queried(c, store, response), k).Some? <==> WellListed(c, response, k)
    ensures WellListed(c, response, k) ==>
              var d, p := Lookup(Queried(c, store, response), k).value, response[k.userId][k.deviceId];
              && d.userId == k.userId && d.deviceId == k.deviceId
              && d.ed25519 == p.ed25519.value && d.curve25519 == p.curve25519.value && d.displayName == p.displayName
              && !d.deleted && d.trust == Unset
  {
    QueriedDevice(c, store, response, k);
  }

  /** A stored device that is not well listed keeps its record, but is marked deleted when its user is answered without it. */
  lemma NotWellListed(c: Config, store: Store, response: Response, k: DeviceKey)
    requires Lookup(store, k).Some? && !WellListed(c, response, k)
    ensures Lookup(Queried(c, store, response), k).Some?
    ensures var before, after := Lookup(store, k).value, Lookup(Queried(c, store, response), k).value;
            && after.userId == before.userId && after.deviceId == before.deviceId
            && after.ed25519 == before.ed25519 && after.curve25519 == before.curve25519
            && after.displayName == before.displayName && after.trust == before.trust
            && (after.deleted <==> before.deleted || (k.userId in response && k.deviceId !in response[k.userId]))
  {
    QueriedDevice(c, store, response, k);
  }

  /**
   * A stored device that is well listed, field by field. With another identity key it is left alone or, where rotation is
   * allowed, wholly replaced, active again, and stripped of any trust but a blacklist. With the same identity key its other
   * key follows the response, or else its name does.
   */
  lemma WellListedDevice(c: Config, store: Store, response: Response, k: DeviceKey)
    requires Lookup(store, k).Some? && WellListed(c, response, k)
    ensures Lookup(Queried(c, store, response), k).Some?
    ensures var before, after, p := Lookup(store, k).value, Lookup(Queried(c, store, response), k).value, response[k.userId][k.deviceId];
            && after.userId == before.userId && after.deviceId == before.deviceId
            && (if p.ed25519.value != before.ed25519 then
                  if c.replaceRotatedKeys then
                    && after.ed25519 == p.ed25519.value && after.curve25519 == p.curve25519.value
                    && after.displayName == p.displayName && !after.deleted
                    && after.trust == if before.trust == Blacklisted then Blacklisted else Unset
                  else after == before
                else
                  && after.ed25519 == before.ed25519 && after.curve25519 == p.curve25519.value
                  && after.displayName == (if before.curve25519 == p.curve25519.value then p.displayName else before.displayName)
                  && after.deleted == before.deleted && after.trust == before.trust)
  {
    QueriedDevice(c, store, response, k);
  }

  /** Both tables of an answered user, looked up: only the user's own entry matters. */
  lemma AnsweredLookup(store: Store, afters: Store, diffs: Store, users: set<User>, k: DeviceKey)
    requires k.userId in users && users == afters.Keys == diffs.Keys
    ensures Lookup(Overlay(store, afters, users), k) ==
            if k.deviceId in afters[k.userId] then Some(afters[k.userId][k.deviceId]) else None
    ensures Lookup(NonEmpty(diffs, users), k) ==
            if k.deviceId in diffs[k.userId] then Some(diffs[k.userId][k.deviceId]) else None
  {
    assert k.deviceId in diffs[k.userId] ==> diffs[k.userId] != map[];
  }

  /** `changed` lists exactly the devices whose stored record is different from before, with the new record. */
  lemma ChangedExact(c: Config, store: Store, response: Response, k: DeviceKey)
    ensures var changed := ChangedBy(c, store, response);
            var after := Queried(c, store, response);
            && (Lookup(changed, k).Some? <==> Lookup(after, k) != Lookup(store, k))
            && (Lookup(changed, k).Some? ==> Lookup(changed, k) == Lookup(after, k))
  {
    if k.userId in response {
      var u, d := k.userId, k.deviceId;
      var afters, diffs := Afters(c, store, response), Diffs(c, store, response);
      AnsweredLookup(store, afters, diffs, response.Keys, k);
      assert diffs[u] == Diff(DevicesOf(store, u), afters[u]);
      NoDeviceVanishes(c, u, DevicesOf(store, u), response[u], d);
    }
  }

  lemma NoDeviceVanishes(c: Config, u: User, mine: UserDevices, payloads: map<DeviceId, Payload>, d: DeviceId)
    ensures d in mine ==> d in AfterUser(c, u, mine, payloads)
  {
  }

  ghost predicate KeysMatch(store: Store) {
    forall k :: Lookup(store, k).Some? ==> Lookup(store, k).value.userId == k.userId && Lookup(store, k).value.deviceId == k.deviceId
  }

  lemma QueryKeepsKeys(c: Config, store: Store, response: Response)
    requires KeysMatch(store)
    ensures KeysMatch(Queried(c, store, response))
  {
    forall k | Lookup(Queried(c, store, response), k).Some?
      ensures var d := Lookup(Queried(c, store, response), k).value; d.userId == k.userId && d.deviceId == k.deviceId
    {
      QueriedDevice(c, store, response, k);
    }
  }

  /** Our own device is never added, and no device is ever removed. */
  lemma OwnDeviceNeverAdded(c: Config, store: Store, response: Response, k: DeviceKey)
    ensures k == DeviceKey(c.ownUser, c.ownDevice) && Lookup(store, k).None? ==> Lookup(Queried(c, store, response), k).None?
    ensures Lookup(store, k).Some? ==> Lookup(Queried(c, store, response), k).Some?
  {
    QueriedDevice(c, store, response, k);
  }

  /** The active devices of an answered user are among those the response lists. */
  lemma ActiveDevicesAreListed(c: Config, store: Store, response: Response, k: DeviceKey)
    requires k.userId in response
    requires var d := Lookup(Queried(c, store, response), k); d.Some? && !d.value.deleted
    ensures k.deviceId in response[k.userId]
  {
    QueriedDevice(c, store, response, k);
  }

  /** A deleted device becomes active again exactly when a rotated identity replaces it; the same keys never revive it. */
  lemma RevivedIff(c: Config, store: Store, response: Response, k: DeviceKey)
    requires Lookup(store, k).Some? && Lookup(store, k).value.deleted
    ensures !Lookup(Queried(c, store, response), k).value.deleted <==>
            && c.replaceRotatedKeys && k.userId in response && k.deviceId in response[k.userId]
            && Acceptable(c, k.userId, k.deviceId, response[k.userId][k.deviceId])
            && response[k.userId][k.deviceId].ed25519.value != Lookup(store, k).value.ed25519
    ensures Lookup(Queried(c, store, response), k).Some?
  {
    QueriedDevice(c, store, response, k);
  }

  /** An accepted payload leaves a stored device fully up to date unless a rotation is refused, or key and name change together without one. */
  lemma UpToDateIff(c: Config, store: Store, response: Response, k: DeviceKey)
    requires Lookup(store, k).Some? && k.userId in response && k.deviceId in response[k.userId]
    requires Acceptable(c, k.userId, k.deviceId, response[k.userId][k.deviceId])
    ensures var p := response[k.userId][k.deviceId];
            var before, after := Lookup(store, k).value, Lookup(Queried(c, store, response), k).value;
            (after.ed25519 == p.ed25519.value && after.curve25519 == p.curve25519.value && after.displayName == p.displayName) <==>
              if before.ed25519 != p.ed25519.value then c.replaceRotatedKeys
              else before.curve25519 == p.curve25519.value || before.displayName == p.displayName
    ensures Lookup(Queried(c, store, response), k).Some?
  {
    QueriedDevice(c, store, response, k);
  }

  /** A store and a response with one device each. */
  function OneDevice(d: Device): Store {
    map[d.userId := map[d.deviceId := d]]
  }

  function OnePayload(p: Payload): Response {
    map[p.userId := map[p.deviceId := p]]
  }

  /** A deleted device that is listed again with the keys it had stays deleted, whatever the configuration. */
  lemma SameKeysStayDeleted(c: Config, d: Device)
    requires d.deleted && !(d.userId == c.ownUser && d.deviceId == c.ownDevice)
    ensures var p := Payload(d.userId, d.deviceId, Some(d.ed25519), Some(d.curve25519), d.displayName, true);
            && Acceptable(c, d.userId, d.deviceId, p)
            && Lookup(Queried(c, OneDevice(d), OnePayload(p)), DeviceKey(d.userId, d.deviceId)) == Some(d)
  {
    var p := Payload(d.userId, d.deviceId, Some(d.ed25519), Some(d.curve25519), d.displayName, true);
    QueriedDevice(c, OneDevice(d), OnePayload(p), DeviceKey(d.userId, d.deviceId));
  }

  /** When the Curve25519 key and the name change together, the name is left for the next query, which then takes it. */
  lemma KeyBeforeName(c: Config, d: Device, curve25519: string, name: string)
    requires !(d.userId == c.ownUser && d.deviceId == c.ownDevice)
    requires curve25519 != d.curve25519 && name != d.displayName
    ensures var response := OnePayload(Payload(d.userId, d.deviceId, Some(d.ed25519), Some(curve25519), name, true));
            var first := Queried(c, OneDevice(d), response);
            var k := DeviceKey(d.userId, d.deviceId);
            && Lookup(first, k) == Some(d.(curve25519 := curve25519))
            && Lookup(Queried(c, first, response), k) == Some(d.(curve25519 := curve25519, displayName := name))
  {
    var response := OnePayload(Payload(d.userId, d.deviceId, Some(d.ed25519), Some(curve25519), name, true));
    var k := DeviceKey(d.userId, d.deviceId);
    QueriedDevice(c, OneDevice(d), response, k);
    QueriedDevice(c, Queried(c, OneDevice(d), response), response, k);
  }

  // ----- Identities and trust over whole runs -----

  datatype TrustChange = Verify | Unverify | Blacklist | Unblacklist | Ignore | Unignore

  /** The trust operations of the store: an "un" operation only undoes its own state. */
  function ChangeTrust(t: Trust, change: TrustChange): Trust {
    match change
    case Verify => Verified
    case Blacklist => Blacklisted
    case Ignore => Ignored
    case Unverify => if t.Verified? then Unset else t
    case Unblacklist => if t.Blacklisted? then Unset else t
    case Unignore => if t.Ignored? then Unset else t
  }

  datatype Step = KeysQueried(response: Response) | TrustChanged(key: DeviceKey, change: TrustChange)

  /** The store, and the identity key each device had when the user last verified it. */
  datatype System = System(store: Store, verifiedUnder: map<DeviceKey, string>)

  function SetTrust(store: Store, k: DeviceKey, change: TrustChange): Store {
    match Lookup(store, k)
    case None => store
    case Some(d) => store[k.userId := store[k.userId][k.deviceId := d.(trust := ChangeTrust(d.trust, change))]]
  }

  function Next(c: Config, s: System, step: Step): System {
    match step
    case KeysQueried(response) => s.(store := Queried(c, s.store, response))
    case TrustChanged(k, change) =>
      var known := Lookup(s.store, k);
      System(SetTrust(s.store, k, change),
             if change.Verify? && known.Some? then s.verifiedUnder[k := known.value.ed25519] else s.verifiedUnder)
  }

  function RunFrom(c: Config, s: System, steps: seq<Step>): System {
    if steps == [] then s else Next(c, RunFrom(c, s, steps[..|steps| - 1]), steps[|steps| - 1])
  }

  /** A trust operation changes the trust of its own device only: it sets a state, or clears exactly the state it undoes. */
  lemma TrustChangeExact(c: Config, s: System, k: DeviceKey, change: TrustChange, other: DeviceKey)
    ensures var before, after := Lookup(s.store, other), Lookup(Next(c, s, TrustChanged(k, change)).store, other);
            && (after.Some? <==> before.Some?)
            && (after.Some? ==>
                && after.value == before.value.(trust := after.value.trust)
                && (other != k ==> after.value.trust == before.value.trust)
                && (other == k ==>
                    var t := before.value.trust;
                    after.value.trust ==
                      match change
                      case Verify => Verified
                      case Blacklist => Blacklisted
                      case Ignore => Ignored
                      case Unverify => (if t == Verified then Unset else t)
                      case Unblacklist => (if t == Blacklisted then Unset else t)
                      case Unignore => (if t == Ignored then Unset else t)))
  {
  }

  /** Every verified device still has the identity key it was verified under. */
  ghost predicate TrustIsEarned(s: System) {
    forall k :: Lookup(s.store, k).Some? && Lookup(s.store, k).value.trust.Verified? ==>
      k in s.verifiedUnder && s.verifiedUnder[k] == Lookup(s.store, k).value.ed25519
  }

  lemma StepKeepsTrust(c: Config, s: System, step: Step)
    requires TrustIsEarned(s)
    ensures TrustIsEarned(Next(c, s, step))
  {
    var t := Next(c, s, step);
    forall k | Lookup(t.store, k).Some? && Lookup(t.store, k).value.trust.Verified?
      ensures k in t.verifiedUnder && t.verifiedUnder[k] == Lookup(t.store, k).value.ed25519
    {
      if step.KeysQueried? {
        QueriedDevice(c, s.store, step.response, k);
      }
    }
  }

  /** Over any run, with or without key replacement, no device is verified under a key the user did not verify. */
  lemma {:induction false} VerifiedUnderCurrentKey(c: Config, steps: seq<Step>)
    ensures TrustIsEarned(RunFrom(c, System(map[], map[]), steps))
  {
    if steps != [] {
      VerifiedUnderCurrentKey(c, steps[..|steps| - 1]);
      StepKeepsTrust(c, RunFrom(c, System(map[], map[]), steps[..|steps| - 1]), steps[|steps| - 1]);
    }
  }

  lemma StepKeepsIdentity(c: Config, s: System, step: Step, k: DeviceKey)
    requires !c.replaceRotatedKeys && Lookup(s.store, k).Some?
    ensures Lookup(Next(c, s, step).store, k).Some?
    ensures Lookup(Next(c, s, step).store, k).value.ed25519 == Lookup(s.store, k).value.ed25519
  {
    if step.KeysQueried? {
      QueriedDevice(c, s.store, step.response, k);
    }
  }

  /** Without key replacement the identity key of a stored device never changes. */
  lemma {:induction false} IdentityIsPinned(c: Config, s: System, steps: seq<Step>, k: DeviceKey)
    requires !c.replaceRotatedKeys && Lookup(s.store, k).Some?
    ensures Lookup(RunFrom(c, s, steps).store, k).Some?
    ensures Lookup(RunFrom(c, s, steps).store, k).value.ed25519 == Lookup(s.store, k).value.ed25519
  {
    if steps != [] {
      IdentityIsPinned(c, s, steps[..|steps| - 1], k);
      StepKeepsIdentity(c, RunFrom(c, s, steps[..|steps| - 1]), steps[|steps| - 1], k);
    }
  }

  lemma QueryKeepsBlacklist(c: Config, store: Store, response: Response, k: DeviceKey)
    requires Lookup(store, k).Some? && Lookup(store, k).value.trust.Blacklisted?
    ensures var after := Lookup(Queried(c, store, response), k); after.Some? && after.value.trust.Blacklisted?
  {
    QueriedDevice(c, store, response, k);
  }

  /** The run in which only these responses arrive. */
  function Queries(responses: seq<Response>): seq<Step> {
    seq(|responses|, i requires 0 <= i < |responses| => KeysQueried(responses[i]))
  }

  /** No sequence of key queries clears a blacklist, whatever keys the responses carry. */
  lemma {:induction false} BlacklistSurvives(c: Config, s: System, responses: seq<Response>, k: DeviceKey)
    requires Lookup(s.store, k).Some? && Lookup(s.store, k).value.trust.Blacklisted?
    ensures var after := Lookup(RunFrom(c, s, Queries(responses)).store, k); after.Some? && after.value.trust.Blacklisted?
  {
    if responses != [] {
      var before, last := responses[..|responses| - 1], responses[|responses| - 1];
      BlacklistSurvives(c, s, before, k);
      assert Queries(responses)[..|responses| - 1] == Queries(before);
      QueryKeepsBlacklist(c, RunFrom(c, s, Queries(before)).store, last, k);
    }
  }
}
