/**
 * The durable record codec (src/nio/durable/model.py), between records and parsed JSON. The decoder checks
 * dynamic types field by field; the JSON text itself is outside the model.
 */
module DurableCodec {
  import opened Wrappers
  import opened JsonTrees

  type Fields = map<string, Json>

  datatype RecordKind = Timeline | State | RoomAccountData | GlobalAccountData | ToDevice | RoomLifecycle | Loss
  datatype Provenance = Live | Recovered | History

  datatype AuthenticatedDevice = AuthenticatedDevice(userId: string, deviceId: string, curve25519: string, ed25519: string)

  datatype CryptoEvidence = CryptoEvidence(
    verified: Option<bool>,
    senderKey: string,
    sessionId: Option<string>,
    authenticatedSender: Option<AuthenticatedDevice>)

  datatype OwnMembership = OwnMembership(
    previous: Option<string>,
    current: string,
    previousEpoch: int,
    currentEpoch: int,
    source: string)

  datatype SyncRecord = SyncRecord(
    kind: RecordKind,
    roomId: Option<string>,
    source: Fields,
    clear: Option<Fields>,
    provenance: Option<Provenance>,
    membershipEpoch: Option<int>,
    crypto: Option<CryptoEvidence>,
    membership: Option<OwnMembership>,
    route: Option<string>,
    codec: Option<string>)

  /** The Python exceptions that leave the decoder. */
  datatype Error = ValueError | KeyError | TypeError

  // ----- Well-formed records -----

  const MEMBERSHIPS := ["join", "invite", "leave", "ban", "knock"]
  const SOURCES := ["local", "reported"]

  predicate GoodIdentity(d: AuthenticatedDevice) {
    d.userId != "" && d.deviceId != "" && d.curve25519 != "" && d.ed25519 != ""
  }

  predicate GoodCrypto(c: CryptoEvidence) {
    c.authenticatedSender.Some? ==> GoodIdentity(c.authenticatedSender.value)
  }

  predicate GoodMembership(m: OwnMembership) {
    && m.current in MEMBERSHIPS && (m.previous.Some? ==> m.previous.value in MEMBERSHIPS)
    && m.previousEpoch >= 0 && m.currentEpoch >= 0 && m.source in SOURCES
  }

  predicate GoodRecord(r: SyncRecord) {
    && (r.membershipEpoch.Some? ==> r.membershipEpoch.value >= 0)
    && (r.crypto.Some? ==> GoodCrypto(r.crypto.value))
    && (r.membership.Some? ==> GoodMembership(r.membership.value))
  }

  // ----- The encoder -----

  function KindName(k: RecordKind): string {
    match k
    case Timeline => "timeline"
    case State => "state"
    case RoomAccountData => "room_account_data"
    case GlobalAccountData => "global_account_data"
    case ToDevice => "to_device"
    case RoomLifecycle => "room_lifecycle"
    case Loss => "loss"
  }

  function ProvenanceName(p: Provenance): string {
    match p
    case Live => "live"
    case Recovered => "recovered"
    case History => "history"
  }

  function OptionalText(s: Option<string>): Json {
    match s case None => JNull case Some(t) => JString(t)
  }

  function EncodeIdentity(d: Option<AuthenticatedDevice>): Json {
    match d
    case None => JNull
    case Some(x) =>
      JObject(map["user_id" := JString(x.userId), "device_id" := JString(x.deviceId),
                  "curve25519" := JString(x.curve25519), "ed25519" := JString(x.ed25519)])
  }

  function EncodeCrypto(c: Option<CryptoEvidence>): Json {
    match c
    case None => JNull
    case Some(x) =>
      JObject(map["verified" := (match x.verified case None => JNull case Some(b) => JBool(b)),
                  "sender_key" := JString(x.senderKey),
                  "session_id" := OptionalText(x.sessionId),
                  "authenticated_sender" := EncodeIdentity(x.authenticatedSender)])
  }

  function EncodeMembership(m: Option<OwnMembership>): Json {
    match m
    case None => JNull
    case Some(x) =>
      JObject(map["previous" := OptionalText(x.previous), "current" := JString(x.current),
                  "previous_epoch" := JInt(x.previousEpoch), "current_epoch" := JInt(x.currentEpoch),
                  "source" := JString(x.source)])
  }

  // ----- The decoder -----

  /** `dict.get` with its default of None. */
  function Get(f: Fields, key: string): Json {
    if key in f then f[key] else JNull
  }

  /** Calling a dataclass constructor with `**fields`. */
  predicate Callable(f: Fields, required: set<string>, allowed: set<string>) {
    required <= f.Keys && f.Keys <= allowed
  }

  function DecodeText(v: Json): Result<Option<string>, Error> {
    match v case JNull => Ok(None) case JString(t) => Ok(Some(t)) case _ => Err(ValueError)
  }

  /** `_validate_epoch`: an int that is no bool and not negative. */
  predicate ValidEpoch(v: Json) {
    v.JInt? && v.number >= 0
  }

  const IDENTITY_FIELDS := {"user_id", "device_id", "curve25519", "ed25519"}

  /** The constructor refuses missing and unknown fields, and values that are no nonempty strings. */
  function DecodeIdentity(v: Json): Result<Option<AuthenticatedDevice>, Error> {
    match v
    case JNull => Ok(None)
    case JObject(f) =>
      if !Callable(f, IDENTITY_FIELDS, IDENTITY_FIELDS) then Err(ValueError)
      else
        var user, device, curve, ed := f["user_id"], f["device_id"], f["curve25519"], f["ed25519"];
        if !(user.JString? && device.JString? && curve.JString? && ed.JString?) then Err(ValueError)
        else
          var d := AuthenticatedDevice(user.text, device.text, curve.text, ed.text);
          if GoodIdentity(d) then Ok(Some(d)) else Err(ValueError)
    case _ => Err(ValueError)
  }

  const CRYPTO_REQUIRED := {"verified", "sender_key"}
  const CRYPTO_FIELDS := {"verified", "sender_key", "session_id", "authenticated_sender"}

  function DecodeCrypto(v: Json): Result<Option<CryptoEvidence>, Error> {
    match v
    case JNull => Ok(None)
    case JObject(f) =>
      var verified := Get(f, "verified");
      var senderKey := Get(f, "sender_key");
      if !verified.JNull? && !verified.JBool? then Err(ValueError)
      else if !senderKey.JString? then Err(ValueError)
      else
        (match DecodeText(Get(f, "session_id"))
         case Err(e) => Err(e)
         case Ok(sessionId) =>
           match DecodeIdentity(Get(f, "authenticated_sender"))
           case Err(e) => Err(e)
           case Ok(identity) =>
             if !Callable(f, CRYPTO_REQUIRED, CRYPTO_FIELDS) then Err(ValueError)
             else Ok(Some(CryptoEvidence(if verified.JBool? then Some(verified.truth) else None,
                                         senderKey.text, sessionId, identity))))
    case _ => Err(ValueError)
  }

  const MEMBERSHIP_REQUIRED := {"previous", "current", "previous_epoch", "current_epoch"}
  const MEMBERSHIP_FIELDS := {"previous", "current", "previous_epoch", "current_epoch", "source"}

  function DecodeMembership(v: Json): Result<Option<OwnMembership>, Error> {
    match v
    case JNull => Ok(None)
    case JObject(f) =>
      var current, previous := Get(f, "current"), Get(f, "previous");
      var source := if "source" in f then f["source"] else JString("reported");
      var before, now := Get(f, "previous_epoch"), Get(f, "current_epoch");
      if !(current.JString? && current.text in MEMBERSHIPS) then Err(ValueError)
      else if !(previous.JNull? || (previous.JString? && previous.text in MEMBERSHIPS)) then Err(ValueError)
      else if !(source.JString? && source.text in SOURCES) then Err(ValueError)
      else if !ValidEpoch(before) || !ValidEpoch(now) then Err(ValueError)
      else if !Callable(f, MEMBERSHIP_REQUIRED, MEMBERSHIP_FIELDS) then Err(ValueError)
      else Ok(Some(OwnMembership(if previous.JString? then Some(previous.text) else None,
                                 current.text, before.number, now.number, source.text)))
    case _ => Err(ValueError)
  }

  // ----- Defaults the decoder fills in -----

  const CRYPTO_DEFAULTS: Fields := map["session_id" := JNull, "authenticated_sender" := JNull]
  const MEMBERSHIP_DEFAULTS: Fields := map["source" := JString("reported")]

  function Filled(v: Json, defaults: Fields): Json {
    match v case JObject(f) => JObject(defaults + f) case _ => v
  }

  lemma IdentityIff(v: Json, d: Option<AuthenticatedDevice>)
    ensures DecodeIdentity(v) == Ok(d) <==> (d.Some? ==> GoodIdentity(d.value)) && EncodeIdentity(d) == v
  {
    if d.Some? {
      var f := EncodeIdentity(d).fields;
      assert f.Keys == IDENTITY_FIELDS;
      if v.JObject? && v.fields.Keys == IDENTITY_FIELDS {
        assert v.fields == f <==>
            v.fields["user_id"] == f["user_id"] && v.fields["device_id"] == f["device_id"]
            && v.fields["curve25519"] == f["curve25519"] && v.fields["ed25519"] == f["ed25519"];
      }
    }
  }

  /** Filling defaults makes a dict with exactly the allowed fields just when the constructor accepts it. */
  lemma FilledKeys(f: Fields, defaults: Fields, required: set<string>, allowed: set<string>)
    requires defaults.Keys + required == allowed && defaults.Keys !! required
    ensures Callable(f, required, allowed) <==> (defaults + f).Keys == allowed
    ensures forall k :: k in defaults + f ==> (defaults + f)[k] == if k in f then f[k] else defaults[k]
  {
    assert (defaults + f).Keys == defaults.Keys + f.Keys;
  }

  /** The encoding of crypto evidence, field by field. */
  lemma CryptoFieldwise(f: Fields, c: CryptoEvidence)
    ensures EncodeCrypto(Some(c)) == Filled(JObject(f), CRYPTO_DEFAULTS) <==>
            && Callable(f, CRYPTO_REQUIRED, CRYPTO_FIELDS)
            && f["verified"] == (match c.verified case None => JNull case Some(b) => JBool(b))
            && f["sender_key"] == JString(c.senderKey)
            && Get(f, "session_id") == OptionalText(c.sessionId)
            && Get(f, "authenticated_sender") == EncodeIdentity(c.authenticatedSender)
  {
    FilledKeys(f, CRYPTO_DEFAULTS, CRYPTO_REQUIRED, CRYPTO_FIELDS);
    var g := EncodeCrypto(Some(c)).fields;
    var full := CRYPTO_DEFAULTS + f;
    assert g.Keys == CRYPTO_FIELDS;
    if Callable(f, CRYPTO_REQUIRED, CRYPTO_FIELDS) {
      assert full == g <==> forall k :: k in CRYPTO_FIELDS ==> full[k] == g[k];
    }
  }

  lemma CryptoIff(v: Json, c: Option<CryptoEvidence>)
    ensures DecodeCrypto(v) == Ok(c) <==>
            (c.Some? ==> GoodCrypto(c.value)) && EncodeCrypto(c) == Filled(v, CRYPTO_DEFAULTS)
  {
    if v.JObject? && c.Some? {
      CryptoFieldwise(v.fields, c.value);
      IdentityIff(Get(v.fields, "authenticated_sender"), c.value.authenticatedSender);
    }
  }

  /** The encoding of a membership change, field by field. */
  lemma MembershipFieldwise(f: Fields, m: OwnMembership)
    ensures EncodeMembership(Some(m)) == Filled(JObject(f), MEMBERSHIP_DEFAULTS) <==>
            && Callable(f, MEMBERSHIP_REQUIRED, MEMBERSHIP_FIELDS)
            && f["previous"] == OptionalText(m.previous) && f["current"] == JString(m.current)
            && f["previous_epoch"] == JInt(m.previousEpoch) && f["current_epoch"] == JInt(m.currentEpoch)
            && (if "source" in f then f["source"] else JString("reported")) == JString(m.source)
  {
    FilledKeys(f, MEMBERSHIP_DEFAULTS, MEMBERSHIP_REQUIRED, MEMBERSHIP_FIELDS);
    var g := EncodeMembership(Some(m)).fields;
    var full := MEMBERSHIP_DEFAULTS + f;
    assert g.Keys == MEMBERSHIP_FIELDS;
    if Callable(f, MEMBERSHIP_REQUIRED, MEMBERSHIP_FIELDS) {
      assert full == g <==> forall k :: k in MEMBERSHIP_FIELDS ==> full[k] == g[k];
    }
  }

  lemma MembershipIff(v: Json, m: Option<OwnMembership>)
    ensures DecodeMembership(v) == Ok(m) <==>
            (m.Some? ==> GoodMembership(m.value)) && EncodeMembership(m) == Filled(v, MEMBERSHIP_DEFAULTS)
  {
    if v.JObject? && m.Some? {
      MembershipFieldwise(v.fields, m.value);
    }
  }

  // ----- Whole records -----

  function EncodeKind(k: RecordKind): Json {
    JString(KindName(k))
  }

  function EncodeProvenance(p: Option<Provenance>): Json {
    match p case None => JNull case Some(x) => JString(ProvenanceName(x))
  }

  function EncodeEpoch(n: Option<int>): Json {
    match n case None => JNull case Some(x) => JInt(x)
  }

  function EncodeClear(c: Option<Fields>): Json {
    match c case None => JNull case Some(f) => JObject(f)
  }

  function EncodeRecord(r: SyncRecord): Json {
    JObject(map[
              "kind" := EncodeKind(r.kind),
              "room_id" := OptionalText(r.roomId),
              "source" := JObject(r.source),
              "clear" := EncodeClear(r.clear),
              "provenance" := EncodeProvenance(r.provenance),
              "membership_epoch" := EncodeEpoch(r.membershipEpoch),
              "crypto" := EncodeCrypto(r.crypto),
              "membership" := EncodeMembership(r.membership),
              "route" := OptionalText(r.route),
              "codec" := OptionalText(r.codec)])
  }

  const RECORD_REQUIRED := {"kind", "room_id", "source"}
  const RECORD_OPTIONAL := {"clear", "provenance", "membership_epoch", "crypto", "membership", "route", "codec"}
  const RECORD_DEFAULTS: Fields := map k | k in RECORD_OPTIONAL :: JNull

  function KindNamed(name: string): Option<RecordKind> {
    if name == "timeline" then Some(Timeline)
    else if name == "state" then Some(State)
    else if name == "room_account_data" then Some(RoomAccountData)
    else if name == "global_account_data" then Some(GlobalAccountData)
    else if name == "to_device" then Some(ToDevice)
    else if name == "room_lifecycle" then Some(RoomLifecycle)
    else if name == "loss" then Some(Loss)
    else None
  }

  function ProvenanceNamed(name: string): Option<Provenance> {
    if name == "live" then Some(Live)
    else if name == "recovered" then Some(Recovered)
    else if name == "history" then Some(History)
    else None
  }

  function DecodeKind(v: Json): Result<RecordKind, Error> {
    if v.JString? && KindNamed(v.text).Some? then Ok(KindNamed(v.text).value) else Err(ValueError)
  }

  function DecodeProvenance(v: Json): Result<Option<Provenance>, Error> {
    if v.JNull? then Ok(None)
    else if v.JString? && ProvenanceNamed(v.text).Some? then Ok(Some(ProvenanceNamed(v.text).value))
    else Err(ValueError)
  }

  function DecodeEpoch(v: Json): Result<Option<int>, Error> {
    if v.JNull? then Ok(None) else if ValidEpoch(v) then Ok(Some(v.number)) else Err(ValueError)
  }

  function DecodeClear(v: Json): Result<Option<Fields>, Error> {
    match v case JNull => Ok(None) case JObject(f) => Ok(Some(f)) case _ => Err(ValueError)
  }

  /** The outcome of each field's check. */
  datatype Parts = Parts(
    kind: Result<RecordKind, Error>,
    roomId: Result<Option<string>, Error>,
    clear: Result<Option<Fields>, Error>,
    provenance: Result<Option<Provenance>, Error>,
    epoch: Result<Option<int>, Error>,
    crypto: Result<Option<CryptoEvidence>, Error>,
    membership: Result<Option<OwnMembership>, Error>,
    route: Result<Option<string>, Error>,
    codec: Result<Option<string>, Error>)

  function DecodeParts(f: Fields): Parts {
    Parts(if "kind" in f then DecodeKind(f["kind"]) else Err(KeyError),
          DecodeText(Get(f, "room_id")), DecodeClear(Get(f, "clear")), DecodeProvenance(Get(f, "provenance")),
          DecodeEpoch(Get(f, "membership_epoch")), DecodeCrypto(Get(f, "crypto")), DecodeMembership(Get(f, "membership")),
          DecodeText(Get(f, "route")), DecodeText(Get(f, "codec")))
  }

  /** The constructor call at the end refuses a missing `room_id` and any unknown field. */
  predicate ConstructorAccepts(f: Fields) {
    Callable(f, RECORD_REQUIRED, RECORD_REQUIRED + RECORD_OPTIONAL)
  }

  /** The first failing check decides the exception. */
  function Assemble(parts: Parts, source: Json, accepted: bool): Result<SyncRecord, Error> {
    if !source.JObject? || parts.clear.Err? || parts.roomId.Err? || parts.route.Err? || parts.codec.Err? then Err(ValueError)
    else if parts.kind.Err? then Err(parts.kind.error)
    else if parts.provenance.Err? || parts.crypto.Err? || parts.epoch.Err? || parts.membership.Err? then Err(ValueError)
    else if !accepted then Err(TypeError)
    else
      Ok(SyncRecord(parts.kind.value, parts.roomId.value, source.fields, parts.clear.value, parts.provenance.value,
                    parts.epoch.value, parts.crypto.value, parts.membership.value, parts.route.value, parts.codec.value))
  }

  function DecodeRecord(v: Json): Result<SyncRecord, Error> {
    if !v.JObject? then Err(ValueError)
    else Assemble(DecodeParts(v.fields), Get(v.fields, "source"), ConstructorAccepts(v.fields))
  }

  /** The record as parsed, with every default of the record and its parts written out. */
  function FilledRecord(f: Fields): Json {
    var full := RECORD_DEFAULTS + f;
    JObject(full["crypto" := Filled(Get(f, "crypto"), CRYPTO_DEFAULTS)]
            ["membership" := Filled(Get(f, "membership"), MEMBERSHIP_DEFAULTS)])
  }

  lemma KindIff(v: Json, k: RecordKind)
    ensures DecodeKind(v) == Ok(k) <==> v == EncodeKind(k)
  {
  }

  lemma ProvenanceIff(v: Json, p: Option<Provenance>)
    ensures DecodeProvenance(v) == Ok(p) <==> v == EncodeProvenance(p)
  {
  }

  /** The parts of a record. */
  function PartsOf(r: SyncRecord): Parts {
    Parts(Ok(r.kind), Ok(r.roomId), Ok(r.clear), Ok(r.provenance), Ok(r.membershipEpoch), Ok(r.crypto), Ok(r.membership),
          Ok(r.route), Ok(r.codec))
  }

  lemma AssembleIff(parts: Parts, source: Json, accepted: bool, r: SyncRecord)
    ensures Assemble(parts, source, accepted) == Ok(r) <==>
            parts == PartsOf(r) && source == JObject(r.source) && accepted
  {
  }

  /** The simple fields of a parsed record are those of the record. */
  predicate SimpleFields(f: Fields, r: SyncRecord) {
    && Get(f, "kind") == EncodeKind(r.kind)
    && Get(f, "room_id") == OptionalText(r.roomId)
    && Get(f, "source") == JObject(r.source)
    && Get(f, "clear") == EncodeClear(r.clear)
    && Get(f, "provenance") == EncodeProvenance(r.provenance)
    && Get(f, "membership_epoch") == EncodeEpoch(r.membershipEpoch)
    && Get(f, "route") == OptionalText(r.route)
    && Get(f, "codec") == OptionalText(r.codec)
  }

  lemma PartsIff(f: Fields, r: SyncRecord)
    ensures DecodeParts(f) == PartsOf(r) && Get(f, "source") == JObject(r.source) <==>
            && SimpleFields(f, r)
            && (r.membershipEpoch.Some? ==> r.membershipEpoch.value >= 0)
            && DecodeCrypto(Get(f, "crypto")) == Ok(r.crypto)
            && DecodeMembership(Get(f, "membership")) == Ok(r.membership)
  {
    KindIff(Get(f, "kind"), r.kind);
    ProvenanceIff(Get(f, "provenance"), r.provenance);
  }

  /** Equality of two dicts with the record's fields, field by field. */
  lemma TenFields(g: Fields, h: Fields)
    requires g.Keys == h.Keys == RECORD_REQUIRED + RECORD_OPTIONAL
    ensures g == h <==>
            && g["kind"] == h["kind"] && g["room_id"] == h["room_id"] && g["source"] == h["source"]
            && g["clear"] == h["clear"] && g["provenance"] == h["provenance"]
            && g["membership_epoch"] == h["membership_epoch"] && g["crypto"] == h["crypto"]
            && g["membership"] == h["membership"] && g["route"] == h["route"] && g["codec"] == h["codec"]
  {
    assert g == h <==> forall k :: k in RECORD_REQUIRED + RECORD_OPTIONAL ==> g[k] == h[k];
  }

  lemma EncodedFields(r: SyncRecord)
    ensures var g := EncodeRecord(r).fields;
            && g.Keys == RECORD_REQUIRED + RECORD_OPTIONAL
            && SimpleFields(g, r)
            && g["crypto"] == EncodeCrypto(r.crypto) && g["membership"] == EncodeMembership(r.membership)
  {
  }

  lemma FilledKeySet(f: Fields)
    ensures FilledRecord(f).fields.Keys == (RECORD_DEFAULTS + f).Keys
    ensures FilledRecord(f).fields.Keys == RECORD_REQUIRED + RECORD_OPTIONAL <==> ConstructorAccepts(f)
  {
    FilledKeys(f, RECORD_DEFAULTS, RECORD_REQUIRED, RECORD_REQUIRED + RECORD_OPTIONAL);
    assert "crypto" in RECORD_DEFAULTS && "membership" in RECORD_DEFAULTS;
    assert FilledRecord(f).fields.Keys == (RECORD_DEFAULTS + f).Keys;
  }

  lemma FilledFields(f: Fields)
    ensures var h := FilledRecord(f).fields;
            && (h.Keys == RECORD_REQUIRED + RECORD_OPTIONAL <==> ConstructorAccepts(f))
            && "crypto" in h && h["crypto"] == Filled(Get(f, "crypto"), CRYPTO_DEFAULTS)
            && "membership" in h && h["membership"] == Filled(Get(f, "membership"), MEMBERSHIP_DEFAULTS)
            && forall k :: k in h && k != "crypto" && k != "membership" ==> h[k] == Get(f, k)
  {
    FilledKeySet(f);
  }

  lemma EncodedFieldwise(f: Fields, r: SyncRecord)
    ensures EncodeRecord(r) == FilledRecord(f) <==>
            && ConstructorAccepts(f)
            && SimpleFields(f, r)
            && EncodeCrypto(r.crypto) == Filled(Get(f, "crypto"), CRYPTO_DEFAULTS)
            && EncodeMembership(r.membership) == Filled(Get(f, "membership"), MEMBERSHIP_DEFAULTS)
  {
    EncodedFields(r);
    FilledFields(f);
    if ConstructorAccepts(f) {
      TenFields(EncodeRecord(r).fields, FilledRecord(f).fields);
    }
  }

  /**
   * The decoder accepts a value exactly when filling in the defaults gives the encoding of a well-formed record,
   * and then yields that record: nothing is lost, invented or accepted with a wrong type.
   */
  lemma RecordIff(v: Json, r: SyncRecord)
    ensures DecodeRecord(v) == Ok(r) <==> v.JObject? && GoodRecord(r) && EncodeRecord(r) == FilledRecord(v.fields)
  {
    if v.JObject? {
      var f := v.fields;
      AssembleIff(DecodeParts(f), Get(f, "source"), ConstructorAccepts(f), r);
      PartsIff(f, r);
      EncodedFieldwise(f, r);
      CryptoIff(Get(f, "crypto"), r.crypto);
      MembershipIff(Get(f, "membership"), r.membership);
    }
  }

  // ----- Whole batches -----

  function EncodeRecords(records: seq<SyncRecord>): Json {
    JArray(seq(|records|, i requires 0 <= i < |records| => EncodeRecord(records[i])))
  }

  function Outcomes(items: seq<Json>): seq<Result<SyncRecord, Error>> {
    seq(|items|, i requires 0 <= i < |items| => DecodeRecord(items[i]))
  }

  /** All values, or the first error. */
  function Gather<T>(outcomes: seq<Result<T, Error>>): Result<seq<T>, Error> {
    if outcomes == [] then Ok([])
    else if outcomes[0].Err? then Err(outcomes[0].error)
    else
      match Gather(outcomes[1..])
      case Err(e) => Err(e)
      case Ok(rest) => Ok([outcomes[0].value] + rest)
  }

  function DecodeRecords(v: Json): Result<seq<SyncRecord>, Error> {
    if v.JArray? then Gather(Outcomes(v.items)) else Err(ValueError)
  }

  lemma {:induction false} GatherIff<T>(outcomes: seq<Result<T, Error>>, values: seq<T>)
    ensures Gather(outcomes) == Ok(values) <==>
            |outcomes| == |values| && forall i :: 0 <= i < |values| ==> outcomes[i] == Ok(values[i])
  {
    if outcomes != [] && values != [] {
      GatherIff(outcomes[1..], values[1..]);
      assert values == [values[0]] + values[1..];
      assert forall i :: 0 < i < |values| ==> values[i] == values[1..][i - 1];
      assert forall i :: 0 < i < |outcomes| ==> outcomes[i] == outcomes[1..][i - 1];
    }
  }

  /** The first error is the one reported. */
  lemma {:induction false} GatherError<T>(outcomes: seq<Result<T, Error>>, n: nat)
    requires n < |outcomes| && outcomes[n].Err? && forall i :: 0 <= i < n ==> outcomes[i].Ok?
    ensures Gather(outcomes) == Err(outcomes[n].error)
  {
    if n > 0 {
      GatherError(outcomes[1..], n - 1);
    }
  }

  /** The decoder's loop: it stops at the first item that raises. */
  method ReadRecords(v: Json) returns (result: Result<seq<SyncRecord>, Error>)
    ensures result == DecodeRecords(v)
  {
    if !v.JArray? {
      return Err(ValueError);
    }
    var records: seq<SyncRecord> := [];
    ghost var outcomes := Outcomes(v.items);
    for i := 0 to |v.items|
      invariant |records| == i && forall k :: 0 <= k < i ==> outcomes[k] == Ok(records[k])
    {
      var one := DecodeRecord(v.items[i]);
      assert outcomes[i] == one;
      if one.Err? {
        GatherError(outcomes, i);
        return Err(one.error);
      }
      records := records + [one.value];
    }
    GatherIff(outcomes, records);
    return Ok(records);
  }

  /** The item, with defaults filled in, is the encoding of this well-formed record. */
  ghost predicate Denotes(v: Json, r: SyncRecord) {
    v.JObject? && GoodRecord(r) && EncodeRecord(r) == FilledRecord(v.fields)
  }

  /** Everything the decoder accepts is well formed, and is what its input says once the defaults are written out. */
  lemma DecodedIff(v: Json, records: seq<SyncRecord>)
    ensures DecodeRecords(v) == Ok(records) <==>
            v.JArray? && |v.items| == |records| && forall i :: 0 <= i < |records| ==> Denotes(v.items[i], records[i])
  {
    if v.JArray? {
      GatherIff(Outcomes(v.items), records);
      forall i | 0 <= i < |records| && i < |v.items|
        ensures DecodeRecord(v.items[i]) == Ok(records[i]) <==> Denotes(v.items[i], records[i])
      {
        RecordIff(v.items[i], records[i]);
      }
    }
  }

  /** An encoded record has no default left to fill in. */
  lemma EncodingIsFilled(r: SyncRecord)
    ensures FilledRecord(EncodeRecord(r).fields) == EncodeRecord(r)
  {
    var g := EncodeRecord(r).fields;
    EncodedFields(r);
    FilledFields(g);
    CryptoIsFilled(r.crypto);
    MembershipIsFilled(r.membership);
    TenFields(FilledRecord(g).fields, g);
  }

  lemma CryptoIsFilled(c: Option<CryptoEvidence>)
    ensures Filled(EncodeCrypto(c), CRYPTO_DEFAULTS) == EncodeCrypto(c)
  {
    if c.Some? {
      var g := EncodeCrypto(c).fields;
      assert g.Keys == CRYPTO_FIELDS;
      assert CRYPTO_DEFAULTS + g == g;
    }
  }

  lemma MembershipIsFilled(m: Option<OwnMembership>)
    ensures Filled(EncodeMembership(m), MEMBERSHIP_DEFAULTS) == EncodeMembership(m)
  {
    if m.Some? {
      var g := EncodeMembership(m).fields;
      assert g.Keys == MEMBERSHIP_FIELDS;
      assert MEMBERSHIP_DEFAULTS + g == g;
    }
  }

  /** Decoding the encoding of well-formed records returns them unchanged; malformed ones do not survive the trip. */
  lemma RoundTrip(records: seq<SyncRecord>)
    ensures DecodeRecords(EncodeRecords(records)) == Ok(records) <==> forall r :: r in records ==> GoodRecord(r)
  {
    DecodedIff(EncodeRecords(records), records);
    forall i | 0 <= i < |records| ensures Denotes(EncodeRecords(records).items[i], records[i]) <==> GoodRecord(records[i]) {
      EncodingIsFilled(records[i]);
    }
    assert (forall r :: r in records ==> GoodRecord(r)) <==> forall i :: 0 <= i < |records| ==> GoodRecord(records[i]);
  }

  /** Whatever the decoder returns is well formed, and storing it again and reading it back changes nothing. */
  lemma DecodeEncodeDecode(v: Json, records: seq<SyncRecord>)
    requires DecodeRecords(v) == Ok(records)
    ensures forall r :: r in records ==> GoodRecord(r)
    ensures DecodeRecords(EncodeRecords(records)) == Ok(records)
  {
    DecodedIff(v, records);
    assert forall i :: 0 <= i < |records| ==> Denotes(v.items[i], records[i]);
    RoundTrip(records);
  }

  // ----- The stored format, written out -----

  /** What makes a record well formed. */
  lemma WellFormedIff(r: SyncRecord)
    ensures GoodRecord(r) <==>
              && (r.membershipEpoch.Some? ==> r.membershipEpoch.value >= 0)
              && (r.crypto.Some? && r.crypto.value.authenticatedSender.Some? ==>
                  var d := r.crypto.value.authenticatedSender.value;
                  d.userId != "" && d.deviceId != "" && d.curve25519 != "" && d.ed25519 != "")
              && (r.membership.Some? ==>
                  var m := r.membership.value;
                  && m.current in {"join", "invite", "leave", "ban", "knock"}
                  && (m.previous == None || m.previous.value in {"join", "invite", "leave", "ban", "knock"})
                  && m.previousEpoch >= 0 && m.currentEpoch >= 0 && m.source in {"local", "reported"})
  {
  }

  /** Under which names, and as what, each field of a record is stored. */
  lemma RecordFormat(r: SyncRecord)
    ensures EncodeRecord(r).JObject?
    ensures var f := EncodeRecord(r).fields;
            && f.Keys == {"kind", "room_id", "source", "clear", "provenance", "membership_epoch", "crypto", "membership", "route", "codec"}
            && f["kind"] == JString(match r.kind
                                    case Timeline => "timeline"
                                    case State => "state"
                                    case RoomAccountData => "room_account_data"
                                    case GlobalAccountData => "global_account_data"
                                    case ToDevice => "to_device"
                                    case RoomLifecycle => "room_lifecycle"
                                    case Loss => "loss")
            && f["source"] == JObject(r.source)
            && f["room_id"] == (if r.roomId.Some? then JString(r.roomId.value) else JNull)
            && f["clear"] == (if r.clear.Some? then JObject(r.clear.value) else JNull)
            && f["membership_epoch"] == (if r.membershipEpoch.Some? then JInt(r.membershipEpoch.value) else JNull)
            && f["route"] == (if r.route.Some? then JString(r.route.value) else JNull)
            && f["codec"] == (if r.codec.Some? then JString(r.codec.value) else JNull)
            && f["provenance"] == (match r.provenance
                                   case None => JNull
                                   case Some(Live) => JString("live")
                                   case Some(Recovered) => JString("recovered")
                                   case Some(History) => JString("history"))
  {
  }

  /** The same for the evidence and the membership change inside it. */
  lemma PartsFormat(r: SyncRecord)
    ensures var f := EncodeRecord(r).fields;
            && (r.crypto.None? ==> f["crypto"] == JNull)
            && (r.crypto.Some? ==>
                var c := r.crypto.value;
                && f["crypto"].JObject?
                && var g := f["crypto"].fields;
                && g.Keys == {"verified", "sender_key", "session_id", "authenticated_sender"}
                && g["verified"] == (if c.verified.Some? then JBool(c.verified.value) else JNull)
                && g["sender_key"] == JString(c.senderKey)
                && g["session_id"] == (if c.sessionId.Some? then JString(c.sessionId.value) else JNull)
                && g["authenticated_sender"] ==
                   (match c.authenticatedSender
                    case None => JNull
                    case Some(d) => JObject(map["user_id" := JString(d.userId), "device_id" := JString(d.deviceId),
                                                "curve25519" := JString(d.curve25519), "ed25519" := JString(d.ed25519)])))
            && (r.membership.None? ==> f["membership"] == JNull)
            && (r.membership.Some? ==>
                var m := r.membership.value;
                && f["membership"].JObject?
                && var g := f["membership"].fields;
                && g.Keys == {"previous", "current", "previous_epoch", "current_epoch", "source"}
                && g["previous"] == (if m.previous.Some? then JString(m.previous.value) else JNull)
                && g["current"] == JString(m.current) && g["source"] == JString(m.source)
                && g["previous_epoch"] == JInt(m.previousEpoch) && g["current_epoch"] == JInt(m.currentEpoch))
  {
  }

  const RECORD_FIELDS :=
    {"kind", "room_id", "source", "clear", "provenance", "membership_epoch", "crypto", "membership", "route", "codec"}

  /** The known fields of a parsed record, with a room id of null when it is missing. */
  function Trimmed(f: Fields): Fields {
    map k | k in RECORD_FIELDS && (k in f || k == "room_id") :: Get(f, k)
  }

  /** The default, or else the type, of a field that may be null. */
  predicate NullOrText(v: Json) {
    v.JNull? || v.JString?
  }

  /**
   * A KeyError leaves the decoder exactly for a record without a kind that passes the checks made before, a TypeError
   * exactly for one that is good but for a missing room id or an unknown field, and a ValueError for every other bad one.
   */
  lemma ErrorIff(v: Json)
    ensures DecodeRecord(v) == Err(KeyError) <==>
              && v.JObject? && Get(v.fields, "source").JObject? && "kind" !in v.fields
              && (Get(v.fields, "clear").JNull? || Get(v.fields, "clear").JObject?)
              && NullOrText(Get(v.fields, "room_id")) && NullOrText(Get(v.fields, "route")) && NullOrText(Get(v.fields, "codec"))
    ensures DecodeRecord(v) == Err(TypeError) <==>
              && v.JObject? && DecodeRecord(JObject(Trimmed(v.fields))).Ok?
              && !("room_id" in v.fields && v.fields.Keys <= RECORD_FIELDS)
  {
    if v.JObject? {
      TrimmedSameParts(v.fields);
      assert RECORD_REQUIRED + RECORD_OPTIONAL == RECORD_FIELDS;
    }
  }

  lemma TrimmedSameParts(f: Fields)
    ensures var g := Trimmed(f);
            && Get(g, "source") == Get(f, "source")
            && (forall k :: k in RECORD_FIELDS ==> Get(g, k) == Get(f, k))
            && ("kind" in g <==> "kind" in f)
            && DecodeParts(g) == DecodeParts(f)
            && (ConstructorAccepts(g) <==> "kind" in f && "source" in f)
  {
    var g := Trimmed(f);
    assert forall k :: k in RECORD_FIELDS ==> Get(g, k) == Get(f, k);
    assert g.Keys <= RECORD_FIELDS && RECORD_REQUIRED + RECORD_OPTIONAL == RECORD_FIELDS;
  }

  /** What a missing field stands for: a reported source, and nothing for everything else that may be missing. */
  lemma MissingFields(v: Json, r: SyncRecord)
    requires DecodeRecord(v) == Ok(r)
    ensures v.JObject?
    ensures var f := v.fields;
            && ("clear" !in f ==> r.clear == None) && ("provenance" !in f ==> r.provenance == None)
            && ("membership_epoch" !in f ==> r.membershipEpoch == None)
            && ("route" !in f ==> r.route == None) && ("codec" !in f ==> r.codec == None)
            && ("crypto" !in f ==> r.crypto == None) && ("membership" !in f ==> r.membership == None)
            && (r.crypto.Some? ==>
                && f["crypto"].JObject?
                && ("session_id" !in f["crypto"].fields ==> r.crypto.value.sessionId == None)
                && ("authenticated_sender" !in f["crypto"].fields ==> r.crypto.value.authenticatedSender == None))
            && (r.membership.Some? ==>
                && f["membership"].JObject?
                && ("source" !in f["membership"].fields ==> r.membership.value.source == "reported"))
  {
  }
}
