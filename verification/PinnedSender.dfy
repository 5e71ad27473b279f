/**
 * The pinned to-device sender (src/nio/client/async_client.py): one operation at a time, and the ciphertext
 * of an unacknowledged one is kept and sent again, unchanged, before anything else.
 */
module PinnedSender {
  import opened Wrappers

  /** How one request ends: acknowledged, answered with an error, or interrupted by an exception or a cancellation. */
  datatype Delivery = Ack | ServerError | Interrupted

  datatype Pending = Pending(txId: string, fingerprint: string, ciphertext: nat)

  /** One request put on the wire. */
  datatype Sent = Sent(txId: string, fingerprint: string, ciphertext: nat, delivery: Delivery)

  /** Olm never yields the same ciphertext twice: `next` numbers them. A disposed client serves no further call. */
  datatype Sender = Sender(pending: Option<Pending>, next: nat, log: seq<Sent>, disposed: bool)

  /**
   * One call and what it meets: whether the message is fit for a pinned send, how the retry of a pending operation ends,
   * whether the queried identity matches the pin, whether a session exists or is claimed, whether both still hold
   * afterwards, whether encryption succeeds, how the new request ends, and the id drawn when none is given.
   */
  datatype Call = Call(
    txId: Option<string>,
    fingerprint: string,
    fit: bool,
    retry: Delivery,
    resolves: bool,
    hasSession: bool,
    claims: bool,
    stillResolves: bool,
    hasSessionNow: bool,
    encrypts: bool,
    delivery: Delivery,
    freshId: string)

  datatype Reply =
    | Disposed
    | Invalid
    | ForeignContent
    | Unresolved
    | ClaimFailed
    | NoSession
    | EncryptionFailed
    | Returned(delivery: Delivery)
    | Raised

  const IDLE := Sender(None, 0, [], false)

  function ReplyTo(d: Delivery): Reply {
    if d.Interrupted? then Raised else Returned(d)
  }

  function Log(s: Sender, p: Pending, d: Delivery): Sender {
    s.(log := s.log + [Sent(p.txId, p.fingerprint, p.ciphertext, d)])
  }

  /** The call names the pending operation, by its id or by repeating its content without an id. */
  predicate SameOperation(p: Pending, c: Call) {
    c.txId == Some(p.txId) || (c.txId == None && p.fingerprint == c.fingerprint)
  }

  /** What stops a new operation before anything is sent. */
  function Obstacle(c: Call): Option<Reply> {
    if !c.resolves then Some(Unresolved)
    else if !c.hasSession && !c.claims then Some(ClaimFailed)
    else if !c.stillResolves then Some(Unresolved)
    else if !c.hasSessionNow then Some(NoSession)
    else if !c.encrypts then Some(EncryptionFailed)
    else None
  }

  /** The new operation, once nothing is pending. */
  function SendNew(s: Sender, c: Call): (Sender, Reply) {
    match Obstacle(c)
    case Some(reply) => (s.(disposed := s.disposed || reply.EncryptionFailed?), reply)
    case None =>
      var p := Pending(if c.txId.Some? then c.txId.value else c.freshId, c.fingerprint, s.next);
      var t := Log(s.(next := s.next + 1), p, c.delivery);
      (t.(pending := if c.delivery.Ack? then None else Some(p)), ReplyTo(c.delivery))
  }

  function EncryptedToDevice(s: Sender, c: Call): (Sender, Reply) {
    if s.disposed then (s, Disposed)
    else if c.txId == Some("") || !c.fit then (s, Invalid)
    else
      match s.pending
      case None => SendNew(s, c)
      case Some(p) =>
        if c.txId == Some(p.txId) && p.fingerprint != c.fingerprint then (s, ForeignContent)
        else
          var t := Log(s, p, c.retry);
          if !c.retry.Ack? then (t, ReplyTo(c.retry))
          else
            var u := t.(pending := None);
            if SameOperation(p, c) then (u, Returned(Ack)) else SendNew(u, c)
  }

  class PinnedClient {
    var pendingEncryptedToDevice: Option<Pending>
    var next: nat
    var log: seq<Sent>
    var disposed: bool

    ghost function View(): Sender
      reads this
    {
      Sender(pendingEncryptedToDevice, next, log, disposed)
    }

    constructor ()
      ensures View() == IDLE
    {
      pendingEncryptedToDevice, next, log, disposed := None, 0, [], false;
    }

    /** `encrypted_to_device` under its lock. */
    method Send(c: Call) returns (reply: Reply)
      modifies this
      ensures (View(), reply) == EncryptedToDevice(old(View()), c)
    {
      if disposed {
        return Disposed;
      }
      if c.txId == Some("") {
        return Invalid;
      }
      if !c.fit {
        return Invalid;
      }
      var pending := pendingEncryptedToDevice;
      if pending.Some? {
        var p := pending.value;
        if c.txId == Some(p.txId) && p.fingerprint != c.fingerprint {
          return ForeignContent;
        }
        ToDevice(p, c.retry);
        if c.retry.Interrupted? {
          return Raised;
        }
        if c.retry.ServerError? {
          return Returned(ServerError);
        }
        pendingEncryptedToDevice := None;
        if c.txId == Some(p.txId) || (c.txId == None && p.fingerprint == c.fingerprint) {
          return Returned(Ack);
        }
      }
      if !c.resolves {
        return Unresolved;
      }
      if !c.hasSession {
        if !c.claims {
          return ClaimFailed;
        }
      }
      if !c.stillResolves {
        return Unresolved;
      }
      if !c.hasSessionNow {
        return NoSession;
      }
      if !c.encrypts {
        disposed := true;
        return EncryptionFailed;
      }
      var encrypted := Pending(if c.txId.Some? then c.txId.value else c.freshId, c.fingerprint, next);
      next := next + 1;
      pendingEncryptedToDevice := Some(encrypted);
      ToDevice(encrypted, c.delivery);
      if c.delivery.Interrupted? {
        return Raised;
      }
      if c.delivery.Ack? {
        pendingEncryptedToDevice := None;
      }
      return Returned(c.delivery);
    }

    /** `to_device`: the request and how it ends. */
    method ToDevice(p: Pending, d: Delivery)
      modifies this`log
      ensures log == old(log) + [Sent(p.txId, p.fingerprint, p.ciphertext, d)]
    {
      log := log + [Sent(p.txId, p.fingerprint, p.ciphertext, d)];
    }
  }

  function Run(calls: seq<Call>): Sender {
    if calls == [] then IDLE else EncryptedToDevice(Run(calls[..|calls| - 1]), calls[|calls| - 1]).0
  }

  /** The same request, with the same id, content and ciphertext. */
  predicate SameRequest(a: Sent, b: Sent) {
    a.txId == b.txId && a.fingerprint == b.fingerprint && a.ciphertext == b.ciphertext
  }

  /** A retry repeats an unacknowledged request; a new ciphertext follows an acknowledgement. */
  ghost predicate Follows(a: Sent, b: Sent) {
    if a.delivery.Ack? then a.ciphertext < b.ciphertext else SameRequest(a, b)
  }

  /** The slot holds the last request exactly when that one is unacknowledged. */
  ghost predicate SlotMatches(s: Sender) {
    && (forall i :: 0 < i < |s.log| ==> Follows(s.log[i - 1], s.log[i]))
    && (forall i :: 0 <= i < |s.log| ==> s.log[i].ciphertext < s.next)
    && match s.pending
       case None => s.log == [] || s.log[|s.log| - 1].delivery.Ack?
       case Some(p) =>
         s.log != [] &&
         var last := s.log[|s.log| - 1];
         last == Sent(p.txId, p.fingerprint, p.ciphertext, last.delivery) && !last.delivery.Ack?
  }

  lemma SendNewKeepsSlot(s: Sender, c: Call)
    requires SlotMatches(s) && s.pending.None?
    ensures SlotMatches(SendNew(s, c).0)
  {
  }

  lemma RetryKeepsSlot(s: Sender, d: Delivery)
    requires SlotMatches(s) && s.pending.Some?
    ensures var t := Log(s, s.pending.value, d); SlotMatches(if d.Ack? then t.(pending := None) else t)
  {
  }

  lemma CallKeepsSlot(s: Sender, c: Call)
    requires SlotMatches(s)
    ensures SlotMatches(EncryptedToDevice(s, c).0)
  {
    if s.pending.Some? {
      RetryKeepsSlot(s, c.retry);
      if c.retry.Ack? {
        SendNewKeepsSlot(Log(s, s.pending.value, c.retry).(pending := None), c);
      }
    } else {
      SendNewKeepsSlot(s, c);
    }
  }

  lemma {:induction false} RunKeepsSlot(calls: seq<Call>)
    ensures SlotMatches(Run(calls))
  {
    if calls != [] {
      RunKeepsSlot(calls[..|calls| - 1]);
      CallKeepsSlot(Run(calls[..|calls| - 1]), calls[|calls| - 1]);
    }
  }

  /** Between two requests of a log: equal ciphertexts form one unacknowledged block, different ones are separated by an acknowledgement. */
  lemma {:induction false} Blocks(s: Sender, i: nat, j: nat)
    requires SlotMatches(s) && i < j < |s.log|
    ensures s.log[i].ciphertext <= s.log[j].ciphertext
    ensures s.log[i].ciphertext == s.log[j].ciphertext ==>
              SameRequest(s.log[i], s.log[j]) && forall k :: i <= k < j ==> SameRequest(s.log[i], s.log[k]) && !s.log[k].delivery.Ack?
    ensures s.log[i].ciphertext != s.log[j].ciphertext ==>
              exists k :: i <= k < j && SameRequest(s.log[i], s.log[k]) && s.log[k].delivery.Ack?
    decreases j - i
  {
    assert Follows(s.log[i], s.log[i + 1]);
    if i + 1 < j {
      Blocks(s, i + 1, j);
      if s.log[i].ciphertext != s.log[j].ciphertext && !s.log[i].delivery.Ack? {
        var k :| i + 1 <= k < j && SameRequest(s.log[i + 1], s.log[k]) && s.log[k].delivery.Ack?;
        assert SameRequest(s.log[i], s.log[k]);
      }
    } else if s.log[i].delivery.Ack? {
      assert SameRequest(s.log[i], s.log[i]);
    }
  }

  /**
   * Over any run of calls, errors and cancellations the log is a sequence of blocks of identical requests; a new
   * ciphertext is first sent only after the previous one was acknowledged, and only the last can be unacknowledged.
   */
  lemma SendsFormBlocks(calls: seq<Call>, i: nat, j: nat)
    requires i < j < |Run(calls).log|
    ensures var log := Run(calls).log;
            && (log[i].ciphertext == log[j].ciphertext ==>
                SameRequest(log[i], log[j]) && forall k :: i <= k < j ==> SameRequest(log[i], log[k]) && !log[k].delivery.Ack?)
            && (log[i].ciphertext != log[j].ciphertext ==>
                exists k :: i <= k < j && SameRequest(log[i], log[k]) && log[k].delivery.Ack?)
  {
    RunKeepsSlot(calls);
    Blocks(Run(calls), i, j);
  }

  /** A call is refused for foreign content exactly when it reuses the pending id with another fingerprint, and then sends nothing. */
  lemma ForeignContentSendsNothing(s: Sender, c: Call)
    ensures EncryptedToDevice(s, c).1.ForeignContent? <==>
            !s.disposed && c.txId != Some("") && c.fit && s.pending.Some? && c.txId == Some(s.pending.value.txId) && c.fingerprint != s.pending.value.fingerprint
    ensures EncryptedToDevice(s, c).1.ForeignContent? ==> EncryptedToDevice(s, c).0 == s
  {
  }

  /** An acknowledgement a caller receives is for its own content, sent last. */
  lemma AcknowledgedOwnContent(s: Sender, c: Call)
    requires SlotMatches(s) && EncryptedToDevice(s, c).1 == Returned(Ack)
    ensures var t := EncryptedToDevice(s, c).0;
            && |t.log| > |s.log| && t.pending.None?
            && t.log[|t.log| - 1].fingerprint == c.fingerprint && t.log[|t.log| - 1].delivery.Ack?
            && (c.txId.Some? ==> t.log[|t.log| - 1].txId == c.txId.value)
  {
  }

  // ----- Every call, field by field -----

  /** The call is served and does not misuse the pending id. */
  predicate Served(s: Sender, c: Call) {
    && !s.disposed && c.txId != Some("") && c.fit
    && (s.pending.Some? && c.txId == Some(s.pending.value.txId) ==> c.fingerprint == s.pending.value.fingerprint)
  }

  /** It gets to an operation of its own: nothing is pending, or what is pending is another operation and is acknowledged now. */
  predicate StartsNew(s: Sender, c: Call) {
    && Served(s, c)
    && (s.pending.Some? ==>
        && c.retry.Ack? && c.txId != Some(s.pending.value.txId)
        && (c.txId.Some? || c.fingerprint != s.pending.value.fingerprint))
  }

  /** The pinned identity holds before and after the claim, a session is there in the end, and encryption succeeds. */
  predicate Unobstructed(c: Call) {
    c.resolves && (c.hasSession || c.claims) && c.stillResolves && c.hasSessionNow && c.encrypts
  }

  /** Each refusal has its own exact condition. */
  lemma RefusalIff(s: Sender, c: Call)
    ensures var reply := EncryptedToDevice(s, c).1;
            && (reply == Disposed <==> s.disposed)
            && (reply == Invalid <==> !s.disposed && (c.txId == Some("") || !c.fit))
            && (reply == Unresolved <==>
                StartsNew(s, c) && (!c.resolves || ((c.hasSession || c.claims) && !c.stillResolves)))
            && (reply == ClaimFailed <==> StartsNew(s, c) && c.resolves && !c.hasSession && !c.claims)
            && (reply == NoSession <==>
                StartsNew(s, c) && c.resolves && (c.hasSession || c.claims) && c.stillResolves && !c.hasSessionNow)
            && (reply == EncryptionFailed <==>
                StartsNew(s, c) && c.resolves && (c.hasSession || c.claims) && c.stillResolves && c.hasSessionNow && !c.encrypts)
  {
  }

  /** Any other answer tells how the call's own request ended, or else how the retry did. */
  lemma AnswerIff(s: Sender, c: Call, d: Delivery)
    ensures EncryptedToDevice(s, c).1 == (if d.Interrupted? then Raised else Returned(d)) <==>
              || (StartsNew(s, c) && Unobstructed(c) && c.delivery == d)
              || (Served(s, c) && s.pending.Some? && !StartsNew(s, c) && c.retry == d)
  {
  }

  /** What a call sends and leaves in the slot: first the pending request once more, then its own. */
  lemma CallExact(s: Sender, c: Call)
    ensures var t := EncryptedToDevice(s, c).0;
            var own := Pending(if c.txId.Some? then c.txId.value else c.freshId, c.fingerprint, s.next);
            var retries := Served(s, c) && s.pending.Some?;
            var sends := StartsNew(s, c) && Unobstructed(c);
            && t.log == s.log
                        + (if retries
                           then [Sent(s.pending.value.txId, s.pending.value.fingerprint, s.pending.value.ciphertext, c.retry)] else [])
                        + (if sends then [Sent(own.txId, own.fingerprint, own.ciphertext, c.delivery)] else [])
            && t.pending == (if sends then (if c.delivery.Ack? then None else Some(own))
                             else if retries && c.retry.Ack? then None else s.pending)
            && (t.next > s.next <==> sends)
            && (t.disposed <==> s.disposed || EncryptedToDevice(s, c).1 == EncryptionFailed)
  {
    var none: seq<Sent> := [];
    assert forall l: seq<Sent> :: l + none == l;
  }

  /** How the call at this index of a run is answered. */
  function AnswerTo(calls: seq<Call>, i: nat): Reply
    requires i < |calls|
  {
    EncryptedToDevice(Run(calls[..i]), calls[i]).1
  }

  /** A run ends with the client disposed if and only if the encryption of one of its calls failed. */
  lemma {:induction false} DisposedIff(calls: seq<Call>)
    ensures Run(calls).disposed <==> exists i :: 0 <= i < |calls| && AnswerTo(calls, i) == EncryptionFailed
  {
    if calls != [] {
      var before, last := calls[..|calls| - 1], calls[|calls| - 1];
      DisposedIff(before);
      CallExact(Run(before), last);
      assert forall i :: 0 <= i < |before| ==> calls[..i] == before[..i] && calls[i] == before[i];
      assert forall i :: 0 <= i < |before| ==> AnswerTo(calls, i) == AnswerTo(before, i);
      assert AnswerTo(calls, |before|) == EncryptedToDevice(Run(before), last).1;
      if exists i :: 0 <= i < |before| && AnswerTo(before, i) == EncryptionFailed {
        var i :| 0 <= i < |before| && AnswerTo(before, i) == EncryptionFailed;
        assert AnswerTo(calls, i) == EncryptionFailed;
      }
    }
  }

  /** Over any run, once encryption has failed nothing is sent, however the calls go on. */
  lemma {:induction false} DisposedSendsNothing(calls: seq<Call>, more: seq<Call>)
    requires Run(calls).disposed
    ensures Run(calls + more) == Run(calls)
  {
    if more == [] {
      assert calls + more == calls;
    } else {
      assert (calls + more)[..|calls + more| - 1] == calls + more[..|more| - 1];
      DisposedSendsNothing(calls, more[..|more| - 1]);
    }
  }

  /** A ciphertext is first sent exactly by a fit call that meets no obstacle and finds the slot empty or empties it for another operation. */
  lemma NewCiphertextIff(s: Sender, c: Call)
    requires SlotMatches(s)
    ensures (exists i :: |s.log| <= i < |EncryptedToDevice(s, c).0.log| && EncryptedToDevice(s, c).0.log[i].ciphertext == s.next) <==>
              && !s.disposed && c.txId != Some("") && c.fit
              && c.resolves && (c.hasSession || c.claims) && c.stillResolves && c.hasSessionNow && c.encrypts
              && (s.pending.Some? ==> c.retry.Ack? && c.txId != Some(s.pending.value.txId)
                                      && (c.txId.Some? || c.fingerprint != s.pending.value.fingerprint))
  {
    var t := EncryptedToDevice(s, c).0;
    if s.pending.Some? {
      assert s.pending.value.ciphertext < s.next;
      assert |t.log| > |s.log| ==> t.log[|s.log|].ciphertext == s.pending.value.ciphertext;
    }
    assert t.next > s.next ==> t.log[|t.log| - 1].ciphertext == s.next && |t.log| > |s.log|;
  }

  lemma DisposedStays(calls: seq<Call>, n: nat, m: nat)
    requires n <= m <= |calls| && Run(calls[..n]).disposed
    ensures Run(calls[..m]) == Run(calls[..n])
  {
    assert calls[..m] == calls[..n] + calls[n..m];
    DisposedSendsNothing(calls[..n], calls[n..m]);
  }

  lemma FailureDisposes(calls: seq<Call>, i: nat)
    requires i < |calls| && AnswerTo(calls, i) == EncryptionFailed
    ensures Run(calls[..i + 1]).disposed
  {
    assert calls[..i + 1][..i] == calls[..i];
    CallExact(Run(calls[..i]), calls[i]);
  }

  /** After the call whose encryption failed, every later call is answered as disposed and nothing more is sent. */
  lemma FailedEncryptionIsFinal(calls: seq<Call>, i: nat, j: nat)
    requires i < j < |calls| && AnswerTo(calls, i) == EncryptionFailed
    ensures AnswerTo(calls, j) == Disposed
    ensures Run(calls).log == Run(calls[..i + 1]).log && Run(calls).disposed
  {
    FailureDisposes(calls, i);
    DisposedStays(calls, i + 1, j);
    RefusalIff(Run(calls[..j]), calls[j]);
    DisposedStays(calls, i + 1, |calls|);
    assert calls[..|calls|] == calls;
  }
}
