/**
 * The replay guard for group messages: a bounded least-recently-used cache from
 * (sender key, session, index) to the event that first used it (src/nio/crypto/olm_machine.py).
 */
module ReplayGuard {
  import opened Wrappers
  import opened Sequences

  const MESSAGE_INDEX_STORE_SIZE := 100000

  datatype MessageKey = MessageKey(senderKey: Option<string>, sessionId: Option<string>, index: int)
  datatype EventInfo = EventInfo(eventId: string, timestamp: int)
  datatype Call = Call(key: MessageKey, info: EventInfo)

  /** `order` lists the keys, least recently used first. */
  datatype Cache = Cache(order: seq<MessageKey>, info: map<MessageKey, EventInfo>)

  const EMPTY := Cache([], map[])

  /** Moves a key to the most recently used end. */
  function Touch(s: seq<MessageKey>, k: MessageKey): seq<MessageKey> {
    Without(s, k) + [k]
  }

  /** One call on the bounded cache; the new cache and whether the message is fine. */
  function Accept(c: Cache, call: Call, size: nat): (Cache, bool) {
    if call.key in c.info then
      (Cache(Touch(c.order, call.key), c.info), c.info[call.key] == call.info)
    else
      var kept := if |c.order| >= size && c.order != [] then Evict(c) else c;
      (Cache(kept.order + [call.key], kept.info[call.key := call.info]), true)
  }

  function Evict(c: Cache): Cache
    requires c.order != []
  {
    Cache(c.order[1..], c.info - {c.order[0]})
  }

  function Run(calls: seq<Call>, size: nat): Cache {
    if calls == [] then EMPTY else Accept(Run(calls[..|calls| - 1], size), calls[|calls| - 1], size).0
  }

  /** The guard's answer to the call at index `i` of a run. */
  predicate AcceptedAt(calls: seq<Call>, i: nat, size: nat)
    requires i < |calls|
  {
    Accept(Run(calls[..i], size), calls[i], size).1
  }

  /** The guard as the machine keeps it. */
  class Guard {
    const size: nat
    var order: seq<MessageKey>
    var store: map<MessageKey, EventInfo>

    ghost function View(): Cache
      reads this
    {
      Cache(order, store)
    }

    constructor (size: nat)
      ensures this.size == size && View() == EMPTY
    {
      this.size := size;
      order, store := [], map[];
    }

    method MessageIndexOk(event: Call) returns (ok: bool)
      modifies this
      ensures View() == Accept(old(View()), event, size).0
      ensures ok == Accept(old(View()), event, size).1
    {
      if event.key in store {
        order := Touch(order, event.key);
        ok := !(store[event.key].eventId != event.info.eventId || store[event.key].timestamp != event.info.timestamp);
      } else {
        if |order| >= size && order != [] {
          store := store - {order[0]};
          order := order[1..];
        }
        order := order + [event.key];
        store := store[event.key := event.info];
        ok := true;
      }
    }
  }

  // ----- A reference definition that mentions no cache -----

  /** All keys used so far, least recently used first, none forgotten. */
  ghost function Recency(calls: seq<Call>): seq<MessageKey> {
    if calls == [] then [] else Touch(Recency(calls[..|calls| - 1]), calls[|calls| - 1].key)
  }

  ghost predicate Used(calls: seq<Call>, k: MessageKey) {
    exists i :: 0 <= i < |calls| && calls[i].key == k
  }

  /** The distinct other keys used since the last use of `k`. */
  ghost function OthersSince(calls: seq<Call>, k: MessageKey): set<MessageKey> {
    if calls == [] || calls[|calls| - 1].key == k then {}
    else OthersSince(calls[..|calls| - 1], k) + {calls[|calls| - 1].key}
  }

  /** What a guard that forgets `k` after `size` distinct other keys has on record for it. */
  ghost function Recorded(calls: seq<Call>, k: MessageKey, size: nat): Option<EventInfo> {
    if calls == [] then None
    else
      var before := calls[..|calls| - 1];
      var last := calls[|calls| - 1];
      if last.key != k then Recorded(before, k, size)
      else if Recorded(before, k, size).Some? && |OthersSince(before, k)| < size then Recorded(before, k, size)
      else Some(last.info)
  }

  lemma {:induction false} RecencyDistinct(calls: seq<Call>)
    ensures NoDuplicates(Recency(calls))
  {
    if calls != [] {
      var before := calls[..|calls| - 1];
      RecencyDistinct(before);
      WithoutDistinct(Recency(before), calls[|calls| - 1].key);
      AppendDistinct(Without(Recency(before), calls[|calls| - 1].key), calls[|calls| - 1].key);
    }
  }

  /**
   * The cache holds exactly the `size` most recently used keys, in order of use:
   * the full order is what was forgotten followed by what is cached.
   */
  lemma {:induction false} CacheIsRecentSuffix(calls: seq<Call>, size: nat) returns (forgotten: seq<MessageKey>)
    requires size > 0
    ensures Recency(calls) == forgotten + Run(calls, size).order
    ensures |Run(calls, size).order| <= size
    ensures forgotten != [] ==> |Run(calls, size).order| == size
    ensures Run(calls, size).info.Keys == Elements(Run(calls, size).order)
  {
    if calls == [] {
      forgotten := [];
    } else {
      var before := calls[..|calls| - 1];
      var a := CacheIsRecentSuffix(before, size);
      RecencyDistinct(before);
      DistinctParts(a, Run(before, size).order);
      KeysFollowOrder(Run(before, size), calls[|calls| - 1], size);
      forgotten := RecentSuffixStep(a, Run(before, size), calls[|calls| - 1], size);
    }
  }

  /** A cached key moves to the end of the cache. */
  lemma TouchCached(a: seq<MessageKey>, b: seq<MessageKey>, k: MessageKey)
    requires k !in a
    ensures Touch(a + b, k) == a + Touch(b, k)
  {
    WithoutSplit(a, b, k);
    assert Without(a, k) == a;
    assert a + Without(b, k) + [k] == a + (Without(b, k) + [k]);
  }

  /** A key that is not cached pushes the oldest cached one out. */
  lemma TouchPushesOut(a: seq<MessageKey>, b: seq<MessageKey>, k: MessageKey)
    requires k !in b && b != []
    ensures Touch(a + b, k) == Without(a, k) + [b[0]] + (b[1..] + [k])
  {
    WithoutSplit(a, b, k);
    MoveHead(Without(a, k), b, [k]);
  }

  lemma MoveHead(x: seq<MessageKey>, b: seq<MessageKey>, z: seq<MessageKey>)
    requires b != []
    ensures x + b + z == x + [b[0]] + (b[1..] + z)
  {
    var left, right := x + b + z, x + [b[0]] + (b[1..] + z);
    assert |left| == |right|;
    assert forall i :: 0 <= i < |left| ==> left[i] == right[i];
  }

  lemma AcceptCases(c: Cache, call: Call, size: nat)
    requires size > 0 && |c.order| <= size && (call.key in c.info <==> call.key in c.order)
    ensures Accept(c, call, size).0.order ==
              if call.key in c.order then Touch(c.order, call.key)
              else if |c.order| < size then c.order + [call.key]
              else c.order[1..] + [call.key]
  {
  }

  lemma RecentSuffixStep(a: seq<MessageKey>, c: Cache, call: Call, size: nat) returns (forgotten: seq<MessageKey>)
    requires size > 0 && NoDuplicates(a + c.order)
    requires |c.order| <= size && (a != [] ==> |c.order| == size)
    requires call.key in c.info <==> call.key in c.order
    ensures Touch(a + c.order, call.key) == forgotten + Accept(c, call, size).0.order
    ensures |Accept(c, call, size).0.order| <= size
    ensures forgotten != [] ==> |Accept(c, call, size).0.order| == size
  {
    var k, b := call.key, c.order;
    AcceptCases(c, call, size);
    if k in b {
      DistinctParts(a, b);
      WithoutDistinct(b, k);
      TouchCached(a, b, k);
      forgotten := a;
    } else if |b| < size {
      assert a + b == b && Without(b, k) == b;
      forgotten := [];
    } else {
      TouchPushesOut(a, b, k);
      forgotten := Without(a, k) + [b[0]];
    }
  }

  lemma KeysFollowOrder(c: Cache, call: Call, size: nat)
    requires size > 0 && NoDuplicates(c.order) && c.info.Keys == Elements(c.order)
    ensures Accept(c, call, size).0.info.Keys == Elements(Accept(c, call, size).0.order)
  {
    var kept := if |c.order| >= size then Evict(c) else c;
    if call.key !in c.info && |c.order| >= size {
      assert c.order == [c.order[0]] + c.order[1..];
      assert kept.info.Keys == Elements(kept.order);
    }
  }

  /** In the order of use, exactly the keys used since `k` come after it. */
  lemma {:induction false} RecencyTail(calls: seq<Call>, k: MessageKey)
    returns (older: seq<MessageKey>, newer: seq<MessageKey>)
    requires Used(calls, k)
    ensures Recency(calls) == older + [k] + newer
    ensures forall x :: x in newer <==> x in OthersSince(calls, k)
  {
    var before := calls[..|calls| - 1];
    var last := calls[|calls| - 1].key;
    if last == k {
      older, newer := Without(Recency(before), k), [];
    } else {
      var i :| 0 <= i < |calls| && calls[i].key == k;
      assert before[i].key == k;
      var o, n := RecencyTail(before, k);
      WithoutSplit(o + [k], n, last);
      WithoutSplit(o, [k], last);
      older, newer := Without(o, last), Without(n, last) + [last];
      assert Without([k], last) == [k];
    }
  }

  /** A key is still cached exactly when it was used and fewer than `size` other keys were used since. */
  lemma RetainedIff(calls: seq<Call>, k: MessageKey, size: nat)
    requires size > 0
    ensures k in Run(calls, size).info <==> Used(calls, k) && |OthersSince(calls, k)| < size
  {
    var forgotten := CacheIsRecentSuffix(calls, size);
    var order := Run(calls, size).order;
    RecencyDistinct(calls);
    if Used(calls, k) {
      var older, newer := RecencyTail(calls, k);
      DistinctParts(older + [k], newer);
      DistinctSize(newer);
      assert Elements(newer) == OthersSince(calls, k);
      SplitAt(forgotten, order, older, k, newer);
    } else {
      NeverUsed(calls, k);
      assert k in order ==> k in forgotten + order;
    }
  }

  /** Where two ways to cut a list without duplicates put the element `k`. */
  lemma SplitAt(a: seq<MessageKey>, b: seq<MessageKey>, older: seq<MessageKey>, k: MessageKey, newer: seq<MessageKey>)
    requires a + b == older + [k] + newer && NoDuplicates(a + b)
    ensures k in b <==> |newer| < |b|
  {
    var s := a + b;
    assert s[|older|] == k;
    if |newer| < |b| {
      assert b[|older| - |a|] == k;
    } else {
      forall j | 0 <= j < |b| ensures b[j] != k {
        assert s[|a| + j] == b[j];
      }
    }
  }

  lemma {:induction false} NeverUsed(calls: seq<Call>, k: MessageKey)
    requires !Used(calls, k)
    ensures k !in Recency(calls)
  {
    if calls != [] {
      var before := calls[..|calls| - 1];
      forall i | 0 <= i < |before| ensures before[i].key != k {
        assert calls[i].key != k;
      }
      NeverUsed(before, k);
    }
  }

  /** What the cache stores for a retained key is what the reference definition has on record. */
  lemma {:induction false} StoredIsRecorded(calls: seq<Call>, k: MessageKey, size: nat)
    requires size > 0
    ensures Recorded(calls, k, size).Some? <==> Used(calls, k)
    ensures k in Run(calls, size).info ==> Recorded(calls, k, size) == Some(Run(calls, size).info[k])
  {
    if calls != [] {
      var before := calls[..|calls| - 1];
      StoredIsRecorded(before, k, size);
      RetainedIff(before, k, size);
      assert calls == before + [calls[|calls| - 1]];
      assert Used(calls, k) <==> Used(before, k) || calls[|calls| - 1].key == k by {
        if Used(before, k) {
          var i :| 0 <= i < |before| && before[i].key == k;
          assert calls[i].key == k;
        }
        if calls[|calls| - 1].key == k {
          assert Used(calls, k);
        }
      }
    }
  }

  /** The guard refuses exactly the messages that contradict a record it has not had to forget. */
  lemma AcceptedIff(calls: seq<Call>, i: nat, size: nat)
    requires size > 0 && i < |calls|
    ensures AcceptedAt(calls, i, size) <==>
            var k := calls[i].key;
            |OthersSince(calls[..i], k)| >= size || Recorded(calls[..i], k, size) in {None, Some(calls[i].info)}
  {
    RetainedIff(calls[..i], calls[i].key, size);
    StoredIsRecorded(calls[..i], calls[i].key, size);
  }

  /** Between two positions of a run the key was used again only while still remembered. */
  ghost predicate NeverForgotten(calls: seq<Call>, i: nat, j: nat, k: MessageKey, size: nat)
    requires j < |calls|
  {
    forall q :: i < q <= j && calls[q].key == k ==> |OthersSince(calls[..q], k)| < size
  }

  lemma {:induction false} RecordStays(calls: seq<Call>, i: nat, m: nat, j: nat, size: nat)
    requires size > 0 && i < m <= j < |calls|
    requires AcceptedAt(calls, i, size)
    requires NeverForgotten(calls, i, j, calls[i].key, size)
    ensures Recorded(calls[..m], calls[i].key, size) == Some(calls[i].info)
  {
    var k := calls[i].key;
    var before := calls[..m - 1];
    assert calls[..m][..m - 1] == before;
    if m == i + 1 {
      AcceptedIff(calls, i, size);
    } else {
      RecordStays(calls, i, m - 1, j, size);
      assert calls[m - 1].key == k ==> |OthersSince(before, k)| < size;
    }
  }

  /**
   * Replay protection under eviction: two accepted messages with the same key are the same event,
   * unless the key was looked up again after `size` distinct other keys had been used since its last use.
   */
  lemma AcceptedTwiceIsSameEvent(calls: seq<Call>, i: nat, j: nat, size: nat)
    requires size > 0 && i < j < |calls| && calls[i].key == calls[j].key
    requires AcceptedAt(calls, i, size) && AcceptedAt(calls, j, size)
    ensures calls[i].info == calls[j].info || !NeverForgotten(calls, i, j, calls[i].key, size)
  {
    if NeverForgotten(calls, i, j, calls[i].key, size) {
      RecordStays(calls, i, j, j, size);
      AcceptedIff(calls, j, size);
    }
  }

  /** The same for the guard the machine creates, which remembers 100000 keys. */
  lemma ReplaysAreRefused(calls: seq<Call>, i: nat, j: nat)
    requires i < j < |calls| && calls[i].key == calls[j].key && calls[i].info != calls[j].info
    requires AcceptedAt(calls, i, MESSAGE_INDEX_STORE_SIZE) && AcceptedAt(calls, j, MESSAGE_INDEX_STORE_SIZE)
    ensures exists q :: i < q <= j && calls[q].key == calls[i].key && |OthersSince(calls[..q], calls[i].key)| >= MESSAGE_INDEX_STORE_SIZE
  {
    AcceptedTwiceIsSameEvent(calls, i, j, MESSAGE_INDEX_STORE_SIZE);
  }
}
