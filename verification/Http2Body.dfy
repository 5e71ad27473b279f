/**
 * Sending request bodies under HTTP/2 flow control (src/nio/http.py). The h2 library is a
 * value: its windows, its frame limit, the frames it was given and the streams it was told to end.
 */
module Http2Body {
  import opened Sequences

  type Bytes = seq<bv8>

  datatype Frame = Frame(payload: Bytes, limit: nat)

  /** What h2 tracks for the sender. Windows may be negative, section 6.9.2 of RFC 7540. */
  datatype H2 = H2(
    nextStream: nat,
    streamWindow: map<nat, int>,
    connectionWindow: int,
    maxFrameSize: nat,
    frames: map<nat, seq<Frame>>,
    ended: set<nat>)

  /** The connection object: h2 and the bodies that wait for window, in insertion order. */
  datatype State = State(h2: H2, waiting: map<nat, Bytes>, order: seq<nat>)

  function Min(a: int, b: int): int {
    if a < b then a else b
  }

  /** h2's local_flow_control_window. */
  function Window(h: H2, stream: nat): int
    requires stream in h.streamWindow
  {
    Min(h.connectionWindow, h.streamWindow[stream])
  }

  ghost predicate ValidH2(h: H2) {
    && h.maxFrameSize > 0
    && h.frames.Keys == h.streamWindow.Keys
    && h.ended <= h.frames.Keys
    && forall s :: s in h.frames ==> 0 < s < h.nextStream
  }

  /** h2's send_data: it refuses what this precondition excludes. */
  function SendFrame(h: H2, stream: nat, chunk: Bytes): H2
    requires stream in h.streamWindow && stream in h.frames && stream !in h.ended
    requires |chunk| <= Window(h, stream) && |chunk| <= h.maxFrameSize
  {
    Charge(h, stream, h.frames[stream] + [Frame(chunk, h.maxFrameSize)], |chunk|)
  }

  /** The stream's frames replaced and `n` bytes charged to both windows. */
  function Charge(h: H2, stream: nat, frames: seq<Frame>, n: int): H2
    requires stream in h.streamWindow && stream in h.frames
  {
    h.(streamWindow := h.streamWindow[stream := h.streamWindow[stream] - n],
    connectionWindow := h.connectionWindow - n,
    frames := h.frames[stream := frames])
  }

  lemma ChargeTwice(h: H2, stream: nat, f1: seq<Frame>, n1: int, f2: seq<Frame>, n2: int)
    requires stream in h.streamWindow && stream in h.frames
    ensures Charge(Charge(h, stream, f1, n1), stream, f2, n2) == Charge(h, stream, f2, n1 + n2)
    ensures Charge(h, stream, h.frames[stream], 0) == h
  {
    assert h.frames[stream := f1][stream := f2] == h.frames[stream := f2];
    assert h.streamWindow[stream := h.streamWindow[stream] - n1][stream := h.streamWindow[stream] - n1 - n2]
        == h.streamWindow[stream := h.streamWindow[stream] - (n1 + n2)];
    assert h.frames[stream := h.frames[stream]] == h.frames;
    assert h.streamWindow[stream := h.streamWindow[stream] - 0] == h.streamWindow;
  }

  /** h2's end_stream: a stream can be ended only once. */
  function EndStream(h: H2, stream: nat): H2
    requires stream in h.frames && stream !in h.ended
  {
    h.(ended := h.ended + {stream})
  }

  /** The bytes a stream has put on the wire. */
  function Sent(frames: seq<Frame>): Bytes {
    if frames == [] then [] else Sent(frames[..|frames| - 1]) + frames[|frames| - 1].payload
  }

  /** How a payload is cut into DATA frames: full frames first. */
  function Frames(payload: Bytes, limit: nat): seq<Frame>
    requires limit > 0
  {
    if payload == [] then []
    else
      var size := Min(|payload|, limit);
      [Frame(payload[..size], limit)] + Frames(payload[size..], limit)
  }

  function Quota(h: H2, stream: nat, data: Bytes): nat
    requires stream in h.streamWindow
  {
    var n := Min(Window(h, stream), |data|);
    if n > 0 then n else 0
  }

  ghost predicate CanSend(s: State, stream: nat) {
    ValidH2(s.h2) && stream in s.h2.frames && stream !in s.h2.ended
  }

  /** One `_send_data`: send what the window allows, then end the stream or keep the rest. */
  function SendData(s: State, stream: nat, data: Bytes): State
    requires CanSend(s, stream)
  {
    var n := Quota(s.h2, stream, data);
    var h := Charge(s.h2, stream, s.h2.frames[stream] + Frames(data[..n], s.h2.maxFrameSize), n);
    EndOrKeep(s.(h2 := h), stream, data[n..])
  }

  /** What is left of a body: nothing, and the stream ends, or something to wait for window. */
  function EndOrKeep(s: State, stream: nat, rest: Bytes): State
    requires stream in s.h2.frames && stream !in s.h2.ended
  {
    if rest == [] then
      State(EndStream(s.h2, stream), s.waiting - {stream}, Without(s.order, stream))
    else
      State(s.h2, s.waiting[stream := rest], if stream in s.waiting then s.order else s.order + [stream])
  }

  /** These frames carry exactly these bytes, none empty and none over the limit. */
  ghost predicate Carry(frames: seq<Frame>, payload: Bytes, limit: nat) {
    && Sent(frames) == payload
    && forall f :: f in frames ==> 0 < |f.payload| <= f.limit == limit
  }

  lemma {:induction false} SentConcat(a: seq<Frame>, b: seq<Frame>)
    ensures Sent(a + b) == Sent(a) + Sent(b)
  {
    if b == [] {
      assert a + b == a;
    } else {
      assert (a + b)[..|a + b| - 1] == a + b[..|b| - 1];
      SentConcat(a, b[..|b| - 1]);
    }
  }

  /** A payload goes out in order in frames of the maximum size, of which only the last may be smaller; none is empty. */
  lemma {:induction false} FramesCarry(payload: Bytes, limit: nat)
    requires limit > 0
    ensures Carry(Frames(payload, limit), payload, limit)
    ensures forall i :: 0 <= i < |Frames(payload, limit)| - 1 ==> |Frames(payload, limit)[i].payload| == limit
  {
    if payload != [] {
      var size := Min(|payload|, limit);
      FramesCarry(payload[size..], limit);
      var f := Frame(payload[..size], limit);
      SentConcat([f], Frames(payload[size..], limit));
      assert Sent([f]) == payload[..size];
      assert payload[..size] + payload[size..] == payload;
    }
  }

  /** One more chunk sent leaves the loop's final outcome the same. */
  lemma ChunkStep(h: H2, stream: nat, data: Bytes, n: nat, size: nat)
    requires ValidH2(h) && stream in h.frames && stream !in h.ended
    requires 0 < n <= |data| && n <= Window(h, stream) && size == Min(n, h.maxFrameSize)
    ensures var h1 := SendFrame(h, stream, data[..size]);
            Charge(h1, stream, h1.frames[stream] + Frames(data[size..][..n - size], h.maxFrameSize), n - size)
            == Charge(h, stream, h.frames[stream] + Frames(data[..n], h.maxFrameSize), n)
  {
    var f := Frame(data[..size], h.maxFrameSize);
    assert data[..n][..size] == data[..size] && data[..n][size..] == data[size..][..n - size];
    var tail := Frames(data[size..][..n - size], h.maxFrameSize);
    assert h.frames[stream] + [f] + tail == h.frames[stream] + ([f] + tail);
    ChargeTwice(h, stream, h.frames[stream] + [f], size, h.frames[stream] + ([f] + tail), n - size);
  }

  /** Where the loop ends up when `n` bytes of the data are still to be sent. */
  ghost function Target(h: H2, stream: nat, data: Bytes, n: int): H2
    requires h.maxFrameSize > 0 && stream in h.frames && stream in h.streamWindow && n <= |data|
  {
    if n > 0 then Charge(h, stream, h.frames[stream] + Frames(data[..n], h.maxFrameSize), n) else h
  }

  lemma TargetIsQuota(h: H2, stream: nat, data: Bytes)
    requires h.maxFrameSize > 0 && stream in h.frames && stream in h.streamWindow
    ensures var n := Quota(h, stream, data);
            Target(h, stream, data, n) == Charge(h, stream, h.frames[stream] + Frames(data[..n], h.maxFrameSize), n)
  {
    ChargeTwice(h, stream, h.frames[stream], 0, h.frames[stream], 0);
    assert h.frames[stream] + [] == h.frames[stream];
  }

  /** One turn of the loop ends up in the same place. */
  lemma TargetStep(h: H2, stream: nat, data: Bytes, n: nat, size: nat)
    requires ValidH2(h) && stream in h.frames && stream !in h.ended
    requires 0 < n <= |data| && n <= Window(h, stream) && size == Min(n, h.maxFrameSize)
    ensures var next := SendFrame(h, stream, data[..size]);
            && ValidH2(next) && stream in next.frames && stream !in next.ended
            && n - size <= Window(next, stream)
            && Target(next, stream, data[size..], n - size) == Target(h, stream, data, n)
  {
    ChunkStep(h, stream, data, n, size);
    var next := SendFrame(h, stream, data[..size]);
    ChargeTwice(next, stream, next.frames[stream], 0, next.frames[stream], 0);
    assert next.frames[stream] + [] == next.frames[stream];
  }

  class Http2Connection {
    var connection: H2
    var dataToSend: map<nat, Bytes>
    var order: seq<nat>

    ghost function View(): State
      reads this
    {
      State(connection, dataToSend, order)
    }

    constructor (h: H2)
      ensures View() == State(h, map[], [])
    {
      connection, dataToSend, order := h, map[], [];
    }

    method SendDataNow(stream: nat, body: Bytes)
      requires CanSend(View(), stream)
      modifies this
      ensures View() == SendData(old(View()), stream, body)
    {
      var rest := SendAllowed(stream, body);
      SettleRest(stream, rest);
    }

    /** The loop of `_send_data`. */
    method SendAllowed(stream: nat, body: Bytes) returns (data: Bytes)
      requires CanSend(View(), stream)
      modifies this`connection
      ensures var n := Quota(old(connection), stream, body);
              && data == body[n..]
              && connection == Charge(old(connection), stream,
                                      old(connection).frames[stream] + Frames(body[..n], old(connection).maxFrameSize), n)
    {
      data := body;
      var bytesToSend := Min(Window(connection, stream), |data|);
      ghost var n := Quota(connection, stream, body);
      ghost var final := Target(connection, stream, body, bytesToSend);
      TargetIsQuota(connection, stream, body);
      while bytesToSend > 0
        invariant ValidH2(connection) && stream in connection.frames && stream !in connection.ended
        invariant bytesToSend <= |data| && (bytesToSend > 0 ==> bytesToSend <= Window(connection, stream))
        invariant body[n..] == if bytesToSend > 0 then data[bytesToSend..] else data
        invariant final == Target(connection, stream, data, bytesToSend)
      {
        var chunkSize := Min(bytesToSend, connection.maxFrameSize);
        TargetStep(connection, stream, data, bytesToSend, chunkSize);
        ghost var before := data;
        var chunk;
        if chunkSize >= |data| {
          chunk, data := data, [];
        } else {
          chunk, data := data[..chunkSize], data[chunkSize..];
        }
        assert chunk == before[..chunkSize] && data == before[chunkSize..];
        bytesToSend := bytesToSend - chunkSize;
        connection := SendFrame(connection, stream, chunk);
      }
    }

    /** The end of `_send_data`: the stream ends or the rest of the body waits. */
    method SettleRest(stream: nat, rest: Bytes)
      requires stream in connection.frames && stream !in connection.ended
      modifies this
      ensures View() == EndOrKeep(old(View()), stream, rest)
    {
      if rest == [] {
        connection := EndStream(connection, stream);
        dataToSend := dataToSend - {stream};
        order := Without(order, stream);
      } else {
        if stream !in dataToSend {
          order := order + [stream];
        }
        dataToSend := dataToSend[stream := rest];
      }
    }

    /** `send`: opens the next stream and pushes out what the window allows. */
    method Send(body: Bytes, initialWindow: int) returns (stream: nat)
      requires ValidH2(connection)
      modifies this
      ensures stream == old(connection).nextStream + 1
      ensures View() == SendRequest(old(View()), body, initialWindow)
    {
      stream := connection.nextStream + 1;
      connection := OpenStream(connection, initialWindow);
      SendDataNow(stream, body);
    }

    /** The handler of a WINDOW_UPDATE that h2 has already added to its windows. */
    method HandleWindowUpdate(stream: nat) returns (raised: bool)
      requires forall x :: x in dataToSend ==> CanSend(View(), x)
      requires NoDuplicates(order) && Elements(order) == dataToSend.Keys
      modifies this
      ensures (View(), raised) == OnWindowUpdate(old(View()), stream)
    {
      raised := false;
      if dataToSend == map[] {
        return;
      }
      if stream in dataToSend {
        SendDataNow(stream, dataToSend[stream]);
        return;
      }
      if stream == 0 {
        var todo := order;
        while todo != []
          invariant Ready(View(), todo)
          invariant Flush(View(), todo) == Flush(old(View()), old(order))
          decreases |todo|
        {
          var next := todo[0];
          RestStaysReady(View(), todo);
          SendDataNow(next, dataToSend[next]);
          todo := todo[1..];
          // The dict iterator notices a removed key when it is asked for the next one.
          if next !in dataToSend && todo != [] {
            raised := true;
            return;
          }
        }
      }
    }
  }

  function OpenStream(h: H2, initialWindow: int): H2 {
    var stream := h.nextStream + 1;
    h.(nextStream := stream + 1,
    streamWindow := h.streamWindow[stream := initialWindow],
    frames := h.frames[stream := []])
  }

  function SendRequest(s: State, body: Bytes, initialWindow: int): State
    requires ValidH2(s.h2)
  {
    SendData(s.(h2 := OpenStream(s.h2, initialWindow)), s.h2.nextStream + 1, body)
  }

  /** Sending on one stream leaves every other stream's body, frames and end alone. */
  lemma SendOthers(s: State, stream: nat, data: Bytes)
    requires CanSend(s, stream)
    ensures var t := SendData(s, stream, data);
            && ValidH2(t.h2)
            && t.h2.frames.Keys == s.h2.frames.Keys && t.waiting.Keys - {stream} == s.waiting.Keys - {stream}
            && (forall x :: x in s.h2.frames && x != stream ==> t.h2.frames[x] == s.h2.frames[x])
            && (forall x :: x != stream ==> (x in t.h2.ended <==> x in s.h2.ended))
            && (forall x :: x in s.waiting && x != stream ==> t.waiting[x] == s.waiting[x])
            && (forall x :: x in s.waiting && x != stream && CanSend(s, x) ==> CanSend(t, x))
  {
  }

  /** Distinct streams that wait and may still send. */
  ghost predicate Ready(s: State, todo: seq<nat>) {
    NoDuplicates(todo) && forall x :: x in todo ==> x in s.waiting && CanSend(s, x)
  }

  /** Sending for the first of them leaves the others ready. */
  lemma RestStaysReady(s: State, todo: seq<nat>)
    requires Ready(s, todo) && todo != []
    ensures Ready(SendData(s, todo[0], s.waiting[todo[0]]), todo[1..])
  {
    SendOthers(s, todo[0], s.waiting[todo[0]]);
    assert forall x :: x in todo[1..] ==> x in todo && x != todo[0];
  }

  /** The connection-wide handler; true means that iterating a changed dict raised. */
  function Flush(s: State, todo: seq<nat>): (State, bool)
    requires Ready(s, todo)
    decreases |todo|
  {
    if todo == [] then (s, false)
    else
      RestStaysReady(s, todo);
      var t := SendData(s, todo[0], s.waiting[todo[0]]);
      if todo[0] !in t.waiting && |todo| > 1 then (t, true) else Flush(t, todo[1..])
  }

  function OnWindowUpdate(s: State, stream: nat): (State, bool)
    requires forall x :: x in s.waiting ==> CanSend(s, x)
    requires NoDuplicates(s.order) && Elements(s.order) == s.waiting.Keys
  {
    assert forall x :: x in s.order <==> x in Elements(s.order);
    if s.waiting == map[] then (s, false)
    else if stream in s.waiting then (SendData(s, stream, s.waiting[stream]), false)
    else if stream == 0 then Flush(s, s.order)
    else (s, false)
  }

  // ----- Whole runs -----

  datatype Step =
    | Request(body: Bytes, initialWindow: int)
    | SettingsWindow(stream: nat, delta: int)
    | SettingsFrameSize(limit: nat)
    | WindowUpdate(stream: nat, increment: nat)

  ghost function Waiting(s: State, stream: nat): Bytes {
    if stream in s.waiting then s.waiting[stream] else []
  }

  /** The body is on the wire or waiting, in order, and the stream is ended exactly when nothing waits. */
  ghost predicate StreamConserved(s: State, stream: nat, body: Bytes)
    requires stream in s.h2.frames
  {
    && Sent(s.h2.frames[stream]) + Waiting(s, stream) == body
    && (stream in s.h2.ended <==> stream !in s.waiting)
    && (stream in s.waiting ==> s.waiting[stream] != [])
    && forall f :: f in s.h2.frames[stream] ==> 0 < |f.payload| <= f.limit
  }

  ghost predicate Conserved(s: State, bodies: map<nat, Bytes>) {
    && ValidH2(s.h2)
    && bodies.Keys == s.h2.frames.Keys
    && s.waiting.Keys <= bodies.Keys
    && (forall x :: x in bodies ==> StreamConserved(s, x, bodies[x]))
    && NoDuplicates(s.order) && Elements(s.order) == s.waiting.Keys
  }

  /** h2 adds the increment to the window before it reports the event. */
  function AddWindow(h: H2, stream: nat, delta: int): H2 {
    if stream == 0 then h.(connectionWindow := h.connectionWindow + delta)
    else if stream in h.streamWindow then h.(streamWindow := h.streamWindow[stream := h.streamWindow[stream] + delta])
    else h
  }

  ghost function Apply(s: State, bodies: map<nat, Bytes>, step: Step): (State, map<nat, Bytes>)
    requires Conserved(s, bodies)
  {
    match step
    case Request(body, w) => (SendRequest(s, body, w), bodies[s.h2.nextStream + 1 := body])
    case SettingsWindow(x, delta) => (if x == 0 then s else s.(h2 := AddWindow(s.h2, x, delta)), bodies)
    case SettingsFrameSize(limit) => (if limit > 0 then s.(h2 := s.h2.(maxFrameSize := limit)) else s, bodies)
    case WindowUpdate(x, n) =>
      var t := s.(h2 := AddWindow(s.h2, x, n));
      assert forall y :: y in t.waiting ==> CanSend(t, y);
      (OnWindowUpdate(t, x).0, bodies)
  }

  /** One `_send_data` moves exactly the allowed prefix, within the window, in frames of legal size. */
  lemma SendDataEffect(s: State, stream: nat, data: Bytes)
    requires CanSend(s, stream)
    ensures var t := SendData(s, stream, data);
            var n := Quota(s.h2, stream, data);
            && Sent(t.h2.frames[stream]) == Sent(s.h2.frames[stream]) + data[..n]
            && Waiting(t, stream) == data[n..]
            && (stream in t.h2.ended <==> n == |data|) && (stream in t.waiting <==> n < |data|)
            && Window(t.h2, stream) == Window(s.h2, stream) - n
            && (n > 0 ==> Window(t.h2, stream) >= 0)
            && (n < |data| ==> Window(t.h2, stream) <= 0)
            && forall f :: f in t.h2.frames[stream] ==>
              f in s.h2.frames[stream] || 0 < |f.payload| <= f.limit == s.h2.maxFrameSize
  {
    var n := Quota(s.h2, stream, data);
    var sent := Frames(data[..n], s.h2.maxFrameSize);
    FramesCarry(data[..n], s.h2.maxFrameSize);
    SentConcat(s.h2.frames[stream], sent);
  }

  /** The streams that wait are kept in order: a new one comes last, a drained one is taken out, and the others stay where they are. */
  lemma WaitingOrder(s: State, stream: nat, data: Bytes)
    requires CanSend(s, stream) && NoDuplicates(s.order)
    ensures var t := SendData(s, stream, data);
            t.order == if stream !in t.waiting then Without(s.order, stream)
                       else if stream in s.waiting then s.order else s.order + [stream]
  {
  }

  /** An update for one stream sends for that stream if it waits, and changes nothing if it does not. */
  lemma StreamUpdateExact(s: State, stream: nat)
    requires forall x :: x in s.waiting ==> CanSend(s, x)
    requires NoDuplicates(s.order) && Elements(s.order) == s.waiting.Keys && stream > 0
    ensures var (t, raised) := OnWindowUpdate(s, stream);
            && !raised
            && (stream !in s.waiting ==> t == s)
            && (stream in s.waiting ==>
                var body := s.waiting[stream];
                var n := if |body| <= Allowance(s.h2.connectionWindow, s.h2.streamWindow[stream]) then |body|
                         else Allowance(s.h2.connectionWindow, s.h2.streamWindow[stream]);
                && Sent(t.h2.frames[stream]) == Sent(s.h2.frames[stream]) + body[..n]
                && Waiting(t, stream) == body[n..]
                && (stream in t.h2.ended <==> n == |body|)
                && t.h2.connectionWindow == s.h2.connectionWindow - n
                && t.h2.streamWindow == s.h2.streamWindow[stream := s.h2.streamWindow[stream] - n])
  {
    if stream in s.waiting {
      SendDataEffect(s, stream, s.waiting[stream]);
      SendWindows(s, stream, s.waiting[stream]);
    }
  }

  /** The stream that sends stays conserved. */
  lemma SenderConserved(s: State, stream: nat, data: Bytes, body: Bytes)
    requires CanSend(s, stream) && Sent(s.h2.frames[stream]) + data == body
    requires forall f :: f in s.h2.frames[stream] ==> 0 < |f.payload| <= f.limit
    ensures StreamConserved(SendData(s, stream, data), stream, body)
  {
    SendDataEffect(s, stream, data);
    var n := Quota(s.h2, stream, data);
    assert Sent(s.h2.frames[stream]) + data[..n] + data[n..] == Sent(s.h2.frames[stream]) + data;
  }

  /** Every other stream stays as it was. */
  lemma OtherConserved(s: State, stream: nat, data: Bytes, x: nat, body: Bytes)
    requires CanSend(s, stream) && x != stream && x in s.h2.frames && StreamConserved(s, x, body)
    ensures StreamConserved(SendData(s, stream, data), x, body)
  {
    SendOthers(s, stream, data);
  }

  /** Sending the waiting part of a body keeps every stream conserved. */
  lemma SendDataConserves(s: State, bodies: map<nat, Bytes>, stream: nat, data: Bytes)
    requires CanSend(s, stream) && bodies.Keys == s.h2.frames.Keys && s.waiting.Keys <= bodies.Keys
    requires NoDuplicates(s.order) && Elements(s.order) == s.waiting.Keys
    requires forall x :: x in bodies && x != stream ==> StreamConserved(s, x, bodies[x])
    requires Sent(s.h2.frames[stream]) + data == bodies[stream]
    requires forall f :: f in s.h2.frames[stream] ==> 0 < |f.payload| <= f.limit
    ensures Conserved(SendData(s, stream, data), bodies)
  {
    var t := SendData(s, stream, data);
    StreamsKept(s, stream, data);
    forall x | x in bodies ensures StreamConserved(t, x, bodies[x]) {
      if x == stream {
        SenderConserved(s, stream, data, bodies[stream]);
      } else {
        OtherConserved(s, stream, data, x, bodies[x]);
      }
    }
    SendDataOrder(s, stream, data);
  }

  lemma StreamsKept(s: State, stream: nat, data: Bytes)
    requires CanSend(s, stream)
    ensures var t := SendData(s, stream, data);
            ValidH2(t.h2) && t.h2.frames.Keys == s.h2.frames.Keys && t.waiting.Keys <= s.waiting.Keys + {stream}
  {
    SendOthers(s, stream, data);
  }

  lemma SendDataOrder(s: State, stream: nat, data: Bytes)
    requires CanSend(s, stream)
    requires NoDuplicates(s.order) && Elements(s.order) == s.waiting.Keys
    ensures var t := SendData(s, stream, data);
            NoDuplicates(t.order) && Elements(t.order) == t.waiting.Keys
  {
    WithoutDistinct(s.order, stream);
    assert stream in s.order <==> stream in Elements(s.order);
    AppendDistinct(s.order, stream);
  }

  lemma FlushConserves(s: State, bodies: map<nat, Bytes>, todo: seq<nat>)
    requires Conserved(s, bodies) && Ready(s, todo)
    ensures Conserved(Flush(s, todo).0, bodies)
    decreases |todo|
  {
    if todo != [] {
      var next, rest := todo[0], todo[1..];
      var t := SendData(s, next, s.waiting[next]);
      assert StreamConserved(s, next, bodies[next]);
      SendDataConserves(s, bodies, next, s.waiting[next]);
      RestStaysReady(s, todo);
      if !(next !in t.waiting && |todo| > 1) {
        FlushConserves(t, bodies, rest);
      }
    }
  }

  /** Opening a stream leaves the bodies of all others conserved. */
  lemma OpenConserves(s: State, bodies: map<nat, Bytes>, initialWindow: int)
    requires Conserved(s, bodies)
    ensures var stream, ready := s.h2.nextStream + 1, s.(h2 := OpenStream(s.h2, initialWindow));
            && stream !in s.h2.frames && CanSend(ready, stream) && ready.h2.frames[stream] == []
            && ready.h2.frames.Keys == bodies.Keys + {stream}
            && forall x :: x in bodies ==> x in ready.h2.frames && StreamConserved(ready, x, bodies[x])
  {
    forall x | x in bodies
      ensures x in OpenStream(s.h2, initialWindow).frames
      ensures StreamConserved(s.(h2 := OpenStream(s.h2, initialWindow)), x, bodies[x])
    {
      assert StreamConserved(s, x, bodies[x]);
    }
  }

  lemma RequestConserves(s: State, bodies: map<nat, Bytes>, body: Bytes, initialWindow: int)
    requires Conserved(s, bodies)
    ensures Conserved(SendRequest(s, body, initialWindow), bodies[s.h2.nextStream + 1 := body])
  {
    var stream, ready := s.h2.nextStream + 1, s.(h2 := OpenStream(s.h2, initialWindow));
    OpenConserves(s, bodies, initialWindow);
    assert [] + body == body;
    SendDataConserves(ready, bodies[stream := body], stream, body);
  }

  lemma UpdateConserves(s: State, bodies: map<nat, Bytes>, stream: nat)
    requires Conserved(s, bodies)
    ensures forall x :: x in s.waiting ==> CanSend(s, x)
    ensures Conserved(OnWindowUpdate(s, stream).0, bodies)
  {
    assert forall y :: y in s.waiting ==> StreamConserved(s, y, bodies[y]);
    if stream in s.waiting {
      SendDataConserves(s, bodies, stream, s.waiting[stream]);
    } else if stream == 0 {
      assert forall y :: y in s.order ==> y in Elements(s.order);
      FlushConserves(s, bodies, s.order);
    }
  }

  lemma FrameSizeConserves(s: State, bodies: map<nat, Bytes>, limit: nat)
    requires Conserved(s, bodies) && limit > 0
    ensures Conserved(s.(h2 := s.h2.(maxFrameSize := limit)), bodies)
  {
    forall y | y in bodies ensures StreamConserved(s.(h2 := s.h2.(maxFrameSize := limit)), y, bodies[y]) {
      assert StreamConserved(s, y, bodies[y]);
    }
  }

  /** Every step of a run keeps every request body conserved, even one whose handler raised. */
  lemma StepConserves(s: State, bodies: map<nat, Bytes>, step: Step)
    requires Conserved(s, bodies)
    ensures var (t, after) := Apply(s, bodies, step); Conserved(t, after)
  {
    match step
    case Request(body, w) => RequestConserves(s, bodies, body, w);
    case SettingsWindow(x, delta) => WindowConserves(s, bodies, x, delta);
    case SettingsFrameSize(limit) =>
      if limit > 0 {
        FrameSizeConserves(s, bodies, limit);
      }
    case WindowUpdate(x, n) =>
      WindowConserves(s, bodies, x, n);
      UpdateConserves(s.(h2 := AddWindow(s.h2, x, n)), bodies, x);
  }

  lemma WindowConserves(s: State, bodies: map<nat, Bytes>, stream: nat, delta: int)
    requires Conserved(s, bodies)
    ensures Conserved(s.(h2 := AddWindow(s.h2, stream, delta)), bodies)
  {
    var t := s.(h2 := AddWindow(s.h2, stream, delta));
    forall y | y in bodies ensures StreamConserved(t, y, bodies[y]) {
      assert StreamConserved(s, y, bodies[y]);
    }
  }

  /** The state after a run from a fresh connection, with the bodies that were sent. */
  ghost function Run(start: H2, steps: seq<Step>): (r: (State, map<nat, Bytes>))
    requires Fresh(start)
    ensures Conserved(r.0, r.1)
  {
    if steps == [] then
      (State(start, map[], []), map[])
    else
      var (s, bodies) := Run(start, steps[..|steps| - 1]);
      StepConserves(s, bodies, steps[|steps| - 1]);
      Apply(s, bodies, steps[|steps| - 1])
  }

  ghost predicate Fresh(h: H2) {
    ValidH2(h) && h.frames == map[] && h.streamWindow == map[] && h.ended == {}
  }

  // ----- How far a connection-wide update gets -----

  function Allowance(connectionWindow: int, streamWindow: int): nat {
    var n := Min(connectionWindow, streamWindow);
    if n > 0 then n else 0
  }

  /**
   * Walking the waiting streams before anything is sent: each takes what its window and the connection window
   * left for it allow, and the first body that fits breaks the iteration. The result is the connection window
   * left over and the streams that are not reached.
   */
  function Visit(connectionWindow: int, windows: map<nat, int>, waiting: map<nat, Bytes>, todo: seq<nat>): (int, seq<nat>)
    requires forall x :: x in todo ==> x in windows && x in waiting
  {
    if todo == [] then (connectionWindow, [])
    else
      var allowed := Allowance(connectionWindow, windows[todo[0]]);
      var size := |waiting[todo[0]]|;
      if size <= allowed then (connectionWindow - size, todo[1..])
      else Visit(connectionWindow - allowed, windows, waiting, todo[1..])
  }

  lemma {:induction false} VisitFrame(connectionWindow: int, windows: map<nat, int>, waiting: map<nat, Bytes>,
                                      otherWindows: map<nat, int>, otherWaiting: map<nat, Bytes>, todo: seq<nat>)
    requires forall x :: x in todo ==> x in windows && x in waiting
    requires forall x :: x in todo ==> x in otherWindows && otherWindows[x] == windows[x]
    requires forall x :: x in todo ==> x in otherWaiting && otherWaiting[x] == waiting[x]
    ensures Visit(connectionWindow, windows, waiting, todo) == Visit(connectionWindow, otherWindows, otherWaiting, todo)
  {
    if todo != [] {
      var allowed := Allowance(connectionWindow, windows[todo[0]]);
      VisitFrame(connectionWindow - allowed, windows, waiting, otherWindows, otherWaiting, todo[1..]);
    }
  }

  lemma SendWindows(s: State, stream: nat, data: Bytes)
    requires CanSend(s, stream)
    ensures var t, n := SendData(s, stream, data), Quota(s.h2, stream, data);
            && t.h2.connectionWindow == s.h2.connectionWindow - n
            && t.h2.streamWindow == s.h2.streamWindow[stream := s.h2.streamWindow[stream] - n]
            && (stream in t.waiting <==> n < |data|)
  {
  }

  /** A flush leaves a stream it does not list alone, and never enlarges the connection window. */
  lemma {:induction false} FlushKeepsOthers(s: State, todo: seq<nat>, stream: nat)
    requires Ready(s, todo) && stream !in todo
    ensures var t := Flush(s, todo).0;
            && t.h2.connectionWindow <= s.h2.connectionWindow
            && (stream in t.waiting <==> stream in s.waiting)
            && (stream in s.h2.streamWindow ==>
                stream in t.h2.streamWindow && t.h2.streamWindow[stream] == s.h2.streamWindow[stream])
    decreases |todo|
  {
    if todo != [] {
      var t := SendData(s, todo[0], s.waiting[todo[0]]);
      RestStaysReady(s, todo);
      SendOthers(s, todo[0], s.waiting[todo[0]]);
      SendWindows(s, todo[0], s.waiting[todo[0]]);
      if !(todo[0] !in t.waiting && |todo| > 1) {
        FlushKeepsOthers(t, todo[1..], stream);
      }
    }
  }

  lemma ReadyWindows(s: State, todo: seq<nat>)
    requires Ready(s, todo)
    ensures forall x :: x in todo ==> x in s.h2.streamWindow && x in s.waiting
  {
  }

  /** The first send leaves the windows and bodies of the rest alone. */
  lemma RestKeepsWindows(s: State, todo: seq<nat>)
    requires Ready(s, todo) && todo != []
    ensures var t := SendData(s, todo[0], s.waiting[todo[0]]);
            forall x :: x in todo[1..] ==>
              && x in s.waiting && x in t.waiting && t.waiting[x] == s.waiting[x]
              && x in s.h2.streamWindow && x in t.h2.streamWindow && t.h2.streamWindow[x] == s.h2.streamWindow[x]
  {
    assert forall x :: x in todo[1..] ==> x in todo && x != todo[0];
    SendOthers(s, todo[0], s.waiting[todo[0]]);
    SendWindows(s, todo[0], s.waiting[todo[0]]);
  }

  /** After the first send, the walk over the rest is the same walk with what the connection window has left. */
  lemma VisitStep(s: State, todo: seq<nat>)
    requires Ready(s, todo) && todo != []
    ensures forall x :: x in todo ==> x in s.h2.streamWindow && x in s.waiting
    ensures var t := SendData(s, todo[0], s.waiting[todo[0]]);
            && (forall x :: x in todo[1..] ==> x in t.h2.streamWindow && x in t.waiting)
            && (forall x :: x in todo[1..] ==> t.h2.streamWindow[x] == s.h2.streamWindow[x])
            && Visit(s.h2.connectionWindow, s.h2.streamWindow, s.waiting, todo) ==
               if todo[0] !in t.waiting then (t.h2.connectionWindow, todo[1..])
               else Visit(t.h2.connectionWindow, t.h2.streamWindow, t.waiting, todo[1..])
  {
    var next, rest := todo[0], todo[1..];
    var t := SendData(s, next, s.waiting[next]);
    ReadyWindows(s, todo);
    RestKeepsWindows(s, todo);
    SendWindows(s, next, s.waiting[next]);
    if next in t.waiting {
      VisitFrame(t.h2.connectionWindow, s.h2.streamWindow, s.waiting, t.h2.streamWindow, t.waiting, rest);
    }
  }

  /** What a flush leaves, in terms of the walk: the connection window, and the streams not reached untouched. */
  lemma {:induction false} FlushVisits(s: State, todo: seq<nat>)
    requires Ready(s, todo)
    ensures forall x :: x in todo ==> x in s.h2.streamWindow && x in s.waiting
    ensures var (left, unreached) := Visit(s.h2.connectionWindow, s.h2.streamWindow, s.waiting, todo);
            var (t, raised) := Flush(s, todo);
            && (raised <==> unreached != [])
            && t.h2.connectionWindow == left
            && (forall x :: x in unreached ==> x in todo && x in t.waiting && x in t.h2.streamWindow)
            && (forall x :: x in unreached ==> t.h2.streamWindow[x] == s.h2.streamWindow[x])
    decreases |todo|
  {
    ReadyWindows(s, todo);
    if todo != [] {
      var next, rest := todo[0], todo[1..];
      var t := SendData(s, next, s.waiting[next]);
      VisitStep(s, todo);
      RestStaysReady(s, todo);
      if next in t.waiting {
        FlushVisits(t, rest);
      }
    }
  }

  /**
   * A connection-wide flush raises exactly when the walk over windows and bodies before the call leaves a stream
   * unreached: some body other than the last one fits as a whole. Such a body is drained.
   */
  lemma {:induction false} FlushRaisesIff(s: State, todo: seq<nat>)
    requires Ready(s, todo)
    ensures forall x :: x in todo ==> x in s.h2.streamWindow && x in s.waiting
    ensures Flush(s, todo).1 <==> Visit(s.h2.connectionWindow, s.h2.streamWindow, s.waiting, todo).1 != []
    ensures Flush(s, todo).1 <==> exists i :: 0 <= i < |todo| - 1 && todo[i] !in Flush(s, todo).0.waiting
    decreases |todo|
  {
    FlushVisits(s, todo);
    if todo != [] {
      var next, rest := todo[0], todo[1..];
      var t := SendData(s, next, s.waiting[next]);
      RestStaysReady(s, todo);
      if next !in t.waiting && |todo| > 1 {
        assert todo[0] !in Flush(s, todo).0.waiting;
      } else {
        FlushRaisesIff(t, rest);
        FlushKeepsOthers(t, rest, next);
        var u := Flush(t, rest).0;
        assert forall i :: 0 <= i < |rest| ==> todo[i + 1] == rest[i];
        if i :| 0 <= i < |todo| - 1 && todo[i] !in u.waiting {
          if i > 0 {
            assert rest[i - 1] !in u.waiting;
          }
        }
      }
    }
  }

  /** The waiting streams in order, which the handler of a window update may all send on. */
  lemma OrderIsReady(s: State)
    requires forall x :: x in s.waiting ==> CanSend(s, x)
    requires NoDuplicates(s.order) && Elements(s.order) == s.waiting.Keys
    ensures Ready(s, s.order) && forall x :: x in s.order <==> x in s.waiting
    ensures forall x :: x in s.order ==> x in s.h2.streamWindow
    ensures s.waiting == map[] ==> s.order == []
    ensures 0 !in s.waiting
  {
    assert forall x :: x in s.order <==> x in Elements(s.order);
    if s.order != [] {
      assert s.order[0] in s.waiting;
    }
  }

  /** The handler raises exactly for a connection-wide update whose walk leaves a stream unreached. */
  lemma WindowUpdateRaisesIff(s: State, stream: nat)
    requires forall x :: x in s.waiting ==> CanSend(s, x)
    requires NoDuplicates(s.order) && Elements(s.order) == s.waiting.Keys
    ensures forall x :: x in s.order ==> x in s.h2.streamWindow && x in s.waiting
    ensures OnWindowUpdate(s, stream).1 <==>
              stream == 0 && Visit(s.h2.connectionWindow, s.h2.streamWindow, s.waiting, s.order).1 != []
  {
    OrderIsReady(s);
    FlushVisits(s, s.order);
  }

  // ----- Bodies that wait although their window is open -----

  ghost predicate Stalled(s: State, stream: nat) {
    stream in s.waiting && stream in s.h2.streamWindow && Window(s.h2, stream) > 0
  }

  ghost predicate NoneStalled(s: State) {
    forall x :: !Stalled(s, x)
  }

  /** After a flush, exactly the unreached streams with an open window are stalled. */
  lemma {:induction false} FlushStallsIff(s: State, todo: seq<nat>, x: nat)
    requires Ready(s, todo) && x in todo
    ensures forall y :: y in todo ==> y in s.h2.streamWindow && y in s.waiting
    ensures var (left, unreached) := Visit(s.h2.connectionWindow, s.h2.streamWindow, s.waiting, todo);
            Stalled(Flush(s, todo).0, x) <==> x in unreached && Allowance(left, s.h2.streamWindow[x]) > 0
    decreases |todo|
  {
    var next, rest := todo[0], todo[1..];
    var t := SendData(s, next, s.waiting[next]);
    FlushVisits(s, todo);
    VisitStep(s, todo);
    RestStaysReady(s, todo);
    if next in t.waiting {
      if x == next {
        SendDataEffect(s, next, s.waiting[next]);
        FlushKeepsOthers(t, rest, next);
        FlushVisits(t, rest);
      } else {
        FlushStallsIff(t, rest, x);
      }
    }
  }

  /** A walk over all that waits leaves a stream unreached for which there is window. */
  ghost predicate BreaksOffOpen(t: State)
    requires forall x :: x in t.waiting ==> CanSend(t, x)
    requires NoDuplicates(t.order) && Elements(t.order) == t.waiting.Keys
  {
    OrderIsReady(t);
    var (left, unreached) := Visit(t.h2.connectionWindow, t.h2.streamWindow, t.waiting, t.order);
    exists y :: y in unreached && y in t.h2.streamWindow && Allowance(left, t.h2.streamWindow[y]) > 0
  }

  /** Exactly the steps after which some body waits behind an open window, judged before the step. */
  ghost predicate Stalls(s: State, step: Step)
    requires forall x :: x in s.waiting ==> CanSend(s, x)
    requires NoDuplicates(s.order) && Elements(s.order) == s.waiting.Keys
  {
    OrderIsReady(s);
    match step
    case SettingsWindow(x, delta) =>
      x in s.waiting && Allowance(s.h2.connectionWindow, s.h2.streamWindow[x] + delta) > 0
    case WindowUpdate(x, n) =>
      var t := s.(h2 := s.h2.(connectionWindow := s.h2.connectionWindow + n));
      assert forall y :: y in t.waiting ==> CanSend(t, y);
      x == 0 && BreaksOffOpen(t)
    case _ => false
  }

  lemma ConservedReady(s: State, bodies: map<nat, Bytes>)
    requires Conserved(s, bodies)
    ensures forall x :: x in s.waiting ==> CanSend(s, x)
  {
    assert forall x :: x in s.waiting ==> StreamConserved(s, x, bodies[x]);
  }

  /** Sending on one stream stalls nothing. */
  lemma SendStallsNothing(s: State, stream: nat, data: Bytes, x: nat)
    requires CanSend(s, stream) && (x == stream || !Stalled(s, x))
    ensures !Stalled(SendData(s, stream, data), x)
  {
    SendDataEffect(s, stream, data);
    SendOthers(s, stream, data);
    SendWindows(s, stream, data);
  }

  /** An update for one stream stalls nothing. */
  lemma StreamUpdateStallsNothing(s: State, stream: nat, n: nat, x: nat)
    requires forall y :: y in s.waiting ==> CanSend(s, y)
    requires NoDuplicates(s.order) && Elements(s.order) == s.waiting.Keys
    requires stream > 0 && !Stalled(s, x)
    ensures var t := s.(h2 := AddWindow(s.h2, stream, n));
            (forall y :: y in t.waiting ==> CanSend(t, y)) && !Stalled(OnWindowUpdate(t, stream).0, x)
  {
    var t := s.(h2 := AddWindow(s.h2, stream, n));
    assert forall y :: y in t.waiting ==> CanSend(t, y);
    if stream in t.waiting {
      SendStallsNothing(t, stream, t.waiting[stream], x);
    }
  }

  /** The connection-wide case, on the state with the enlarged window. */
  lemma FlushUpdateStalls(t: State)
    requires forall x :: x in t.waiting ==> CanSend(t, x)
    requires NoDuplicates(t.order) && Elements(t.order) == t.waiting.Keys
    ensures Ready(t, t.order) && (NoneStalled(Flush(t, t.order).0) <==> !BreaksOffOpen(t))
  {
    OrderIsReady(t);
    FlushVisits(t, t.order);
    var (left, unreached) := Visit(t.h2.connectionWindow, t.h2.streamWindow, t.waiting, t.order);
    var u := Flush(t, t.order).0;
    forall x ensures Stalled(u, x) <==> x in unreached && x in t.h2.streamWindow && Allowance(left, t.h2.streamWindow[x]) > 0 {
      if x in t.order {
        FlushStallsIff(t, t.order, x);
      } else {
        FlushKeepsOthers(t, t.order, x);
      }
    }
  }

  lemma RequestStallsNothing(s: State, body: Bytes, initialWindow: int)
    requires ValidH2(s.h2) && NoneStalled(s) && s.h2.nextStream + 1 !in s.h2.frames && s.h2.nextStream + 1 !in s.h2.ended
    requires s.waiting.Keys <= s.h2.streamWindow.Keys
    ensures NoneStalled(SendRequest(s, body, initialWindow))
  {
    var stream := s.h2.nextStream + 1;
    var ready := s.(h2 := OpenStream(s.h2, initialWindow));
    forall x ensures !Stalled(SendData(ready, stream, body), x) {
      assert !Stalled(s, x);
      SendStallsNothing(ready, stream, body, x);
    }
  }

  lemma SettingsStallIff(s: State, stream: nat, delta: int)
    requires NoneStalled(s) && stream in s.h2.streamWindow && stream > 0
    ensures NoneStalled(s.(h2 := AddWindow(s.h2, stream, delta))) <==>
              !(stream in s.waiting && Allowance(s.h2.connectionWindow, s.h2.streamWindow[stream] + delta) > 0)
  {
    var t := s.(h2 := AddWindow(s.h2, stream, delta));
    forall y | y != stream ensures !Stalled(t, y) {
      assert !Stalled(s, y);
    }
    assert Stalled(t, stream) <==>
        stream in s.waiting && Allowance(s.h2.connectionWindow, s.h2.streamWindow[stream] + delta) > 0;
  }

  /** A connection-wide update is a flush of everything that waits. */
  lemma ConnectionUpdateFlushes(t: State)
    requires forall x :: x in t.waiting ==> CanSend(t, x)
    requires NoDuplicates(t.order) && Elements(t.order) == t.waiting.Keys
    ensures Ready(t, t.order) && OnWindowUpdate(t, 0) == Flush(t, t.order)
  {
    OrderIsReady(t);
  }

  lemma ConnectionUpdateStallsIff(s: State, n: nat)
    requires forall x :: x in s.waiting ==> CanSend(s, x)
    requires NoDuplicates(s.order) && Elements(s.order) == s.waiting.Keys
    ensures var t := s.(h2 := AddWindow(s.h2, 0, n));
            && (forall x :: x in t.waiting ==> CanSend(t, x))
            && (NoneStalled(OnWindowUpdate(t, 0).0) <==> !Stalls(s, WindowUpdate(0, n)))
  {
    var t := s.(h2 := AddWindow(s.h2, 0, n));
    assert forall y :: y in t.waiting ==> CanSend(t, y);
    ConnectionUpdateFlushes(t);
    FlushUpdateStalls(t);
  }

  lemma UpdateStallsIff(s: State, stream: nat, n: nat)
    requires forall x :: x in s.waiting ==> CanSend(s, x)
    requires NoDuplicates(s.order) && Elements(s.order) == s.waiting.Keys
    requires NoneStalled(s)
    ensures var t := s.(h2 := AddWindow(s.h2, stream, n));
            && (forall x :: x in t.waiting ==> CanSend(t, x))
            && (NoneStalled(OnWindowUpdate(t, stream).0) <==> !Stalls(s, WindowUpdate(stream, n)))
  {
    if stream == 0 {
      ConnectionUpdateStallsIff(s, n);
    } else {
      var t := s.(h2 := AddWindow(s.h2, stream, n));
      assert forall y :: y in t.waiting ==> CanSend(t, y);
      forall y ensures !Stalled(OnWindowUpdate(t, stream).0, y) {
        StreamUpdateStallsNothing(s, stream, n, y);
      }
    }
  }

  /**
   * From a state in which no body waits behind an open window, a step leads to one again unless settings enlarge
   * the window of a waiting stream, or a connection-wide update breaks off with window left for an unreached stream.
   */
  lemma StepStallsIff(s: State, bodies: map<nat, Bytes>, step: Step)
    requires Conserved(s, bodies) && NoneStalled(s)
    ensures forall x :: x in s.waiting ==> CanSend(s, x)
    ensures NoneStalled(Apply(s, bodies, step).0) <==> !Stalls(s, step)
  {
    ConservedReady(s, bodies);
    match step
    case Request(body, w) => RequestStallsNothing(s, body, w);
    case SettingsWindow(x, delta) =>
      OrderIsReady(s);
      if x in s.h2.streamWindow {
        SettingsStallIff(s, x, delta);
      }
    case SettingsFrameSize(limit) =>
      forall x ensures !Stalled(Apply(s, bodies, step).0, x) {
        assert !Stalled(s, x);
      }
    case WindowUpdate(x, n) => UpdateStallsIff(s, x, n);
  }

  /** A body that finds no window waits as a whole. */
  lemma RequestWaits(s: State, body: Bytes, initialWindow: int)
    requires ValidH2(s.h2) && body != [] && s.h2.connectionWindow == 0
    requires s.h2.nextStream + 1 !in s.waiting
    ensures var stream := s.h2.nextStream + 1;
            SendRequest(s, body, initialWindow) ==
              State(OpenStream(s.h2, initialWindow), s.waiting[stream := body], s.order + [stream])
  {
    var stream := s.h2.nextStream + 1;
    var h := OpenStream(s.h2, initialWindow);
    ChargeTwice(h, stream, [], 0, [], 0);
    assert h.frames[stream] + [] == h.frames[stream];
  }

  /** Two bodies wait for connection window. */
  lemma TwoBodiesWait() returns (start: H2, steps: seq<Step>)
    ensures Fresh(start)
    ensures Run(start, steps).0 ==
              State(H2(4, map[1 := 10, 3 := 10], 0, 4, map[1 := [], 3 := []], {}), map[1 := [0], 3 := [0]], [1, 3])
  {
    start := H2(0, map[], 0, 4, map[], {});
    var request := Request([0], 10);
    assert [request][..0] == [];
    RequestWaits(State(start, map[], []), [0], 10);
    var a := Run(start, [request]).0;
    assert Run(start, []).0 == State(start, map[], []);
    assert a == SendRequest(State(start, map[], []), [0], 10);
    assert a == State(H2(2, map[1 := 10], 0, 4, map[1 := []], {}), map[1 := [0]], [1]);
    steps := [request, request];
    assert steps[..1] == [request];
    RequestWaits(a, [0], 10);
  }

  /** Two waiting one-byte bodies, once the connection window was opened for them. */
  const OPENED := State(H2(4, map[1 := 10, 3 := 10], 5, 4, map[1 := [], 3 := []], {}), map[1 := [0], 3 := [0]], [1, 3])

  lemma OpenedRaises()
    ensures forall x :: x in OPENED.waiting ==> CanSend(OPENED, x)
    ensures NoDuplicates(OPENED.order) && Elements(OPENED.order) == OPENED.waiting.Keys
    ensures OnWindowUpdate(OPENED, 0).1 && Stalled(OnWindowUpdate(OPENED, 0).0, 3)
  {
    assert Elements(OPENED.order) == OPENED.waiting.Keys;
    OrderIsReady(OPENED);
    WindowUpdateRaisesIff(OPENED, 0);
    assert Visit(5, OPENED.h2.streamWindow, OPENED.waiting, [1, 3]) == (4, [3]);
    FlushStallsIff(OPENED, OPENED.order, 3);
  }

  /** An update that opens the connection window for them sends the first body, raises, and stalls the second. */
  lemma UpdateCanRaise() returns (start: H2, steps: seq<Step>)
    ensures Fresh(start) && NoneStalled(Run(start, steps).0)
    ensures var s := Run(start, steps).0;
            var enlarged := s.(h2 := AddWindow(s.h2, 0, 5));
            && enlarged == OPENED
            && (forall x :: x in enlarged.waiting ==> CanSend(enlarged, x))
            && OnWindowUpdate(enlarged, 0).1
            && Stalled(OnWindowUpdate(enlarged, 0).0, 3)
  {
    start, steps := TwoBodiesWait();
    OpenedRaises();
  }
}
