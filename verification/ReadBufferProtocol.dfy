/**
 The voice-UI client composed with the server session: one application thread in
 pa_qst_read_buffer, one dispatcher thread in on_read_buffer_available_event, and between them and
 `ReadBufferServer` the requests one way and the signals the other. D-Bus delivers in order, so the
 signals under way are the part of the server's log that the dispatcher has not processed; a request
 whose call has failed on the client's side may still be under way.
*/
module ReadBufferProtocol {
  import opened Wrappers
  import Server = ReadBufferServer

  type Bytes = Server.Bytes

  datatype ReaderPc = NotReading | Calling(last: nat) | Awaiting(last: nat)

  /** `Storing` is between the handler's check-and-copy and its unlocked write of the sequence. */
  datatype DispatcherPc = Listening | Storing(seqno: nat)

  /**
   A read that returned data: the signal it came from, the signals processed before it began,
   the buffer, and the count returned; its own number, and the signals sent before it was accepted.
  */
  datatype Delivery = Delivery(
    source: nat,
    since: nat,
    requested: nat,
    buffer: Bytes,
    count: nat,
    id: nat,
    sentBefore: nat)

  /**
   `source` is the number of the signal last copied into the present buffer; `readId` is the number of the
   present read, or the last one, and `size` what it asked for.
  */
  datatype ClientFields = Client(
    reader: ReaderPc,
    dispatcher: DispatcherPc,
    buffer: Bytes,
    requested: nat,
    received: nat,
    sequence: nat,
    processed: nat,
    source: nat,
    since: nat,
    deliveries: seq<Delivery>,
    readId: nat,
    size: nat)

  /** The reader sets and clears the buffer and its size together. */
  type Client = c: ClientFields | |c.buffer| == c.requested
    witness Client(NotReading, Listening, [], 0, 0, 0, 0, 0, 0, [], 0, 0)

  /** A RequestReadBuffer call of the client: the number of the read it is for, and its size. */
  datatype Request = Request(id: nat, bytes: nat)

  /**
   Requests under way, the one in the server's handler, and those accepted; `reply` is the answer to the
   present read's call, and `sentBefore` what had been sent when the last read was accepted.
  */
  datatype Wire = Wire(
    inbox: seq<Request>,
    serving: Option<Request>,
    accepts: seq<Request>,
    sentBefore: nat,
    reply: bool)

  datatype System = System(server: Server.Session, client: Client, wire: Wire)

  datatype Action =
    | ServerStep(a: Server.Action)
    | Begin(bytes: nat)
    | CallReturned(ok: bool)
    | GiveUp
    | Take
    | Copy
    | Store

  predicate Fresh(s: System) {
    && Server.Fresh(s.server)
    && s.client == Client(NotReading, Listening, [], 0, 0, 0, 0, 0, 0, [], 0, 0)
    && s.wire == Wire([], None, [], 0, false)
  }

  predicate Enabled(s: System, a: Action) {
    var c := s.client;
    match a
    case ServerStep(b) =>
      && Server.Enabled(s.server, b)
      && (b.Request? ==> s.wire.inbox != [] && s.wire.inbox[0].bytes == b.bytes)
    case Begin(_) => c.reader.NotReading?
    case CallReturned(ok) => c.reader.Calling? && (ok ==> s.wire.reply)
    case GiveUp => c.reader.Awaiting? && (c.sequence == c.reader.last || c.received == 0)
    case Take => c.reader.Awaiting? && c.sequence != c.reader.last && c.received != 0
    case Copy => c.dispatcher.Listening? && c.processed < |s.server.emitted|
    case Store => c.dispatcher.Storing?
  }

  function Min(a: nat, b: nat): nat {
    if a < b then a else b
  }

  /** The handler's memscpy: at most the requested number of bytes, over what the buffer held. */
  function CopyInto(buffer: Bytes, requested: nat, data: Bytes): Bytes
    requires |buffer| == requested
  {
    data[..Min(requested, |data|)] + buffer[Min(requested, |data|)..]
  }

  /** The check and the copy of on_read_buffer_available_event. */
  function CopySignal(c: Client, sig: Server.Signal): Client
  {
    var d := c.(processed := c.processed + 1, dispatcher := Storing(sig.seqno));
    if c.requested == 0 || sig.status < 0 then d
    else if sig.data == [] then d.(received := 0)
    else d.(buffer := CopyInto(c.buffer, c.requested, sig.data), received := |sig.data|, source := sig.seqno)
  }

  function StepClient(s: System, a: Action): Client
    requires !a.ServerStep? && Enabled(s, a)
  {
    var c := s.client;
    match a
    case Begin(bytes) =>
      c.(reader := Calling(c.sequence), buffer := seq(bytes, _ => 0), requested := bytes, received := 0, source := 0,
         since := c.processed, readId := c.readId + 1, size := bytes)
    case CallReturned(ok) => c.(reader := if ok then Awaiting(c.reader.last) else NotReading)
    case GiveUp => c.(reader := NotReading)
    case Take =>
      c.(reader := NotReading, buffer := [], requested := 0,
         deliveries := c.deliveries + [Delivery(
           c.source, c.since, c.requested, c.buffer, c.received, c.readId, s.wire.sentBefore)])
    case Copy => CopySignal(c, s.server.emitted[c.processed])
    case Store => c.(dispatcher := Listening, sequence := c.dispatcher.seqno)
  }

  /** The handler of requests refuses a read of nothing, or while the session is not idle. */
  predicate Refuses(s: Server.Session) {
    s.main.ReqTest? && (s.main.bytes == 0 || s.state != Server.Idle)
  }

  /** What a step of the server means for the requests; `current` is the present read. */
  function Serve(w: Wire, s: Server.Session, b: Server.Action, current: nat): Wire {
    if b.Request? && w.inbox != [] then w.(serving := Some(w.inbox[0]), inbox := w.inbox[1..])
    else if !b.MainStep? || w.serving.None? then w
    else if Refuses(s) then w.(serving := None)
    else if s.main.ReqSet? then w.(accepts := w.accepts + [w.serving.value], sentBefore := |s.emitted|)
    else if s.main.ReqFinish? then w.(serving := None, reply := w.reply || w.serving.value.id == current)
    else w
  }

  function StepWire(s: System, a: Action): Wire {
    match a
    case ServerStep(b) => Serve(s.wire, s.server, b, s.client.readId)
    case Begin(bytes) => s.wire.(inbox := s.wire.inbox + [Request(s.client.readId + 1, bytes)], reply := false)
    case _ => s.wire
  }

  function Apply(s: System, a: Action): System
    requires Enabled(s, a)
  {
    if a.ServerStep? then System(Server.Apply(s.server, a.a), s.client, StepWire(s, a))
    else System(s.server, StepClient(s, a), StepWire(s, a))
  }

  predicate ValidRun(s: System, acts: seq<Action>)
    decreases |acts|
  {
    acts == [] || (Enabled(s, acts[0]) && ValidRun(Apply(s, acts[0]), acts[1..]))
  }

  function After(s: System, acts: seq<Action>): System
    requires ValidRun(s, acts)
    decreases |acts|
  {
    if acts == [] then s else After(Apply(s, acts[0]), acts[1..])
  }

  // ---------------------------------------------------------------------------

  /** Count, contents and origin of a delivery: its bytes are those of a successful signal. */
  ghost predicate Genuine(d: Delivery, log: seq<Server.Signal>) {
    && d.since < d.source <= |log|
    && log[d.source - 1].seqno == d.source
    && log[d.source - 1].status > 0
    && d.count == |log[d.source - 1].data|
    && |d.buffer| == d.requested
    && var n := Min(d.requested, d.count);
       d.buffer[..n] == log[d.source - 1].data[..n]
  }

  ghost predicate Increasing(ds: seq<Delivery>) {
    forall i, j :: 0 <= i < j < |ds| ==> ds[i].source < ds[j].source
  }

  ghost predicate ClientInv(c: Client, log: seq<Server.Signal>) {
    && c.processed <= |log|
    && c.processed == (if c.dispatcher.Storing? then c.dispatcher.seqno else c.sequence)
    && (c.dispatcher.Storing? ==> c.sequence + 1 == c.processed)
    && (!c.reader.NotReading? ==> c.reader.last <= c.sequence)
    && c.source <= c.processed && c.since <= c.processed
    && (!c.reader.NotReading? && c.received != 0 ==>
          && Genuine(Delivery(c.source, c.since, c.requested, c.buffer, c.received, c.readId, 0), log)
          && forall i :: 0 <= i < |c.deliveries| ==> c.deliveries[i].source < c.source)
    && Increasing(c.deliveries)
    && (forall i :: 0 <= i < |c.deliveries| ==>
          Genuine(c.deliveries[i], log) && c.deliveries[i].source <= c.processed)
  }

  ghost predicate Inv(s: System) {
    Server.Inv(s.server) && ClientInv(s.client, s.server.emitted)
  }

  lemma LogOnlyGrows(s: Server.Session, a: Server.Action)
    requires Server.Enabled(s, a)
    ensures s.emitted <= Server.Apply(s, a).emitted
  {
  }

  lemma CopyStep(c: Client, log: seq<Server.Signal>)
    requires ClientInv(c, log) && Server.Numbered(log)
    requires c.dispatcher.Listening? && c.processed < |log|
    ensures ClientInv(CopySignal(c, log[c.processed]), log)
  {
    var sig := log[c.processed];
    var d := CopySignal(c, sig);
    if c.requested != 0 && sig.status >= 0 && sig.data != [] {
      var n := Min(c.requested, |sig.data|);
      assert d.buffer[..n] == sig.data[..n];
    }
  }

  lemma ClientStep(s: System, a: Action)
    requires ClientInv(s.client, s.server.emitted) && Server.Numbered(s.server.emitted)
    requires Enabled(s, a) && !a.ServerStep?
    ensures ClientInv(StepClient(s, a), s.server.emitted)
  {
    if a.Copy? {
      CopyStep(s.client, s.server.emitted);
      hide CopySignal, Server.Numbered;
    }
  }

  lemma InvStep(s: System, a: Action)
    requires Inv(s) && Enabled(s, a)
    ensures Inv(Apply(s, a))
  {
    match a
    case ServerStep(b) =>
      Server.InvStep(s.server, b);
      LogOnlyGrows(s.server, b);
      hide Server.Inv, Server.Apply, Server.Enabled;
    case _ =>
      ClientStep(s, a);
      hide Server.Inv, ClientInv, StepClient;
  }

  lemma {:induction false} InvRun(s: System, acts: seq<Action>)
    requires Inv(s) && ValidRun(s, acts)
    ensures Inv(After(s, acts))
    decreases |acts|
  {
    if acts != [] {
      InvStep(s, acts[0]);
      InvRun(Apply(s, acts[0]), acts[1..]);
    }
  }

  /** n numbered signals in increasing order use up at least n numbers. */
  lemma {:induction false} SourcesCount(ds: seq<Delivery>, log: seq<Server.Signal>)
    requires Increasing(ds) && forall i :: 0 <= i < |ds| ==> Genuine(ds[i], log)
    ensures ds != [] ==> ds[|ds| - 1].source >= |ds|
    ensures |ds| <= |log|
  {
    if ds != [] {
      SourcesCount(ds[..|ds| - 1], log);
    }
  }

  /**
   Over every interleaving of reads, timeouts, deliveries and server steps: the client is never
   ahead of the server, and the reads that return data return the payloads of different signals,
   in the order in which the server sent them, none that was processed before the read began.
   So no more reads return data than the server accepted.
  */
  lemma {:induction false} DeliveriesAreDistinctAndOrdered(init: System, acts: seq<Action>)
    requires Fresh(init) && ValidRun(init, acts)
    ensures var s := After(init, acts);
            && s.client.sequence <= |s.server.emitted|
            && Increasing(s.client.deliveries)
            && |s.client.deliveries| <= s.server.answered <= s.server.accepted
            && forall i :: 0 <= i < |s.client.deliveries| ==> Genuine(s.client.deliveries[i], s.server.emitted)
  {
    InvRun(init, acts);
    var s := After(init, acts);
    SourcesCount(s.client.deliveries, s.server.emitted);
  }

  /** The server's part of a run. */
  function ServerActs(acts: seq<Action>): seq<Server.Action> {
    if acts == [] then []
    else (if acts[0].ServerStep? then [acts[0].a] else []) + ServerActs(acts[1..])
  }

  lemma {:induction false} ServerRuns(s: System, acts: seq<Action>)
    requires ValidRun(s, acts)
    ensures Server.ValidRun(s.server, ServerActs(acts))
    ensures After(s, acts).server == Server.After(s.server, ServerActs(acts))
    decreases |acts|
  {
    if acts != [] {
      var t := Apply(s, acts[0]);
      assert t.server == if acts[0].ServerStep? then Server.Apply(s.server, acts[0].a) else s.server;
      assert acts[0].ServerStep? ==> Server.Enabled(s.server, acts[0].a);
      hide Apply, Enabled, Server.Apply, Server.Enabled;
      ServerRuns(t, acts[1..]);
      assert acts[0].ServerStep? ==> ([acts[0].a] + ServerActs(acts[1..]))[1..] == ServerActs(acts[1..]);
      assert [] + ServerActs(acts[1..]) == ServerActs(acts[1..]);
    }
  }

  /**
   A read whose PAL read failed returns no data: over every interleaving, every read that returns data returns
   a signal for which PAL answered with a positive count.
  */
  lemma FailedPalReadsReturnNoData(init: System, acts: seq<Action>)
    requires Fresh(init) && ValidRun(init, acts)
    ensures Server.ValidRun(init.server, ServerActs(acts))
    ensures var ds := After(init, acts).client.deliveries;
            var answers := Server.SignalledAnswers(init.server, ServerActs(acts), 0);
            && |answers| == |After(init, acts).server.emitted|
            && forall i :: 0 <= i < |ds| ==> 1 <= ds[i].source <= |answers| && answers[ds[i].source - 1] > 0
  {
    InvRun(init, acts);
    ServerRuns(init, acts);
    Server.StatusIsPalsAnswer(init.server, ServerActs(acts));
    hide Server.Inv, After, ValidRun, Server.After, Server.ValidRun, ServerActs, Server.SignalledAnswers;
  }

  /**
   A waiting read that the next signal answers returns that signal's payload: the dispatcher's two steps
   and the reader's last one are enabled, and deliver what fits of it.
  */
  lemma AnsweredReadReturnsItsData(s: System)
    requires Inv(s) && s.client.dispatcher.Listening? && s.client.processed < |s.server.emitted|
    requires s.client.reader.Awaiting? && s.client.requested > 0
    requires var sig := s.server.emitted[s.client.processed]; sig.status > 0 && sig.data != []
    ensures ValidRun(s, [Copy, Store, Take])
    ensures var sig := s.server.emitted[s.client.processed];
            var ds := After(s, [Copy, Store, Take]).client.deliveries;
            && |ds| == |s.client.deliveries| + 1
            && var d := ds[|ds| - 1];
               d.source == sig.seqno && d.count == |sig.data|
               && d.buffer[..Min(d.requested, d.count)] == sig.data[..Min(d.requested, d.count)]
               && d.requested == s.client.requested
  {
    var sig := s.server.emitted[s.client.processed];
    assert sig.seqno == s.client.processed + 1 && s.client.reader.last <= s.client.sequence == s.client.processed;
    hide Inv, Server.Inv, ClientInv, Server.Apply, ValidRun, After;
    var s1 := Apply(s, Copy);
    var s2 := Apply(s1, Store);
    var s3 := Apply(s2, Take);
    assert Enabled(s1, Store) && Enabled(s2, Take);
    assert |s3.client.deliveries| == |s.client.deliveries| + 1;
    var d := s3.client.deliveries[|s.client.deliveries|];
    assert d.source == sig.seqno && d.count == |sig.data| && d.requested == s.client.requested;
    assert d.buffer[..Min(d.requested, d.count)] == sig.data[..Min(d.requested, d.count)];
    ThreeSteps(s, Copy, Store, Take);
  }

  lemma ThreeSteps(s: System, a: Action, b: Action, c: Action)
    requires Enabled(s, a) && Enabled(Apply(s, a), b) && Enabled(Apply(Apply(s, a), b), c)
    ensures ValidRun(s, [a, b, c]) && After(s, [a, b, c]) == Apply(Apply(Apply(s, a), b), c)
  {
    hide Enabled, Apply;
    var s1 := Apply(s, a);
    var s2 := Apply(s1, b);
    var s3 := Apply(s2, c);
    assert [a, b, c][1..] == [b, c] && [b, c][1..] == [c] && [c][1..] == [];
    assert ValidRun(s3, []) && After(s3, []) == s3;
    assert ValidRun(s2, [c]) && After(s2, [c]) == s3;
    assert ValidRun(s1, [b, c]) && After(s1, [b, c]) == s3;
  }

  // ---------------------------------------------------------------------------
  // Whose answer a read returns

  /** The requests in the order in which they were made, but for those refused. */
  function Line(s: System): seq<Request> {
    s.wire.accepts
    + (if s.wire.serving.Some? && !s.server.main.ReqFinish? then [s.wire.serving.value] else [])
    + s.wire.inbox
  }

  ghost predicate Ascending(rs: seq<Request>) {
    forall i, j :: 0 <= i < j < |rs| ==> rs[i].id < rs[j].id
  }

  /** Of requests up to the present read, the present one asks for its size. */
  ghost predicate UpTo(rs: seq<Request>, current: nat, size: nat) {
    forall i :: 0 <= i < |rs| ==> rs[i].id <= current && (rs[i].id == current ==> rs[i].bytes == size)
  }

  function Last(rs: seq<Request>): Request
    requires rs != []
  {
    rs[|rs| - 1]
  }

  /** The handler and the request it serves. */
  predicate Served(s: System) {
    match s.server.main
    case ReqTest(b) => s.wire.serving.Some? && s.wire.serving.value.bytes == b
    case ReqSet(b) => s.wire.serving.Some? && s.wire.serving.value.bytes == b
    case ReqFinish(_) => s.wire.accepts != [] && s.wire.serving == Some(Last(s.wire.accepts))
    case _ => s.wire.serving.None?
  }

  /** The present read was accepted, and no other after it. */
  predicate IsAccepted(s: System) {
    s.wire.accepts != [] && Last(s.wire.accepts).id == s.client.readId
  }

  ghost predicate RequestsInv(s: System) {
    && |s.wire.accepts| == s.server.accepted
    && Served(s)
    && Ascending(Line(s)) && UpTo(Line(s), s.client.readId, s.client.size)
    && (s.wire.accepts != [] ==> s.server.asked == Last(s.wire.accepts).bytes)
    && (s.wire.reply || s.client.reader.Awaiting? ==> IsAccepted(s))
    && (!s.client.reader.NotReading? ==> s.client.requested == s.client.size)
  }

  /** The signal answers an accepted read and says how many bytes that asked for. */
  predicate Answers(sig: Server.Signal, accepts: seq<Request>) {
    1 <= sig.read <= |accepts| && sig.asked == accepts[sig.read - 1].bytes
  }

  /** Signals sent since the last read was accepted answer it; those sent before answer others. */
  ghost predicate SignalsInv(log: seq<Server.Signal>, accepts: seq<Request>, sentBefore: nat) {
    && sentBefore <= |log|
    && (forall i :: 0 <= i < |log| ==> Answers(log[i], accepts))
    && (forall i :: 0 <= i < |log| ==> (log[i].read == |accepts| <==> i >= sentBefore))
  }

  /** The read whose answer the delivery holds. */
  function Origin(d: Delivery, log: seq<Server.Signal>, accepts: seq<Request>): Request
    requires 1 <= d.source <= |log| && Answers(log[d.source - 1], accepts)
  {
    accepts[log[d.source - 1].read - 1]
  }

  /**
   A delivery holds the answer to its own read exactly if its signal was sent after its read was accepted;
   the count is what the read answered asked for, so its own answer has the size it asked for.
  */
  ghost predicate Traced(d: Delivery, log: seq<Server.Signal>, accepts: seq<Request>) {
    && 1 <= d.source <= |log| && Answers(log[d.source - 1], accepts)
    && var r := Origin(d, log, accepts);
       && (r.id == d.id <==> d.source > d.sentBefore)
       && d.count == r.bytes
       && (r.id == d.id ==> d.requested == r.bytes)
  }

  ghost predicate OwnInv(s: System) {
    && RequestsInv(s)
    && SignalsInv(s.server.emitted, s.wire.accepts, s.wire.sentBefore)
    && forall i :: 0 <= i < |s.client.deliveries| ==> Traced(s.client.deliveries[i], s.server.emitted, s.wire.accepts)
  }

  // The requests

  lemma ServeRequests(s: System, b: Server.Action)
    requires RequestsInv(s) && Enabled(s, ServerStep(b))
    ensures RequestsInv(Apply(s, ServerStep(b)))
  {
    Server.StepShows(s.server, b);
    var t := Apply(s, ServerStep(b));
    hide Server.Apply, Server.Enabled;
    if b.Request? || (b.MainStep? && Server.InRequest(s.server.main)) {
      LineServed(s, t, b);
      if s.server.main.ReqSet? && s.wire.accepts != [] {
        ServedIsLater(s);
      }
      hide Ascending, UpTo, Line;
    } else {
      assert t.wire == s.wire;
    }
  }

  /** A request in the handler is for a later read than those accepted so far. */
  lemma ServedIsLater(s: System)
    requires RequestsInv(s) && s.server.main.ReqSet? && s.wire.accepts != []
    ensures Last(s.wire.accepts).id < s.wire.serving.value.id <= s.client.readId
  {
    var n := |s.wire.accepts|;
    assert Line(s)[n - 1] == Last(s.wire.accepts) && Line(s)[n] == s.wire.serving.value;
  }

  lemma LineServed(s: System, t: System, b: Server.Action)
    requires RequestsInv(s) && Enabled(s, ServerStep(b)) && t.client == s.client && t.wire == StepWire(s, ServerStep(b))
    requires b.Request? ==> s.server.main == Server.Ready && t.server.main == Server.ReqTest(b.bytes)
    requires b.MainStep? && s.server.main.ReqTest? ==>
      t.server.main == if Refuses(s.server) then Server.Ready else Server.ReqSet(s.server.main.bytes)
    requires b.MainStep? && s.server.main.ReqSet? ==> t.server.main == Server.ReqFinish(s.server.main.bytes)
    requires b.MainStep? && s.server.main.ReqFinish? ==> t.server.main == Server.Ready
    requires b.Request? || (b.MainStep? && Server.InRequest(s.server.main))
    ensures Ascending(Line(t)) && UpTo(Line(t), s.client.readId, s.client.size)
  {
    hide Server.Enabled, Ascending, UpTo;
    if b.MainStep? && Refuses(s.server) {
      Dropped(s.wire.accepts, s.wire.serving.value, s.wire.inbox, s.client.readId, s.client.size);
      assert s.wire.accepts + [] + s.wire.inbox == s.wire.accepts + s.wire.inbox;
    } else {
      assert Line(t) == Line(s);
    }
  }

  lemma Dropped(first: seq<Request>, r: Request, rest: seq<Request>, current: nat, size: nat)
    requires Ascending(first + [r] + rest) && UpTo(first + [r] + rest, current, size)
    ensures Ascending(first + rest) && UpTo(first + rest, current, size)
  {
    var all := first + [r] + rest;
    forall i, j | 0 <= i < j < |first + rest|
      ensures (first + rest)[i].id < (first + rest)[j].id
    {
      var k, l := if i < |first| then i else i + 1, if j < |first| then j else j + 1;
      assert all[k] == (first + rest)[i] && all[l] == (first + rest)[j];
    }
    forall i | 0 <= i < |first + rest|
      ensures (first + rest)[i].id <= current && ((first + rest)[i].id == current ==> (first + rest)[i].bytes == size)
    {
      var k := if i < |first| then i else i + 1;
      assert all[k] == (first + rest)[i];
    }
  }

  lemma Joins(line: seq<Request>, current: nat, size: nat, bytes: nat)
    requires Ascending(line) && UpTo(line, current, size)
    ensures var more := line + [Request(current + 1, bytes)];
      Ascending(more) && UpTo(more, current + 1, bytes)
  {
  }

  lemma ClientRequests(s: System, a: Action)
    requires RequestsInv(s) && Enabled(s, a) && !a.ServerStep?
    ensures RequestsInv(Apply(s, a))
  {
    hide Ascending, UpTo;
    var t := Apply(s, a);
    if a.Begin? {
      Joins(Line(s), s.client.readId, s.client.size, a.bytes);
      assert Line(t) == Line(s) + [Request(s.client.readId + 1, a.bytes)];
    } else {
      assert Line(t) == Line(s);
    }
  }

  // The signals

  lemma SignalSent(log: seq<Server.Signal>, accepts: seq<Request>, sentBefore: nat, sig: Server.Signal)
    requires SignalsInv(log, accepts, sentBefore) && accepts != []
    requires sig.read == |accepts| && sig.asked == Last(accepts).bytes
    ensures SignalsInv(log + [sig], accepts, sentBefore)
  {
  }

  lemma ReadAccepted(log: seq<Server.Signal>, accepts: seq<Request>, sentBefore: nat, r: Request)
    requires SignalsInv(log, accepts, sentBefore)
    ensures SignalsInv(log, accepts + [r], |log|)
  {
    assert forall i :: 0 <= i < |log| ==> Answers(log[i], accepts);
  }

  lemma ServeSignals(s: System, b: Server.Action)
    requires Server.Inv(s.server) && RequestsInv(s) && Enabled(s, ServerStep(b))
    requires SignalsInv(s.server.emitted, s.wire.accepts, s.wire.sentBefore)
    ensures var t := Apply(s, ServerStep(b));
      && SignalsInv(t.server.emitted, t.wire.accepts, t.wire.sentBefore)
      && s.server.emitted <= t.server.emitted && s.wire.accepts <= t.wire.accepts
  {
    Server.StepShows(s.server, b);
    var t := Apply(s, ServerStep(b));
    if t.server.emitted != s.server.emitted {
      assert s.server.accepted >= 1;
      SignalSent(s.server.emitted, s.wire.accepts, s.wire.sentBefore, t.server.emitted[|s.server.emitted|]);
      assert t.wire.accepts == s.wire.accepts && t.wire.sentBefore == s.wire.sentBefore;
    } else if t.wire.accepts != s.wire.accepts {
      ReadAccepted(s.server.emitted, s.wire.accepts, s.wire.sentBefore, s.wire.serving.value);
    }
    hide Server.Apply, Server.Enabled, Server.Inv, SignalsInv, RequestsInv;
  }

  // The deliveries

  lemma TracedStays(d: Delivery, log: seq<Server.Signal>, more: seq<Server.Signal>, accepts: seq<Request>,
                    moreAccepts: seq<Request>)
    requires Traced(d, log, accepts) && log <= more && accepts <= moreAccepts
    ensures Traced(d, more, moreAccepts)
  {
    assert more[d.source - 1] == log[d.source - 1];
    var read := log[d.source - 1].read;
    assert moreAccepts[read - 1] == accepts[read - 1];
  }

  /** An accepted request is the present read's exactly if it is the last one. */
  lemma PresentIsLast(s: System, read: nat)
    requires RequestsInv(s) && IsAccepted(s) && 1 <= read <= |s.wire.accepts|
    ensures s.wire.accepts[read - 1].id == s.client.readId <==> read == |s.wire.accepts|
    ensures Last(s.wire.accepts).bytes == s.client.size
  {
    var n := |s.wire.accepts|;
    assert Line(s)[n - 1] == Last(s.wire.accepts) && Line(s)[read - 1] == s.wire.accepts[read - 1];
  }

  lemma TakeTraced(s: System)
    requires Inv(s) && OwnInv(s) && Enabled(s, Take)
    ensures var ds := Apply(s, Take).client.deliveries;
      |ds| == |s.client.deliveries| + 1 && ds[..|ds| - 1] == s.client.deliveries
      && Traced(ds[|ds| - 1], s.server.emitted, s.wire.accepts)
  {
    var c := s.client;
    var sig := s.server.emitted[c.source - 1];
    assert Answers(sig, s.wire.accepts);
    PresentIsLast(s, sig.read);
    assert |sig.data| == sig.asked;
    hide Ascending, UpTo, Line, Server.Inv;
  }

  lemma OwnStep(s: System, a: Action)
    requires Inv(s) && OwnInv(s) && Enabled(s, a)
    ensures OwnInv(Apply(s, a))
  {
    var t := Apply(s, a);
    if a.ServerStep? {
      ServeRequests(s, a.a);
      ServeSignals(s, a.a);
      forall i | 0 <= i < |t.client.deliveries|
        ensures Traced(t.client.deliveries[i], t.server.emitted, t.wire.accepts)
      {
        TracedStays(s.client.deliveries[i], s.server.emitted, t.server.emitted, s.wire.accepts, t.wire.accepts);
      }
    } else {
      ClientRequests(s, a);
      if a.Take? {
        TakeTraced(s);
        forall i | 0 <= i < |t.client.deliveries| - 1
          ensures t.client.deliveries[i] == s.client.deliveries[i]
        {
          assert t.client.deliveries[..|t.client.deliveries| - 1][i] == s.client.deliveries[i];
        }
      } else {
        assert t.client.deliveries == s.client.deliveries;
      }
    }
    hide Server.Apply, Server.Enabled, RequestsInv, SignalsInv, Traced, Inv;
  }

  lemma {:induction false} OwnRun(s: System, acts: seq<Action>)
    requires Inv(s) && OwnInv(s) && ValidRun(s, acts)
    ensures Inv(After(s, acts)) && OwnInv(After(s, acts))
    decreases |acts|
  {
    if acts != [] {
      InvStep(s, acts[0]);
      OwnStep(s, acts[0]);
      hide Inv, OwnInv, Apply, Enabled;
      OwnRun(Apply(s, acts[0]), acts[1..]);
    }
  }

  /**
   Over every interleaving: a read that returns data returns the answer to an accepted read, with the count
   that read asked for. It is the answer to its own request if and only if the signal was sent after the server
   accepted that request, and then the count is the size it asked for; otherwise the count is another read's
   and need not fit.
  */
  lemma OwnAnswerExactlyIf(init: System, acts: seq<Action>)
    requires Fresh(init) && ValidRun(init, acts)
    ensures var s := After(init, acts);
      forall i :: 0 <= i < |s.client.deliveries| ==> Traced(s.client.deliveries[i], s.server.emitted, s.wire.accepts)
  {
    FreshOwn(init);
    OwnRun(init, acts);
    hide Traced, RequestsInv, SignalsInv, Inv, After, ValidRun;
  }

  lemma FreshOwn(init: System)
    requires Fresh(init)
    ensures Inv(init) && OwnInv(init)
  {
  }

  /** Nothing is under way: no signal to process, no request on its way or in the handler, no read to answer. */
  predicate Quiet(s: System) {
    && s.client.reader.NotReading? && s.client.processed == |s.server.emitted|
    && s.wire.inbox == [] && s.wire.serving.None? && Server.Pending(s.server) == 0
  }

  /** Of the requests under way all are the present read's. */
  predicate OnlyPresent(s: System) {
    && (forall i :: 0 <= i < |s.wire.inbox| ==> s.wire.inbox[i].id == s.client.readId)
    && (s.wire.serving.Some? ==> s.wire.serving.value.id == s.client.readId)
  }

  /** A read begun when `base` signals had been sent, with nothing under way. */
  predicate Undisturbed(s: System, base: nat) {
    && s.client.since == base
    && if IsAccepted(s) then s.wire.sentBefore == base
       else OnlyPresent(s) && |s.server.emitted| == base && Server.Pending(s.server) == 0
  }

  lemma BeginUndisturbed(s: System, bytes: nat)
    requires OwnInv(s) && Quiet(s)
    ensures Undisturbed(Apply(s, Begin(bytes)), |s.server.emitted|)
  {
    if s.wire.accepts != [] {
      assert Line(s)[|s.wire.accepts| - 1] == Last(s.wire.accepts);
    }
  }

  lemma ServerUndisturbed(s: System, b: Server.Action, base: nat)
    requires Inv(s) && OwnInv(s) && Undisturbed(s, base) && Enabled(s, ServerStep(b))
    ensures Undisturbed(Apply(s, ServerStep(b)), base)
  {
    var t := Apply(s, ServerStep(b));
    Server.StepShows(s.server, b);
    if b.AsyncStep? && s.server.async.Emitting? {
      assert t.wire == s.wire && IsAccepted(s);
    } else {
      Server.NothingElseAnswers(s.server, b);
      if b.MainStep? && s.server.main.ReqSet? && s.wire.accepts != [] {
        ServedIsLater(s);
      }
    }
    hide Server.Apply, Server.Enabled, Server.Pending, Server.Inv, Ascending, UpTo, SignalsInv, Traced, ClientInv;
  }

  predicate NoBegin(acts: seq<Action>) {
    forall i :: 0 <= i < |acts| ==> !acts[i].Begin?
  }

  /** From the `from`th delivery on, all are the present read's own. */
  ghost predicate OwnFrom(s: System, from: nat) {
    from <= |s.client.deliveries| &&
    forall i :: from <= i < |s.client.deliveries| ==>
      var d := s.client.deliveries[i]; d.id == s.client.readId && d.source > d.sentBefore && d.count == d.requested
  }

  lemma TakeUndisturbed(s: System, base: nat, from: nat)
    requires Inv(s) && OwnInv(s) && Undisturbed(s, base) && OwnFrom(s, from) && Enabled(s, Take)
    ensures Undisturbed(Apply(s, Take), base) && OwnFrom(Apply(s, Take), from)
  {
    TakeTraced(s);
    assert IsAccepted(s) && s.client.since < s.client.source;
    hide Server.Inv, RequestsInv, SignalsInv, ClientInv;
  }

  lemma UndisturbedStep(s: System, a: Action, base: nat, from: nat)
    requires Inv(s) && OwnInv(s) && Undisturbed(s, base) && OwnFrom(s, from) && Enabled(s, a) && !a.Begin?
    ensures Undisturbed(Apply(s, a), base) && OwnFrom(Apply(s, a), from)
  {
    match a
    case ServerStep(b) =>
      ServerUndisturbed(s, b, base);
      hide Undisturbed, Server.Apply, Server.Enabled, Inv, OwnInv;
    case Take =>
      TakeUndisturbed(s, base, from);
    case _ =>
      hide Inv, OwnInv;
  }

  lemma {:induction false} UndisturbedRun(s: System, acts: seq<Action>, base: nat, from: nat)
    requires Inv(s) && OwnInv(s) && Undisturbed(s, base) && OwnFrom(s, from) && ValidRun(s, acts) && NoBegin(acts)
    ensures OwnFrom(After(s, acts), from)
    decreases |acts|
  {
    if acts != [] {
      InvStep(s, acts[0]);
      OwnStep(s, acts[0]);
      UndisturbedStep(s, acts[0], base, from);
      hide Inv, OwnInv, Undisturbed, OwnFrom, Apply, Enabled;
      UndisturbedRun(Apply(s, acts[0]), acts[1..], base, from);
    }
  }

  /**
   A read begun when nothing is under way returns, if it returns data, the answer to its own request, with
   the count it asked for, whatever interleaves.
  */
  lemma QuietReadReturnsItsOwn(init: System, before: seq<Action>, bytes: nat, acts: seq<Action>)
    requires Fresh(init) && ValidRun(init, before) && Quiet(After(init, before))
    requires ValidRun(Apply(After(init, before), Begin(bytes)), acts) && NoBegin(acts)
    ensures var s := After(init, before);
      OwnFrom(After(Apply(s, Begin(bytes)), acts), |s.client.deliveries|)
  {
    FreshOwn(init);
    OwnRun(init, before);
    var s := After(init, before);
    BeginUndisturbed(s, bytes);
    InvStep(s, Begin(bytes));
    OwnStep(s, Begin(bytes));
    hide Inv, OwnInv, Undisturbed;
    UndisturbedRun(Apply(s, Begin(bytes)), acts, |s.server.emitted|, |s.client.deliveries|);
  }

  // ---------------------------------------------------------------------------
  // The caller's buffer between reads

  /** A signal that brings data. */
  predicate BringsData(sig: Server.Signal) {
    sig.status >= 0 && sig.data != []
  }

  /** The dispatcher processes a signal that brings data. */
  predicate EverBringsData(s: System, acts: seq<Action>)
    requires ValidRun(s, acts)
    decreases |acts|
  {
    acts != [] &&
    ((acts[0].Copy? && BringsData(s.server.emitted[s.client.processed]))
     || EverBringsData(Apply(s, acts[0]), acts[1..]))
  }

  lemma BetweenReadsStep(s: System, a: Action)
    requires s.client.reader.NotReading? && Enabled(s, a) && !a.Begin?
    ensures var c, d := s.client, Apply(s, a).client;
      && d.reader.NotReading? && d.requested == c.requested && d.deliveries == c.deliveries
      && (if a.Copy? && c.requested > 0 && BringsData(s.server.emitted[c.processed])
          then d.source == s.server.emitted[c.processed].seqno && d.received > 0
          else d.source == c.source && d.buffer == c.buffer
               && (d.received == c.received || (d.received == 0 && c.requested > 0)))
  {
    hide Server.Apply;
  }

  /**
   Once a read has returned data its buffer is out of reach: until the next read begins, whatever signals
   come, nothing is written to it, and what was returned stays as it was.
  */
  lemma {:induction false} ReturnedBufferIsLeftAlone(s: System, acts: seq<Action>)
    requires s.client.reader.NotReading? && s.client.requested == 0 && ValidRun(s, acts) && NoBegin(acts)
    ensures var c, d := s.client, After(s, acts).client;
      d.requested == 0 && d.buffer == c.buffer && d.received == c.received && d.source == c.source
      && d.deliveries == c.deliveries
    decreases |acts|
  {
    if acts != [] {
      BetweenReadsStep(s, acts[0]);
      hide Apply, Enabled;
      ReturnedBufferIsLeftAlone(Apply(s, acts[0]), acts[1..]);
    }
  }

  /** A read that returns data, and everything until the next read begins. */
  lemma TakeGivesTheBufferBack(s: System, acts: seq<Action>)
    requires Enabled(s, Take) && ValidRun(Apply(s, Take), acts) && NoBegin(acts)
    ensures var c, d := s.client, After(Apply(s, Take), acts).client;
      && d.requested == 0 && d.buffer == [] && d.received == c.received && d.source == c.source
      && |d.deliveries| == |c.deliveries| + 1
      && d.deliveries[|c.deliveries|].buffer == c.buffer && d.deliveries[|c.deliveries|].count == c.received
  {
    ReturnedBufferIsLeftAlone(Apply(s, Take), acts);
    hide After, ValidRun;
  }

  /**
   A read that fails keeps its buffer in reach. Until the next read begins, something is written to the
   buffer, which the caller has back, if and only if a signal that brings data comes.
  */
  lemma {:induction false} FailedReadIsWrittenToExactlyIf(s: System, acts: seq<Action>)
    requires Inv(s) && s.client.reader.NotReading? && s.client.requested > 0 && ValidRun(s, acts) && NoBegin(acts)
    ensures After(s, acts).client.source != s.client.source <==> EverBringsData(s, acts)
    ensures After(s, acts).client.source >= s.client.source
    decreases |acts|
  {
    if acts != [] {
      InvStep(s, acts[0]);
      BetweenReadsStep(s, acts[0]);
      assert acts[0].Copy? ==> s.client.source < s.server.emitted[s.client.processed].seqno;
      hide Apply, Enabled, Inv, BringsData;
      FailedReadIsWrittenToExactlyIf(Apply(s, acts[0]), acts[1..]);
    }
  }

  /** Giving up, and a call that fails, leave the buffer in reach. */
  lemma FailedReadKeepsItsBuffer(s: System, a: Action)
    requires Enabled(s, a) && (a.GiveUp? || a == CallReturned(false))
    ensures Apply(s, a).client == s.client.(reader := NotReading)
  {
  }

  // ---------------------------------------------------------------------------
  // A stale answer

  lemma RunCons(s: System, a: Action, rest: seq<Action>) returns (acts: seq<Action>)
    requires Enabled(s, a) && ValidRun(Apply(s, a), rest)
    ensures ValidRun(s, acts) && After(s, acts) == After(Apply(s, a), rest)
  {
    acts := [a] + rest;
    assert acts[1..] == rest;
  }

  lemma {:induction false} RunAppend(s: System, first: seq<Action>, rest: seq<Action>) returns (acts: seq<Action>)
    requires ValidRun(s, first) && ValidRun(After(s, first), rest)
    ensures ValidRun(s, acts) && After(s, acts) == After(After(s, first), rest)
    decreases |first|
  {
    if first == [] {
      acts := rest;
    } else {
      acts := RunAppend(Apply(s, first[0]), first[1..], rest);
      acts := RunCons(s, first[0], acts);
    }
  }

  /** The server's thread on its own leaves client and requests alone. */
  lemma {:induction false} LiftAsync(s: System, serverActs: seq<Server.Action>) returns (acts: seq<Action>)
    requires Server.ValidRun(s.server, serverActs) && Server.OnlyAsync(serverActs)
    ensures ValidRun(s, acts) && After(s, acts) == s.(server := Server.After(s.server, serverActs))
    decreases |serverActs|
  {
    if serverActs == [] {
      acts := [];
    } else {
      var a := ServerStep(serverActs[0]);
      var t := Apply(s, a);
      assert t == s.(server := Server.Apply(s.server, serverActs[0]));
      hide Server.Apply, Server.Enabled;
      acts := LiftAsync(t, serverActs[1..]);
      acts := RunCons(s, a, acts);
    }
  }

  /** The one request under way accepted, by an idle session with a free mutex. */
  lemma Accepts(s: System, r: Request) returns (acts: seq<Action>)
    requires s.wire.inbox == [r] && s.wire.serving.None? && r.bytes > 0
    requires s.server.main == Server.Ready && s.server.owner == Server.Free && s.server.state == Server.Idle
    ensures ValidRun(s, acts)
    ensures After(s, acts) == System(
      Server.SignalCond(s.server).(
        state := Server.ReadQueued, readBytes := r.bytes, asked := r.bytes, accepted := s.server.accepted + 1),
      s.client,
      Wire([], None, s.wire.accepts + [r], |s.server.emitted|, s.wire.reply || r.id == s.client.readId))
  {
    var main := ServerStep(Server.MainStep(0));
    var s1 := Apply(s, ServerStep(Server.Request(r.bytes)));
    var s2 := Apply(s1, main);
    var s3 := Apply(s2, main);
    acts := RunCons(s3, main, []);
    acts := RunCons(s2, main, acts);
    acts := RunCons(s1, main, acts);
    acts := RunCons(s, ServerStep(Server.Request(r.bytes)), acts);
  }

  /** A read begun, its request accepted and its call returned, by an idle session with a free mutex. */
  lemma ReadAwaits(s: System, bytes: nat) returns (acts: seq<Action>)
    requires s.client.reader.NotReading? && s.wire.inbox == [] && s.wire.serving.None? && bytes > 0
    requires s.server.main == Server.Ready && s.server.owner == Server.Free && s.server.state == Server.Idle
    ensures ValidRun(s, acts)
    ensures var c := s.client; var id := c.readId + 1;
      After(s, acts) == System(
        Server.SignalCond(s.server).(
          state := Server.ReadQueued, readBytes := bytes, asked := bytes, accepted := s.server.accepted + 1),
        c.(reader := Awaiting(c.sequence), buffer := seq(bytes, _ => 0), requested := bytes, received := 0,
           source := 0, since := c.processed, readId := id, size := bytes),
        Wire([], None, s.wire.accepts + [Request(id, bytes)], |s.server.emitted|, true))
  {
    hide Server.Apply, Server.Enabled;
    var s1 := Apply(s, Begin(bytes));
    var r := Request(s.client.readId + 1, bytes);
    assert s1.wire.inbox == [r];
    var served := Accepts(s1, r);
    var s2 := After(s1, served);
    acts := RunCons(s2, CallReturned(true), []);
    acts := RunAppend(s1, served, acts);
    acts := RunCons(s, Begin(bytes), acts);
  }

  lemma TakesNext(s: System) returns (acts: seq<Action>)
    requires s.client.dispatcher.Listening? && s.client.processed < |s.server.emitted| && s.client.requested > 0
    requires s.client.reader == Awaiting(s.client.sequence)
    requires var sig := s.server.emitted[s.client.processed];
      sig.status > 0 && sig.data != [] && sig.seqno != s.client.sequence
    ensures ValidRun(s, acts)
    ensures var sig := s.server.emitted[s.client.processed]; var ds := After(s, acts).client.deliveries;
      && |ds| == |s.client.deliveries| + 1
      && var d := ds[|ds| - 1];
         d.source == sig.seqno && d.count == |sig.data| && d.requested == s.client.requested
         && d.id == s.client.readId && d.sentBefore == s.wire.sentBefore
  {
    var s1 := Apply(s, Copy);
    var s2 := Apply(s1, Store);
    acts := RunCons(s2, Take, []);
    acts := RunCons(s1, Store, acts);
    acts := RunCons(s, Copy, acts);
  }

  /**
   A read that times out, is answered after all, and is followed by a smaller one before the dispatcher gets
   to the answer: the smaller read returns the old answer, and a count greater than it asked for.
  */
  lemma StaleAnswer(init: System, data: Bytes, bytes: nat) returns (acts: seq<Action>)
    requires Fresh(init) && 0 < bytes < |data|
    ensures ValidRun(init, acts)
    ensures var ds := After(init, acts).client.deliveries;
      |ds| == 1 && ds[0].source <= ds[0].sentBefore && ds[0].requested == bytes && ds[0].count == |data|
  {
    hide Apply, Enabled, Server.Apply, Server.Enabled;
    var serverActs := Server.Sleeps(init.server);
    acts := LiftAsync(init, serverActs);
    var s1 := After(init, acts);
    var next := ReadAwaits(s1, |data|);
    acts := RunAppend(init, acts, next);
    next := TimesOut(After(init, acts));
    acts := RunAppend(init, acts, next);
    serverActs := Server.BeginsReading(After(init, acts).server);
    next := LiftAsync(After(init, acts), serverActs);
    acts := RunAppend(init, acts, next);
    serverActs := Server.ThreadAnswers(After(init, acts).server, data);
    next := LiftAsync(After(init, acts), serverActs);
    acts := RunAppend(init, acts, next);
    serverActs := Server.ThreadReturns(After(init, acts).server);
    next := LiftAsync(After(init, acts), serverActs);
    acts := RunAppend(init, acts, next);
    next := ReadAwaits(After(init, acts), bytes);
    acts := RunAppend(init, acts, next);
    next := TakesNext(After(init, acts));
    acts := RunAppend(init, acts, next);
  }

  lemma TimesOut(s: System) returns (acts: seq<Action>)
    requires s.client.reader == Awaiting(s.client.sequence)
    ensures ValidRun(s, acts) && After(s, acts) == s.(client := s.client.(reader := NotReading))
  {
    acts := RunCons(s, GiveUp, []);
  }
}
