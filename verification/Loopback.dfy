/**
 Bluetooth loopback sessions. Two use cases may be connected, each by one session: a hashmap from use
 case to session, a session counter that also numbers the session object paths, and one global handle
 per use case. The connection may drop at any time, taking every session with it.
*/
module Loopback {
  import opened PalStreams
  import opened Hfp
  import opened Wrappers

  datatype UseCase = A2dpSink | Sco

  datatype BtSink = BtSink(running: bool, stream: Option<nat>)

  /** `sessions` maps a use case to the number in its object path; `paths` are the paths with an interface. */
  datatype State = State(
    count: int,
    sessions: map<UseCase, int>,
    paths: set<int>,
    btsco: Option<BtSco>,
    btsink: Option<BtSink>,
    pal: Pal,
    aborted: bool)

  /** Requests and events. Create and Destroy come through the object path of a live session. */
  datatype Call =
    | Connect(uc: UseCase, initRc: int, rate: nat)
    | Disconnect(uc: UseCase, stop: StopCodes)
    | Create(uc: UseCase, ports: Ports, start: StartCodes)
    | Destroy(uc: UseCase, stop: StopCodes)
    | SetSampleRate(uc: UseCase, rate: nat)
    | Drop(stop: StopCodes)

  // ---------------------------------------------------------------------------
  // The A2DP sink stream

  function StartSink(b: BtSink, p: Pal, ports: Ports, o: StartCodes): (BtSink, Pal, int) {
    if !ports.present then (b, p, -EINVAL)
    else if o.rxOpen != 0 then (b, p, o.rxOpen)
    else if o.rxStart != 0 then (b.(stream := Some(p.next)), Closed(Opened(p), p.next), o.rxStart)
    else (BtSink(true, Some(p.next)), Set(Opened(p), p.next, true), 0)
  }

  function StopSink(b: BtSink, p: Pal, o: StopCodes): (BtSink, Pal, int) {
    if !b.running || b.stream.None? then (b, p, E_FAILURE)
    else if o.rxStop != 0 then (b.(running := false), p, o.rxStop)
    else if o.rxClose != 0 then
      (b.(running := false), Closed(Set(p, b.stream.value, false), b.stream.value), o.rxClose)
    else (BtSink(false, None), Closed(Set(p, b.stream.value, false), b.stream.value), 0)
  }

  // ---------------------------------------------------------------------------
  // The requests

  /** Stop what runs, then free the use case's data and forget it. */
  function Deinit(s: State, uc: UseCase, o: StopCodes): State {
    if uc == A2dpSink then
      if s.btsink.None? then s
      else s.(pal := StopSink(s.btsink.value, s.pal, o).1, btsink := None)
    else
      if s.btsco.None? then s
      else s.(pal := StopHfp(s.btsco.value, s.pal, o).pal, btsco := None)
  }

  /** A path number already in use fails the assertion on adding the interface. */
  function ConnectTo(s: State, uc: UseCase, initRc: int, rate: nat): State {
    if uc in s.sessions then s
    else if initRc != 0 then
      if uc == A2dpSink then s.(btsink := None) else s.(btsco := None)
    else AddSession(WithHandle(s, uc, rate), uc, s.count + 1)
  }

  function WithHandle(s: State, uc: UseCase, rate: nat): State {
    if uc == A2dpSink then s.(btsink := Some(BtSink(false, None)))
    else s.(btsco := Some(BtSco(false, None, None, rate)))
  }

  function AddSession(s: State, uc: UseCase, path: int): State {
    if path in s.paths then s.(count := path, aborted := true)
    else s.(count := path, paths := s.paths + {path}, sessions := s.sessions[uc := path])
  }

  function RemoveSession(s: State, uc: UseCase): State
    requires uc in s.sessions
  {
    s.(paths := s.paths - {s.sessions[uc]}, count := s.count - 1, sessions := s.sessions - {uc})
  }

  function DisconnectFrom(s: State, uc: UseCase, o: StopCodes): State {
    var t := Deinit(s, uc, o);
    if uc in t.sessions then RemoveSession(t, uc) else t
  }

  /** Every session goes, in whatever order the hashmap is walked. */
  function RemoveAll(s: State): State {
    s.(paths := s.paths - s.sessions.Values, count := s.count - |s.sessions|, sessions := map[])
  }

  function Dropped(s: State, o: StopCodes): State {
    RemoveAll(Deinit(Deinit(s, A2dpSink, o), Sco, o))
  }

  function CreateLoopback(s: State, uc: UseCase, ports: Ports, o: StartCodes): State {
    if uc == A2dpSink then
      if s.btsink.None? then s.(aborted := true)
      else if s.btsink.value.running then s
      else var r := StartSink(s.btsink.value, s.pal, ports, o); s.(btsink := Some(r.0), pal := r.1)
    else
      if s.btsco.None? then s.(aborted := true)
      else if s.btsco.value.running then s
      else var r := StartHfp(s.btsco.value, s.pal, ports, o); s.(btsco := Some(r.sco), pal := r.pal)
  }

  function DestroyLoopback(s: State, uc: UseCase, o: StopCodes): State {
    if uc == A2dpSink then
      if s.btsink.None? || !s.btsink.value.running then s
      else var r := StopSink(s.btsink.value, s.pal, o); s.(btsink := Some(r.0), pal := r.1)
    else
      if s.btsco.None? || !s.btsco.value.running then s
      else var r := StopHfp(s.btsco.value, s.pal, o); s.(btsco := Some(r.sco), pal := r.pal)
  }

  function SetRate(s: State, uc: UseCase, rate: nat): State {
    if uc == Sco && s.btsco.Some? && (rate == 8000 || rate == 16000) then
      s.(btsco := Some(s.btsco.value.(rate := rate)))
    else s
  }

  predicate MayCall(s: State, c: Call) {
    !s.aborted && (c.Create? || c.Destroy? || c.SetSampleRate? ==> c.uc in s.sessions)
  }

  function Step(s: State, c: Call): State
    requires MayCall(s, c)
  {
    match c
    case Connect(uc, rc, rate) => ConnectTo(s, uc, rc, rate)
    case Disconnect(uc, o) => DisconnectFrom(s, uc, o)
    case Create(uc, ports, o) => CreateLoopback(s, uc, ports, o)
    case Destroy(uc, o) => DestroyLoopback(s, uc, o)
    case SetSampleRate(uc, rate) => SetRate(s, uc, rate)
    case Drop(o) => Dropped(s, o)
  }

  // ---------------------------------------------------------------------------
  // What every run keeps

  /** The counter, the map and the paths with an interface agree. */
  ghost predicate Books(count: int, sessions: map<UseCase, int>, paths: set<int>) {
    && count == |sessions|
    && paths == sessions.Values
    && Injective(sessions)
  }

  ghost predicate Injective(m: map<UseCase, int>) {
    forall k, l :: k in m && l in m && m[k] == m[l] ==> k == l
  }

  ghost predicate HandlesAgree(s: State) {
    && (s.btsink.Some? <==> A2dpSink in s.sessions)
    && (s.btsco.Some? <==> Sco in s.sessions)
  }

  /** What runs has its streams open and playing, and they are different streams. */
  ghost predicate StreamsLive(sco: Option<BtSco>, sink: Option<BtSink>, pal: Pal) {
    && Valid(pal)
    && (sco.Some? && sco.value.running ==> BothPlaying(sco.value, pal))
    && (sink.Some? && sink.value.running ==> sink.value.stream.Some? && Playing(pal, sink.value.stream.value))
    && (sco.Some? && sco.value.running && sink.Some? && sink.value.running ==>
          sink.value.stream != sco.value.rx && sink.value.stream != sco.value.tx)
  }

  ghost predicate Inv(s: State) {
    StreamsLive(s.btsco, s.btsink, s.pal) && (!s.aborted ==> Books(s.count, s.sessions, s.paths) && HandlesAgree(s))
  }

  predicate Fresh(s: State) {
    s.count == 0 && s.sessions == map[] && s.paths == {} && s.btsco.None? && s.btsink.None?
    && s.pal.streams == map[] && !s.aborted
  }

  lemma ValuesAdd(m: map<UseCase, int>, uc: UseCase, path: int)
    requires uc !in m
    ensures m[uc := path].Values == m.Values + {path}
  {
    forall v | v in m.Values + {path}
      ensures v in m[uc := path].Values
    {
      if v == path {
        assert m[uc := path][uc] == v;
      } else {
        var k :| k in m && m[k] == v;
        assert m[uc := path][k] == v;
      }
    }
  }

  lemma BooksAdd(count: int, sessions: map<UseCase, int>, paths: set<int>, uc: UseCase, path: int)
    requires Books(count, sessions, paths) && uc !in sessions && path !in paths
    ensures Books(count + 1, sessions[uc := path], paths + {path})
  {
    ValuesAdd(sessions, uc, path);
    assert forall k :: k in sessions ==> sessions[k] in sessions.Values;
  }

  lemma BooksRemove(count: int, sessions: map<UseCase, int>, paths: set<int>, uc: UseCase)
    requires Books(count, sessions, paths) && uc in sessions
    ensures Books(count - 1, sessions - {uc}, paths - {sessions[uc]})
  {
    var m := sessions - {uc};
    assert m.Keys == sessions.Keys - {uc};
    assert |m.Keys| == |sessions.Keys| - 1;
    forall v | v in paths - {sessions[uc]}
      ensures v in m.Values
    {
      var k :| k in sessions && sessions[k] == v;
      assert k in m && m[k] == v;
    }
  }

  lemma BooksEmpty(count: int, sessions: map<UseCase, int>, paths: set<int>)
    requires Books(count, sessions, paths)
    ensures Books(count - |sessions|, map[], paths - sessions.Values)
  {
  }

  lemma ScoStops(sco: BtSco, sink: Option<BtSink>, p: Pal, o: StopCodes)
    requires StreamsLive(Some(sco), sink, p)
    ensures StreamsLive(Some(StopHfp(sco, p, o).sco), sink, StopHfp(sco, p, o).pal)
  {
    var none := StartCodes(0, 0, 0, 0, 0);
    StaysValid(sco, p, Ports(false, 0), none, o);
    if sco.running {
      StopClosesBothExactlyIf(sco, p, o);
      if sink.Some? && sink.value.running {
        OthersUntouched(sco, p, Ports(false, 0), none, o, sink.value.stream.value);
      }
      hide StopHfp;
    }
  }

  lemma ScoStarts(sco: BtSco, sink: Option<BtSink>, p: Pal, ports: Ports, o: StartCodes)
    requires StreamsLive(Some(sco), sink, p) && !sco.running
    ensures StreamsLive(Some(StartHfp(sco, p, ports, o).sco), sink, StartHfp(sco, p, ports, o).pal)
  {
    StartIsAllOrNothing(sco, p, ports, o);
    StaysValid(sco, p, ports, o, StopCodes(0, 0, 0, 0));
    hide StartHfp;
  }

  lemma SinkStops(sco: Option<BtSco>, sink: BtSink, p: Pal, o: StopCodes)
    requires StreamsLive(sco, Some(sink), p)
    ensures StreamsLive(sco, Some(StopSink(sink, p, o).0), StopSink(sink, p, o).1)
  {
  }

  lemma SinkStarts(sco: Option<BtSco>, sink: BtSink, p: Pal, ports: Ports, o: StartCodes)
    requires StreamsLive(sco, Some(sink), p) && !sink.running
    ensures StreamsLive(sco, Some(StartSink(sink, p, ports, o).0), StartSink(sink, p, ports, o).1)
  {
    OpenThenClose(p);
    OpenedKeeps(p);
  }

  /**
   Starting the A2DP sink returns the code of the first call to fail; only a stream that started is left open. One
   that was opened and failed to start is closed, but its handle is kept.
  */
  lemma SinkStartReports(b: BtSink, p: Pal, ports: Ports, o: StartCodes)
    requires Valid(p)
    ensures var (c, q, rc) := StartSink(b, p, ports, o);
      && rc == (if !ports.present then -22 else FirstOf(o.rxOpen, o.rxStart))
      && (rc == 0 ==> c == BtSink(true, Some(p.next)) && q.streams == p.streams[p.next := true])
      && (rc != 0 ==> q.streams == p.streams
                      && c == if ports.present && o.rxOpen == 0 then b.(stream := Some(p.next)) else b)
  {
    OpenThenClose(p);
    assert Set(Opened(p), p.next, true).streams == p.streams[p.next := true];
  }

  /** Stopping it returns the code of the first call to fail; its stream stays open only if the stop failed. */
  lemma SinkStopReports(b: BtSink, p: Pal, o: StopCodes)
    requires b.running && b.stream.Some?
    ensures var (c, q, rc) := StopSink(b, p, o);
      && rc == FirstOf(o.rxStop, o.rxClose)
      && q.streams == (if o.rxStop == 0 then p.streams - {b.stream.value} else p.streams)
      && c == BtSink(false, if rc == 0 then None else b.stream)
  {
    SetThenClose(p, b.stream.value, false);
  }

  lemma DeinitKeeps(s: State, uc: UseCase, o: StopCodes)
    requires StreamsLive(s.btsco, s.btsink, s.pal)
    ensures var t := Deinit(s, uc, o);
      && StreamsLive(t.btsco, t.btsink, t.pal)
      && t.btsink == (if uc == A2dpSink then None else s.btsink)
      && t.btsco == (if uc == Sco then None else s.btsco)
      && t.count == s.count && t.sessions == s.sessions && t.paths == s.paths && t.aborted == s.aborted
  {
    if uc == Sco && s.btsco.Some? {
      ScoStops(s.btsco.value, s.btsink, s.pal, o);
    } else if uc == A2dpSink && s.btsink.Some? {
      SinkStops(s.btsco, s.btsink.value, s.pal, o);
    }
    hide StopHfp, StopSink, BothPlaying, Playing, Valid;
  }

  lemma WithHandleKeeps(s: State, uc: UseCase, rate: nat)
    requires StreamsLive(s.btsco, s.btsink, s.pal)
    ensures var t := WithHandle(s, uc, rate);
      && StreamsLive(t.btsco, t.btsink, t.pal)
      && (t.btsink.Some? <==> s.btsink.Some? || uc == A2dpSink)
      && (t.btsco.Some? <==> s.btsco.Some? || uc == Sco)
      && t.count == s.count && t.sessions == s.sessions && t.paths == s.paths && t.aborted == s.aborted
  {
    hide BothPlaying, Playing, Valid;
  }

  lemma AddSessionKeeps(t: State, uc: UseCase)
    requires StreamsLive(t.btsco, t.btsink, t.pal) && !t.aborted
    requires Books(t.count, t.sessions, t.paths) && uc !in t.sessions
    requires t.btsink.Some? <==> A2dpSink in t.sessions || uc == A2dpSink
    requires t.btsco.Some? <==> Sco in t.sessions || uc == Sco
    ensures Inv(AddSession(t, uc, t.count + 1))
  {
    if t.count + 1 !in t.paths {
      BooksAdd(t.count, t.sessions, t.paths, uc, t.count + 1);
    }
    hide StreamsLive, Books;
  }

  lemma FailedConnectKeeps(s: State, uc: UseCase, rc: int, rate: nat)
    requires Inv(s) && !s.aborted && rc != 0
    ensures Inv(ConnectTo(s, uc, rc, rate))
  {
    hide Books, BothPlaying, Playing, Valid;
  }

  lemma ConnectKeeps(s: State, uc: UseCase, rc: int, rate: nat)
    requires Inv(s) && !s.aborted
    ensures Inv(ConnectTo(s, uc, rc, rate))
  {
    if rc != 0 {
      FailedConnectKeeps(s, uc, rc, rate);
    } else if uc !in s.sessions {
      WithHandleKeeps(s, uc, rate);
      hide StreamsLive, Books, WithHandle, AddSession;
      AddSessionKeeps(WithHandle(s, uc, rate), uc);
      hide Inv;
    }
  }

  lemma DisconnectKeeps(s: State, uc: UseCase, o: StopCodes)
    requires Inv(s) && !s.aborted
    ensures Inv(DisconnectFrom(s, uc, o))
  {
    DeinitKeeps(s, uc, o);
    if uc in s.sessions {
      BooksRemove(s.count, s.sessions, s.paths, uc);
    }
    hide StreamsLive, Books, Deinit;
  }

  lemma DropKeeps(s: State, o: StopCodes)
    requires Inv(s) && !s.aborted
    ensures Inv(Dropped(s, o))
  {
    DeinitKeeps(s, A2dpSink, o);
    DeinitKeeps(Deinit(s, A2dpSink, o), Sco, o);
    BooksEmpty(s.count, s.sessions, s.paths);
    hide StreamsLive, Books, Deinit;
  }

  lemma CreateKeeps(s: State, uc: UseCase, ports: Ports, o: StartCodes)
    requires Inv(s) && !s.aborted && uc in s.sessions
    ensures Inv(CreateLoopback(s, uc, ports, o)) && !CreateLoopback(s, uc, ports, o).aborted
  {
    if uc == A2dpSink && !s.btsink.value.running {
      SinkStarts(s.btsco, s.btsink.value, s.pal, ports, o);
    } else if uc == Sco && !s.btsco.value.running {
      ScoStarts(s.btsco.value, s.btsink, s.pal, ports, o);
    }
    hide StreamsLive, Books, StartHfp, StartSink;
  }

  lemma DestroyKeeps(s: State, uc: UseCase, o: StopCodes)
    requires Inv(s) && !s.aborted
    ensures Inv(DestroyLoopback(s, uc, o))
  {
    if uc == A2dpSink && s.btsink.Some? {
      SinkStops(s.btsco, s.btsink.value, s.pal, o);
    } else if uc == Sco && s.btsco.Some? {
      ScoStops(s.btsco.value, s.btsink, s.pal, o);
    }
    hide StreamsLive, Books, StopHfp, StopSink;
  }

  lemma SetRateKeeps(s: State, uc: UseCase, rate: nat)
    requires Inv(s)
    ensures Inv(SetRate(s, uc, rate))
  {
    hide Books;
  }

  lemma StepKeeps(s: State, c: Call)
    requires Inv(s) && MayCall(s, c)
    ensures Inv(Step(s, c))
  {
    hide Inv, ConnectTo, DisconnectFrom, CreateLoopback, DestroyLoopback, SetRate, Dropped;
    match c
    case Connect(uc, rc, rate) => ConnectKeeps(s, uc, rc, rate);
    case Disconnect(uc, o) => DisconnectKeeps(s, uc, o);
    case Create(uc, ports, o) => CreateKeeps(s, uc, ports, o);
    case Destroy(uc, o) => DestroyKeeps(s, uc, o);
    case SetSampleRate(uc, rate) => SetRateKeeps(s, uc, rate);
    case Drop(o) => DropKeeps(s, o);
  }

  predicate ValidRun(s: State, calls: seq<Call>)
    decreases |calls|
  {
    calls == [] || (MayCall(s, calls[0]) && ValidRun(Step(s, calls[0]), calls[1..]))
  }

  function After(s: State, calls: seq<Call>): State
    requires ValidRun(s, calls)
    decreases |calls|
  {
    if calls == [] then s else After(Step(s, calls[0]), calls[1..])
  }

  lemma {:induction false} RunKeeps(s: State, calls: seq<Call>)
    requires Inv(s) && ValidRun(s, calls)
    ensures Inv(After(s, calls))
    decreases |calls|
  {
    hide Inv, Step;
    if calls != [] {
      StepKeeps(s, calls[0]);
      RunKeeps(Step(s, calls[0]), calls[1..]);
    }
  }

  lemma FreshInv(s: State)
    requires Fresh(s)
    ensures Inv(s)
  {
  }

  /**
   Whatever the requests and outcomes, as long as no assertion has failed: the counter is the number of
   sessions and of paths, a use case has its handle exactly while its session is in the map, and a
   running use case has its streams open and playing.
  */
  lemma SessionsAgree(init: State, calls: seq<Call>)
    requires Fresh(init) && ValidRun(init, calls)
    ensures var s := After(init, calls);
      && (!s.aborted ==>
            && s.count == |s.sessions| && s.paths == s.sessions.Values
            && (s.btsink.Some? <==> A2dpSink in s.sessions)
            && (s.btsco.Some? <==> Sco in s.sessions))
      && (s.btsco.Some? && s.btsco.value.running ==> BothPlaying(s.btsco.value, s.pal))
      && (s.btsink.Some? && s.btsink.value.running ==>
            s.btsink.value.stream.Some? && Playing(s.pal, s.btsink.value.stream.value))
  {
    FreshInv(init);
    RunKeeps(init, calls);
    hide After, ValidRun;
  }

  // PAL's streams, for every run

  /** The streams of a running use case. */
  function Running(s: State, uc: UseCase): set<nat> {
    if uc == Sco && s.btsco.Some? && s.btsco.value.running && s.btsco.value.rx.Some? && s.btsco.value.tx.Some?
    then {s.btsco.value.rx.value, s.btsco.value.tx.value}
    else if uc == A2dpSink && s.btsink.Some? && s.btsink.value.running && s.btsink.value.stream.Some?
    then {s.btsink.value.stream.value}
    else {}
  }

  function AllRunning(s: State): set<nat> {
    Running(s, A2dpSink) + Running(s, Sco)
  }

  /** Streams open in PAL that no use case runs. */
  function Abandoned(s: State): set<nat> {
    s.pal.streams.Keys - AllRunning(s)
  }

  /** What stopping a use case leaves open in PAL because one of the calls failed. */
  function LeftBehind(s: State, uc: UseCase, o: StopCodes): set<nat> {
    if Running(s, uc) == {} then {}
    else if uc == A2dpSink then if o.rxStop != 0 then Running(s, uc) else {}
    else if s.btsco.Some? && s.btsco.value.rx.Some? && s.btsco.value.tx.Some? then LeftByStop(s.btsco.value, o)
    else {}
  }

  function Leaves(s: State, c: Call): set<nat> {
    match c
    case Disconnect(uc, o) => LeftBehind(s, uc, o)
    case Destroy(uc, o) => LeftBehind(s, uc, o)
    case Drop(o) => LeftBehind(s, A2dpSink, o) + LeftBehind(s, Sco, o)
    case _ => {}
  }

  function AllLeft(s: State, calls: seq<Call>): set<nat>
    requires ValidRun(s, calls)
    decreases |calls|
  {
    if calls == [] then {} else Leaves(s, calls[0]) + AllLeft(Step(s, calls[0]), calls[1..])
  }

  lemma RunningIsOpen(s: State)
    requires StreamsLive(s.btsco, s.btsink, s.pal)
    ensures AllRunning(s) <= s.pal.streams.Keys && Running(s, A2dpSink) !! Running(s, Sco)
    ensures forall uc, o :: LeftBehind(s, uc, o) <= Running(s, uc)
  {
  }

  /** Only these fields matter to the ledger. */
  predicate SameStreams(s: State, t: State) {
    s.pal == t.pal && forall uc :: Running(s, uc) == Running(t, uc)
  }

  lemma StartedLedger(s: State, uc: UseCase, ports: Ports, o: StartCodes)
    requires Inv(s) && !s.aborted && uc in s.sessions
    ensures Abandoned(CreateLoopback(s, uc, ports, o)) == Abandoned(s)
  {
    RunningIsOpen(s);
    var t := CreateLoopback(s, uc, ports, o);
    if uc == Sco && !s.btsco.value.running {
      StartIsAllOrNothing(s.btsco.value, s.pal, ports, o);
      assert Running(s, Sco) == {} && Running(t, A2dpSink) == Running(s, A2dpSink);
      if AllSucceed(s.btsco.value, ports, o) {
        assert Running(t, Sco) == {s.pal.next, s.pal.next + 1};
        assert t.pal.streams.Keys == s.pal.streams.Keys + {s.pal.next, s.pal.next + 1};
      } else {
        assert Running(t, Sco) == {};
        assert t.pal.streams == s.pal.streams;
      }
    } else if uc == A2dpSink && !s.btsink.value.running {
      OpenThenClose(s.pal);
      OpenedKeeps(s.pal);
      assert Running(s, A2dpSink) == {} && Running(t, Sco) == Running(s, Sco);
      if t.btsink.value.running {
        assert Running(t, A2dpSink) == {s.pal.next};
        assert t.pal.streams.Keys == s.pal.streams.Keys + {s.pal.next};
      } else {
        assert Running(t, A2dpSink) == {};
        assert t.pal.streams == s.pal.streams;
      }
    }
    hide StartHfp, StartSink, Running, CreateLoopback, Inv;
  }

  lemma StoppedKeys(s: State, uc: UseCase, o: StopCodes)
    requires StreamsLive(s.btsco, s.btsink, s.pal)
    ensures Deinit(s, uc, o).pal.streams.Keys == s.pal.streams.Keys - Running(s, uc) + LeftBehind(s, uc, o)
  {
    if uc == Sco && s.btsco.Some? && s.btsco.value.running {
      StopLeavesExactly(s.btsco.value, s.pal, o);
      hide StopHfp;
    }
  }

  lemma DeinitRunning(s: State, uc: UseCase, o: StopCodes)
    ensures Running(Deinit(s, uc, o), uc) == {}
    ensures forall other :: other != uc ==> Running(Deinit(s, uc, o), other) == Running(s, other)
  {
    hide StopHfp, StopSink;
  }

  lemma DestroyRunning(s: State, uc: UseCase, o: StopCodes)
    requires StreamsLive(s.btsco, s.btsink, s.pal)
    ensures DestroyLoopback(s, uc, o).pal == Deinit(s, uc, o).pal
    ensures Running(DestroyLoopback(s, uc, o), uc) == {}
    ensures forall other :: other != uc ==> Running(DestroyLoopback(s, uc, o), other) == Running(s, other)
  {
    if uc == Sco && s.btsco.Some? && s.btsco.value.running {
      StopClosesBothExactlyIf(s.btsco.value, s.pal, o);
      hide StopHfp;
    }
  }

  /** `t` is `s` with `uc` stopped, as far as streams go. */
  lemma StoppedLedger(s: State, t: State, uc: UseCase, o: StopCodes)
    requires StreamsLive(s.btsco, s.btsink, s.pal)
    requires t.pal == Deinit(s, uc, o).pal && Running(t, uc) == {}
    requires forall other :: other != uc ==> Running(t, other) == Running(s, other)
    ensures Abandoned(t) == Abandoned(s) + LeftBehind(s, uc, o) && Abandoned(s) !! LeftBehind(s, uc, o)
  {
    RunningIsOpen(s);
    StoppedKeys(s, uc, o);
    assert LeftBehind(s, uc, o) <= Running(s, uc);
    hide Running, LeftBehind, Deinit, StreamsLive;
    if uc == Sco {
      assert AllRunning(t) == Running(s, A2dpSink);
    } else {
      assert AllRunning(t) == Running(s, Sco);
    }
  }

  lemma SameStreamsSameLedger(s: State, t: State, o: StopCodes)
    requires SameStreams(s, t)
    ensures Abandoned(s) == Abandoned(t)
  {
    hide Running;
  }

  lemma ConnectLedger(s: State, uc: UseCase, rc: int, rate: nat)
    requires Inv(s) && !s.aborted
    ensures SameStreams(s, ConnectTo(s, uc, rc, rate))
  {
    hide StreamsLive, Books;
  }

  lemma SetRateLedger(s: State, uc: UseCase, rate: nat)
    ensures SameStreams(s, SetRate(s, uc, rate))
  {
  }

  lemma DisconnectLedger(s: State, uc: UseCase, o: StopCodes)
    requires Inv(s)
    ensures var t := DisconnectFrom(s, uc, o);
      Abandoned(t) == Abandoned(s) + LeftBehind(s, uc, o) && Abandoned(s) !! LeftBehind(s, uc, o)
  {
    hide Deinit, LeftBehind, Abandoned, StreamsLive, StopHfp, StopSink;
    var t := Deinit(s, uc, o);
    DeinitRunning(s, uc, o);
    StoppedLedger(s, t, uc, o);
    assert SameStreams(t, DisconnectFrom(s, uc, o));
    SameStreamsSameLedger(t, DisconnectFrom(s, uc, o), o);
  }

  lemma LeftBehindElsewhere(s: State, o: StopCodes)
    ensures LeftBehind(Deinit(s, A2dpSink, o), Sco, o) == LeftBehind(s, Sco, o)
  {
    hide StopSink;
  }

  lemma RemoveAllLedger(s: State)
    ensures SameStreams(s, RemoveAll(s))
  {
  }

  lemma DropLedger(s: State, o: StopCodes)
    requires Inv(s)
    ensures Abandoned(Dropped(s, o)) == Abandoned(s) + Leaves(s, Drop(o)) && Abandoned(s) !! Leaves(s, Drop(o))
  {
    hide Deinit, LeftBehind, Abandoned, StreamsLive, Running, RemoveAll;
    var t := Deinit(s, A2dpSink, o);
    var u := Deinit(t, Sco, o);
    DeinitKeeps(s, A2dpSink, o);
    DeinitRunning(s, A2dpSink, o);
    DeinitRunning(t, Sco, o);
    StoppedLedger(s, t, A2dpSink, o);
    StoppedLedger(t, u, Sco, o);
    LeftBehindElsewhere(s, o);
    RemoveAllLedger(u);
    SameStreamsSameLedger(u, RemoveAll(u), o);
  }

  lemma LedgerStep(s: State, c: Call)
    requires Inv(s) && MayCall(s, c)
    ensures Abandoned(Step(s, c)) == Abandoned(s) + Leaves(s, c) && Abandoned(s) !! Leaves(s, c)
  {
    hide Abandoned, LeftBehind, ConnectTo, SetRate, DisconnectFrom, CreateLoopback, DestroyLoopback, Dropped;
    match c
    case Connect(uc, rc, rate) =>
      ConnectLedger(s, uc, rc, rate);
      SameStreamsSameLedger(s, Step(s, c), StopCodes(0, 0, 0, 0));
    case Disconnect(uc, o) => DisconnectLedger(s, uc, o);
    case Create(uc, ports, o) => StartedLedger(s, uc, ports, o);
    case Destroy(uc, o) =>
      DestroyRunning(s, uc, o);
      StoppedLedger(s, Step(s, c), uc, o);
    case SetSampleRate(uc, rate) =>
      SetRateLedger(s, uc, rate);
      SameStreamsSameLedger(s, Step(s, c), StopCodes(0, 0, 0, 0));
    case Drop(o) =>
      DropLedger(s, o);
      hide Leaves;
  }

  lemma {:induction false} LedgerRun(s: State, calls: seq<Call>)
    requires Inv(s) && ValidRun(s, calls)
    ensures Abandoned(After(s, calls)) == Abandoned(s) + AllLeft(s, calls)
    decreases |calls|
  {
    hide Inv, Step, Abandoned, Leaves;
    if calls != [] {
      StepKeeps(s, calls[0]);
      LedgerStep(s, calls[0]);
      LedgerRun(Step(s, calls[0]), calls[1..]);
    }
  }

  /**
   Over every sequence of requests, failed assertions included: the streams open in PAL are those of the
   running use cases and those that a failing stop left behind, and these are apart.
  */
  lemma EveryStreamIsAccountedFor(init: State, calls: seq<Call>)
    requires Fresh(init) && ValidRun(init, calls)
    ensures var s := After(init, calls);
      s.pal.streams.Keys == AllRunning(s) + AllLeft(init, calls) && AllRunning(s) !! AllLeft(init, calls)
  {
    FreshInv(init);
    LedgerRun(init, calls);
    RunKeeps(init, calls);
    RunningIsOpen(After(init, calls));
    hide After, AllLeft, Running;
  }

  function Other(uc: UseCase): UseCase {
    if uc == A2dpSink then Sco else A2dpSink
  }

  /**
   Path numbers are reused after a disconnect: a request ends the process exactly if it connects a use
   case, its set-up succeeds, and the other use case is connected under path number 2.
  */
  lemma AbortsExactlyWhen(s: State, c: Call)
    requires Inv(s) && MayCall(s, c)
    ensures Step(s, c).aborted <==>
      c.Connect? && c.initRc == 0 && c.uc !in s.sessions && Other(c.uc) in s.sessions && s.sessions[Other(c.uc)] == 2
  {
    match c
    case Connect(uc, rc, _) =>
      if uc !in s.sessions {
        OthersPath(s.count, s.sessions, s.paths, uc);
        WithHandleKeeps(s, uc, c.rate);
        hide Books, StreamsLive, WithHandle;
      }
    case Disconnect(uc, o) =>
      DeinitKeeps(s, uc, o);
      hide Inv, Deinit;
    case Create(uc, ports, o) =>
      CreateKeeps(s, uc, ports, o);
      hide Inv, CreateLoopback;
    case Destroy(_, _) => hide Inv, StopSink, StopHfp;
    case SetSampleRate(_, _) => hide Inv;
    case Drop(o) =>
      DeinitKeeps(s, A2dpSink, o);
      DeinitKeeps(Deinit(s, A2dpSink, o), Sco, o);
      hide Inv, Deinit;
  }

  lemma OthersPath(count: int, sessions: map<UseCase, int>, paths: set<int>, uc: UseCase)
    requires Books(count, sessions, paths) && uc !in sessions
    ensures count + 1 in paths <==> Other(uc) in sessions && sessions[Other(uc)] == 2
  {
    if Other(uc) in sessions {
      assert sessions.Keys == {Other(uc)};
      assert sessions.Values == {sessions[Other(uc)]};
    } else {
      assert sessions.Keys == {};
      assert sessions == map[];
    }
  }

  /**
   A use case is connected after a request to connect it exactly if it was or its set-up succeeded, under
   the next number; the other use case's session is left alone.
  */
  lemma ConnectsExactlyIf(s: State, uc: UseCase, rc: int, rate: nat)
    requires Inv(s) && !s.aborted && !ConnectTo(s, uc, rc, rate).aborted
    ensures var m := ConnectTo(s, uc, rc, rate).sessions;
      && (uc in m <==> uc in s.sessions || rc == 0)
      && (uc !in s.sessions && rc == 0 ==> m[uc] == s.count + 1)
      && (Other(uc) in m <==> Other(uc) in s.sessions)
      && (Other(uc) in m ==> m[Other(uc)] == s.sessions[Other(uc)])
  {
    WithHandleKeeps(s, uc, rate);
    hide Inv, StreamsLive, WithHandle;
  }

  lemma WithoutOne(m: map<UseCase, int>, uc: UseCase)
    ensures m - {uc} == if Other(uc) in m then map[Other(uc) := m[Other(uc)]] else map[]
  {
    var rest: map<UseCase, int> := if Other(uc) in m then map[Other(uc) := m[Other(uc)]] else map[];
    forall k: UseCase
      ensures k in m - {uc} <==> k in rest
    {
      assert k == uc || k == Other(uc);
    }
    assert m - {uc} == rest;
  }

  /** After a request to disconnect a use case its session is gone and the other one's is left alone. */
  lemma DisconnectsOnly(s: State, uc: UseCase, o: StopCodes)
    requires Inv(s) && !s.aborted
    ensures DisconnectFrom(s, uc, o).sessions ==
            if Other(uc) in s.sessions then map[Other(uc) := s.sessions[Other(uc)]] else map[]
  {
    DeinitKeeps(s, uc, o);
    WithoutOne(s.sessions, uc);
    hide Inv, Deinit, StreamsLive;
    assert uc !in s.sessions ==> s.sessions - {uc} == s.sessions;
  }

  /** Creating a loopback runs its use case exactly if it ran already or every PAL call succeeded. */
  lemma CreateRunsExactlyIf(s: State, uc: UseCase, ports: Ports, o: StartCodes)
    requires Inv(s) && MayCall(s, Create(uc, ports, o))
    ensures var t := Step(s, Create(uc, ports, o));
      if uc == Sco then
        t.btsco.Some? && (t.btsco.value.running <==> s.btsco.value.running || AllSucceed(s.btsco.value, ports, o))
      else
        t.btsink.Some? &&
        (t.btsink.value.running <==>
           s.btsink.value.running || (ports.present && o.rxOpen == 0 && o.rxStart == 0))
  {
    if uc == Sco {
      StartIsAllOrNothing(s.btsco.value, s.pal, ports, o);
    }
    hide Books, StreamsLive, StartHfp;
  }

  /** Disconnecting closes the use case's streams if no PAL call fails, and never another's. */
  lemma DisconnectCloses(s: State, uc: UseCase, o: StopCodes)
    requires Inv(s) && !s.aborted
    ensures o == StopCodes(0, 0, 0, 0) ==> DisconnectFrom(s, uc, o).pal.streams == s.pal.streams - Running(s, uc)
    ensures forall h :: h in Running(s, Other(uc)) ==> Playing(DisconnectFrom(s, uc, o).pal, h)
  {
    if uc == Sco {
      ScoDisconnectCloses(s, o);
    } else {
      SinkDisconnectCloses(s, o);
    }
  }

  lemma ScoDisconnectCloses(s: State, o: StopCodes)
    requires Inv(s) && !s.aborted
    ensures o == StopCodes(0, 0, 0, 0) ==> Deinit(s, Sco, o).pal.streams == s.pal.streams - Running(s, Sco)
    ensures forall h :: h in Running(s, A2dpSink) ==> Playing(Deinit(s, Sco, o).pal, h)
  {
    if s.btsco.Some? && s.btsco.value.running {
      StopClosesBothExactlyIf(s.btsco.value, s.pal, o);
      forall h | h in Running(s, A2dpSink)
        ensures Playing(Deinit(s, Sco, o).pal, h)
      {
        OthersUntouched(s.btsco.value, s.pal, Ports(false, 0), StartCodes(0, 0, 0, 0, 0), o, h);
      }
      hide StopHfp, Books;
    }
  }

  lemma SinkDisconnectCloses(s: State, o: StopCodes)
    requires Inv(s) && !s.aborted
    ensures o == StopCodes(0, 0, 0, 0) ==> Deinit(s, A2dpSink, o).pal.streams == s.pal.streams - Running(s, A2dpSink)
    ensures forall h :: h in Running(s, Sco) ==> Playing(Deinit(s, A2dpSink, o).pal, h)
  {
    hide Books;
  }

  /** A dropped connection leaves nothing behind in the books. */
  lemma DropClearsTheBooks(s: State, o: StopCodes)
    requires Inv(s) && !s.aborted
    ensures var t := Dropped(s, o);
      t.count == 0 && t.sessions == map[] && t.paths == {} && t.btsco.None? && t.btsink.None? && !t.aborted
  {
    DeinitKeeps(s, A2dpSink, o);
    DeinitKeeps(Deinit(s, A2dpSink, o), Sco, o);
    hide StreamsLive, Deinit;
  }

  // The hands-free sampling rate, for every run

  /** A new session has the rate it was set up with; requests may change it to one of two others. */
  function RateAfter(s: State, c: Call, rate: nat): nat {
    match c
    case Connect(uc, initRc, r) => if uc == Sco && initRc == 0 && Sco !in s.sessions then r else rate
    case SetSampleRate(uc, r) => if uc == Sco && r in {8000, 16000} then r else rate
    case _ => rate
  }

  function RateTold(s: State, calls: seq<Call>, rate: nat): nat
    requires ValidRun(s, calls)
    decreases |calls|
  {
    if calls == [] then rate else RateTold(Step(s, calls[0]), calls[1..], RateAfter(s, calls[0], rate))
  }

  predicate HasRate(s: State, rate: nat) {
    s.btsco.Some? ==> s.btsco.value.rate == rate
  }

  lemma HfpKeepsRate(b: BtSco, p: Pal, ports: Ports, o: StartCodes, e: StopCodes)
    ensures StartHfp(b, p, ports, o).sco.rate == b.rate && StopHfp(b, p, e).sco.rate == b.rate
  {
    hide Opened, Closed, Set;
  }

  lemma CreateKeepsRate(s: State, uc: UseCase, ports: Ports, o: StartCodes, e: StopCodes, rate: nat)
    requires HasRate(s, rate)
    ensures HasRate(CreateLoopback(s, uc, ports, o), rate) && HasRate(DestroyLoopback(s, uc, e), rate)
  {
    if s.btsco.Some? {
      HfpKeepsRate(s.btsco.value, s.pal, ports, o, e);
    }
    hide StartHfp, StopHfp, StartSink, StopSink;
  }

  lemma RateStep(s: State, c: Call, rate: nat)
    requires Inv(s) && MayCall(s, c) && HasRate(s, rate)
    ensures HasRate(Step(s, c), RateAfter(s, c, rate))
  {
    match c
    case Create(uc, ports, o) =>
      CreateKeepsRate(s, uc, ports, o, StopCodes(0, 0, 0, 0), rate);
      hide Inv, CreateLoopback;
    case Destroy(uc, e) =>
      CreateKeepsRate(s, uc, Ports(false, 0), StartCodes(0, 0, 0, 0, 0), e, rate);
      hide Inv, DestroyLoopback;
    case Disconnect(uc, e) =>
      DeinitKeeps(s, uc, e);
      hide StreamsLive, Books, Deinit;
    case Drop(e) =>
      DeinitKeeps(s, A2dpSink, e);
      DeinitKeeps(Deinit(s, A2dpSink, e), Sco, e);
      hide StreamsLive, Books, Deinit;
    case _ =>
      hide StreamsLive, Books;
  }

  lemma {:induction false} RateRun(s: State, calls: seq<Call>, rate: nat)
    requires Inv(s) && ValidRun(s, calls) && HasRate(s, rate)
    ensures HasRate(After(s, calls), RateTold(s, calls, rate))
    decreases |calls|
  {
    hide Inv, Step, HasRate, RateAfter;
    if calls != [] {
      StepKeeps(s, calls[0]);
      RateStep(s, calls[0], rate);
      RateRun(Step(s, calls[0]), calls[1..], RateAfter(s, calls[0], rate));
    }
  }

  /**
   Over every sequence of requests: while hands-free is connected its rate is the last one accepted, 8000 or
   16000, or else the one it was connected with.
  */
  lemma RateIsTheLastAccepted(init: State, calls: seq<Call>)
    requires Fresh(init) && ValidRun(init, calls)
    ensures HasRate(After(init, calls), RateTold(init, calls, 0))
  {
    FreshInv(init);
    RateRun(init, calls, 0);
  }

  function RunCons(s: State, c: Call, rest: seq<Call>): (calls: seq<Call>)
    requires MayCall(s, c) && ValidRun(Step(s, c), rest)
    ensures ValidRun(s, calls) && After(s, calls) == After(Step(s, c), rest)
  {
    var calls := [c] + rest;
    assert calls[1..] == rest;
    calls
  }

  /** Four ordinary requests that end the process: connect both, disconnect the first, connect it again. */
  lemma ReconnectAborts(init: State, uc: UseCase, rate: nat) returns (calls: seq<Call>)
    requires Fresh(init)
    ensures ValidRun(init, calls) && |calls| == 4 && After(init, calls).aborted
  {
    var codes := StopCodes(0, 0, 0, 0);
    var other := Other(uc);
    var s1 := Step(init, Connect(uc, 0, rate));
    var s2 := Step(s1, Connect(other, 0, rate));
    assert s2.sessions == map[uc := 1, other := 2] && s2.paths == {1, 2} && s2.count == 2 && !s2.aborted;
    var s3 := Step(s2, Disconnect(uc, codes));
    assert s3.sessions == map[other := 2] && s3.paths == {2} && s3.count == 1 && !s3.aborted;
    var s4 := Step(s3, Connect(uc, 0, rate));
    assert s4.aborted;
    calls := RunCons(init, Connect(uc, 0, rate), RunCons(s1, Connect(other, 0, rate),
               RunCons(s2, Disconnect(uc, codes), RunCons(s3, Connect(uc, 0, rate), []))));
  }

  lemma RemoveAllByOne(s: State, uc: UseCase)
    requires uc in s.sessions
    ensures RemoveAll(RemoveSession(s, uc)) == RemoveAll(s) && |RemoveSession(s, uc).sessions| == |s.sessions| - 1
  {
    var m := s.sessions - {uc};
    assert m.Keys == s.sessions.Keys - {uc};
    assert |m.Keys| == |s.sessions.Keys| - 1;
    assert s.sessions == m[uc := s.sessions[uc]];
    ValuesAdd(m, uc, s.sessions[uc]);
    assert s.paths - s.sessions.Values == s.paths - {s.sessions[uc]} - m.Values;
  }

  // ---------------------------------------------------------------------------
  // The module as the source keeps it; the two use-case structures are values here

  class Module {
    var sessionCount: int
    var sessionData: map<UseCase, int>
    /** Object paths the D-Bus protocol has the session interface on. */
    var interfaces: set<int>
    var btsco: Option<BtSco>
    var btsink: Option<BtSink>
    var pal: Pal
    /** An assertion of the source has failed. */
    var aborted: bool

    ghost function View(): State
      reads this
    {
      State(sessionCount, sessionData, interfaces, btsco, btsink, pal, aborted)
    }

    constructor (p: Pal)
      requires p.streams == map[]
      ensures Fresh(View())
    {
      sessionCount, sessionData, interfaces, btsco, btsink, pal, aborted := 0, map[], {}, None, None, p, false;
    }

    method BtConnect(uc: UseCase, initRc: int, rate: nat)
      requires !aborted
      modifies this
      ensures View() == ConnectTo(old(View()), uc, initRc, rate)
    {
      if uc in sessionData {
        return;
      }
      if uc == A2dpSink {
        btsink := if initRc == 0 then Some(BtSink(false, None)) else None;
      } else {
        btsco := if initRc == 0 then Some(BtSco(false, None, None, rate)) else None;
      }
      if initRc != 0 {
        return;
      }
      sessionCount := sessionCount + 1;
      if sessionCount in interfaces {
        aborted := true;
        return;
      }
      interfaces := interfaces + {sessionCount};
      sessionData := sessionData[uc := sessionCount];
    }

    method DeinitUseCase(uc: UseCase, o: StopCodes)
      modifies this`btsco, this`btsink, this`pal
      ensures View() == Deinit(old(View()), uc, o)
    {
      hide StopHfp, StopSink;
      if uc == A2dpSink && btsink.Some? {
        pal := StopSink(btsink.value, pal, o).1;
        btsink := None;
      } else if uc == Sco && btsco.Some? {
        pal := StopHfp(btsco.value, pal, o).pal;
        btsco := None;
      }
    }

    method BtDisconnect(uc: UseCase, o: StopCodes)
      requires !aborted
      modifies this
      ensures View() == DisconnectFrom(old(View()), uc, o)
    {
      DeinitUseCase(uc, o);
      hide Deinit;
      if uc !in sessionData {
        return;
      }
      interfaces := interfaces - {sessionData[uc]};
      sessionCount := sessionCount - 1;
      sessionData := sessionData - {uc};
    }

    method RemoveSessions()
      modifies this`sessionData, this`interfaces, this`sessionCount
      ensures View() == RemoveAll(old(View()))
    {
      ghost var start := View();
      while |sessionData| > 0
        invariant RemoveAll(View()) == RemoveAll(start)
        decreases |sessionData|
      {
        ghost var before := View();
        var uc :| uc in sessionData;
        RemoveAllByOne(before, uc);
        interfaces := interfaces - {sessionData[uc]};
        sessionData := sessionData - {uc};
        sessionCount := sessionCount - 1;
        assert View() == RemoveSession(before, uc);
      }
    }

    method ConnectionDied(o: StopCodes)
      requires !aborted
      modifies this
      ensures View() == Dropped(old(View()), o)
    {
      DeinitUseCase(A2dpSink, o);
      DeinitUseCase(Sco, o);
      hide Deinit, RemoveAll;
      RemoveSessions();
    }

    method Create(uc: UseCase, ports: Ports, o: StartCodes)
      requires !aborted && uc in sessionData
      modifies this
      ensures View() == CreateLoopback(old(View()), uc, ports, o)
    {
      hide StartHfp, StartSink;
      if uc == A2dpSink {
        if btsink.None? {
          aborted := true;
        } else if !btsink.value.running {
          var r := StartSink(btsink.value, pal, ports, o);
          btsink, pal := Some(r.0), r.1;
        }
      } else {
        if btsco.None? {
          aborted := true;
        } else if !btsco.value.running {
          var r := StartHfp(btsco.value, pal, ports, o);
          btsco, pal := Some(r.sco), r.pal;
        }
      }
    }

    method Destroy(uc: UseCase, o: StopCodes)
      requires !aborted && uc in sessionData
      modifies this
      ensures View() == DestroyLoopback(old(View()), uc, o)
    {
      hide StopHfp, StopSink;
      if uc == A2dpSink {
        if btsink.Some? && btsink.value.running {
          var r := StopSink(btsink.value, pal, o);
          btsink, pal := Some(r.0), r.1;
        }
      } else if btsco.Some? && btsco.value.running {
        var r := StopHfp(btsco.value, pal, o);
        btsco, pal := Some(r.sco), r.pal;
      }
    }
  }
}
