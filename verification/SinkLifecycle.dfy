/**
 The life of a PAL sink: start, standby, state changes from the core, restart with a new configuration,
 and free. Each PAL call may fail; its return code comes with the call. `live` is PAL's own ledger of
 streams opened and not yet closed, so a stream the sink forgets about stays in it.
*/
module SinkLifecycle {
  import opened Wrappers
  import WriteChunk

  datatype Sink = Sink(
    standby: bool,
    isOpen: bool,
    handle: Option<nat>,
    compressed: bool,
    restarting: bool,
    closeOutput: bool,
    bytesWritten: nat,
    dynamicUsecase: bool,
    live: set<nat>,
    nextStream: nat,
    aborted: bool)

  /** Return codes of pal_stream_open and pal_stream_set_buffer_size. */
  datatype OpenOutcome = OpenOutcome(openRc: int, bufferRc: int)

  datatype StartOutcome = StartOutcome(open: OpenOutcome, paramRc: int, startRc: int)

  /** PA_SINK_IS_OPENED holds of Running and Idle. */
  datatype SinkState = Init | Running | Idle | Suspended | Unlinked

  predicate IsOpened(st: SinkState) {
    st == Running || st == Idle
  }

  function OpenRc(o: OpenOutcome): int {
    if o.openRc != 0 then o.openRc else o.bufferRc
  }

  /** PAL opens a stream and the sink notes its handle. */
  function TakeStream(s: Sink): Sink {
    s.(handle := Some(s.nextStream), live := s.live + {s.nextStream}, nextStream := s.nextStream + 1)
  }

  function Open(s: Sink, o: OpenOutcome): Sink {
    if o.openRc != 0 then s.(handle := None)
    else if o.bufferRc != 0 then TakeStream(s)
    else TakeStream(s).(isOpen := true, closeOutput := false)
  }

  /** A missing handle is an assertion failure: the process ends. Failing stop and close calls are only logged. */
  function Close(s: Sink): Sink {
    if s.handle.None? then s.(aborted := true)
    else s.(closeOutput := true, live := s.live - {s.handle.value}, handle := None, bytesWritten := 0,
            standby := true, isOpen := false)
  }

  function CloseIfOpened(s: Sink): Sink {
    if s.isOpen then Close(s) else s
  }

  function Start(s: Sink, o: StartOutcome): (Sink, int) {
    if !s.standby then (s, 0)
    else
      var (t, rc) := if s.isOpen then (s, 0) else (Open(s, o.open), OpenRc(o.open));
      if rc != 0 then (CloseIfOpened(t), rc)
      else if t.compressed && o.paramRc != 0 then (CloseIfOpened(t), o.paramRc)
      else if o.startRc != 0 then (CloseIfOpened(t), o.startRc)
      else (t.(restarting := false, standby := false), 0)
  }

  /**
   What the core, the reconfiguration callbacks and the write loop may do; `state` is the core's current sink
   state. SetNoFormat is the end of compressed playback: the stream is paused and flushed, not closed. The loop
   adds what a write took, or -1 if it found no handle, after it has released the mutex, so at any moment.
  */
  datatype Call =
    | SetState(state: SinkState, next: SinkState, start: StartOutcome)
    | Restart(state: SinkState, closeRc: int, formatOk: bool, mapOk: bool, pcm16: bool, open: OpenOutcome)
    | SetNoFormat
    | Wrote(rc: int)

  function SetStateTo(s: Sink, state: SinkState, next: SinkState, o: StartOutcome): (Sink, int) {
    if state == Init && IsOpened(next) && s.dynamicUsecase then (s, 0)
    else if IsOpened(next) then Start(s, o)
    else if next == Suspended || (next == Unlinked && s.isOpen) then (CloseIfOpened(s), 0)
    else (s, 0)
  }

  /** A restart closes the stream first if both PAL and the core have the sink open. */
  function Restarting(s: Sink, state: SinkState): Sink {
    var r := s.(restarting := true);
    if s.isOpen && IsOpened(state) then Close(r) else r
  }

  predicate ReachesOpen(s: Sink, c: Call)
    requires c.Restart?
  {
    !Restarting(s, c.state).aborted && !(s.isOpen && IsOpened(c.state) && c.closeRc != 0) && c.formatOk && c.mapOk
  }

  function RestartSink(s: Sink, c: Call): (Sink, int)
    requires c.Restart?
  {
    var t := Restarting(s, c.state);
    if ReachesOpen(s, c) then (Open(t.(compressed := !c.pcm16), c.open), OpenRc(c.open))
    else if s.isOpen && IsOpened(c.state) && c.closeRc != 0 then (t, c.closeRc)
    else (t, -1)
  }

  /** pa_pal_sink is freed after the last call. */
  function Free(s: Sink): Sink {
    if !s.standby then Close(s) else s
  }

  /** The end of compressed playback tells the write loop to leave, if there is a stream. */
  function EndPlayback(s: Sink): Sink {
    if s.handle.Some? then s.(closeOutput := true) else s
  }

  predicate MayCall(s: Sink, c: Call) {
    !s.aborted
  }

  function Step(s: Sink, c: Call): Sink
    requires MayCall(s, c)
  {
    match c
    case SetState(state, next, o) => SetStateTo(s, state, next, o).0
    case Restart(_, _, _, _, _, _) => RestartSink(s, c).0
    case SetNoFormat => EndPlayback(s)
    case Wrote(rc) => s.(bytesWritten := WriteChunk.Add64(s.bytesWritten, rc))
  }

  // ---------------------------------------------------------------------------
  // The ledger, for every run

  /** The stream the sink will close. */
  function Held(s: Sink): set<nat> {
    if s.isOpen && s.handle.Some? then {s.handle.value} else {}
  }

  predicate Below(live: set<nat>, next: nat) {
    forall h :: h in live ==> h < next
  }

  lemma BelowGrows(live: set<nat>, next: nat)
    requires Below(live, next)
    ensures Below(live + {next}, next + 1) && next !in live
  {
  }

  lemma BelowShrinks(live: set<nat>, next: nat, h: nat)
    requires Below(live, next)
    ensures Below(live - {h}, next)
  {
  }

  predicate LedgerInv(s: Sink) {
    (s.handle.Some? ==> s.handle.value in s.live) && Below(s.live, s.nextStream)
  }

  /** Streams PAL still has and the sink will never close. */
  function Lost(s: Sink): set<nat> {
    s.live - Held(s)
  }

  /** What opening forgets: the stream held, or, when none is held, the new one if its buffer size cannot be set. */
  function OpenForgets(s: Sink, o: OpenOutcome): set<nat> {
    if s.isOpen then Held(s)
    else if o.openRc == 0 && o.bufferRc != 0 then {s.nextStream}
    else {}
  }

  function Forgets(s: Sink, c: Call): set<nat> {
    match c
    case SetState(state, next, o) =>
      if IsOpened(next) && s.standby && !s.isOpen && !(state == Init && s.dynamicUsecase)
      then OpenForgets(s, o.open) else {}
    case Restart(state, _, _, _, _, open) =>
      if ReachesOpen(s, c) then OpenForgets(Restarting(s, state), open) else {}
    case _ => {}
  }

  predicate ValidRun(s: Sink, calls: seq<Call>)
    decreases |calls|
  {
    calls == [] || (MayCall(s, calls[0]) && ValidRun(Step(s, calls[0]), calls[1..]))
  }

  function After(s: Sink, calls: seq<Call>): Sink
    requires ValidRun(s, calls)
    decreases |calls|
  {
    if calls == [] then s else After(Step(s, calls[0]), calls[1..])
  }

  function Forgotten(s: Sink, calls: seq<Call>): set<nat>
    requires ValidRun(s, calls)
    decreases |calls|
  {
    if calls == [] then {} else Forgets(s, calls[0]) + Forgotten(Step(s, calls[0]), calls[1..])
  }

  predicate Fresh(s: Sink) {
    s.standby && !s.isOpen && s.handle.None? && !s.restarting && !s.closeOutput && s.bytesWritten == 0
    && s.live == {} && !s.aborted
  }

  lemma RefusedLedger(s: Sink)
    requires LedgerInv(s)
    ensures LedgerInv(s.(handle := None)) && Lost(s.(handle := None)) == Lost(s) + Held(s)
  {
    hide Below;
  }

  lemma UnbufferedLedger(s: Sink)
    requires LedgerInv(s)
    ensures LedgerInv(TakeStream(s)) && s.nextStream !in s.live
    ensures Lost(TakeStream(s)) == Lost(s) + if s.isOpen then Held(s) else {s.nextStream}
  {
    BelowGrows(s.live, s.nextStream);
    hide Below;
  }

  lemma OpenedLedger(s: Sink, t: Sink)
    requires LedgerInv(s) && t == TakeStream(s).(isOpen := true, closeOutput := false)
    ensures LedgerInv(t) && Lost(t) == Lost(s) + Held(s)
  {
    BelowGrows(s.live, s.nextStream);
    hide Below;
  }

  lemma OpenLedger(s: Sink, o: OpenOutcome)
    requires LedgerInv(s)
    ensures LedgerInv(Open(s, o)) && Lost(Open(s, o)) == Lost(s) + OpenForgets(s, o)
    ensures Lost(s) !! OpenForgets(s, o)
  {
    UnbufferedLedger(s);
    assert Lost(s) !! {s.nextStream};
    assert Lost(s) !! Held(s);
    assert !s.isOpen ==> Held(s) == {};
    hide LedgerInv, Lost, TakeStream, Held;
    if o.openRc != 0 {
      RefusedLedger(s);
    } else if o.bufferRc == 0 {
      OpenedLedger(s, Open(s, o));
    }
  }

  lemma CloseLedger(s: Sink)
    requires LedgerInv(s)
    ensures LedgerInv(CloseIfOpened(s)) && Lost(CloseIfOpened(s)) == Lost(s)
  {
    if s.handle.Some? {
      BelowShrinks(s.live, s.nextStream, s.handle.value);
    }
    hide Below;
  }

  /** Only these fields matter to the ledger. */
  predicate SameLedger(s: Sink, t: Sink) {
    s.isOpen == t.isOpen && s.handle == t.handle && s.live == t.live && s.nextStream == t.nextStream
  }

  lemma LedgerDependsOn(s: Sink, t: Sink, o: OpenOutcome)
    requires SameLedger(s, t)
    ensures LedgerInv(s) == LedgerInv(t) && Lost(s) == Lost(t) && OpenForgets(s, o) == OpenForgets(t, o)
  {
  }

  lemma StartLedger(s: Sink, o: StartOutcome)
    requires LedgerInv(s)
    ensures LedgerInv(Start(s, o).0)
    ensures Lost(Start(s, o).0) == Lost(s) + if s.standby && !s.isOpen then OpenForgets(s, o.open) else {}
  {
    var t := if s.isOpen then s else Open(s, o.open);
    OpenLedger(s, o.open);
    CloseLedger(t);
    hide Open, CloseIfOpened, LedgerInv, Lost, OpenForgets;
    LedgerDependsOn(t, t.(restarting := false, standby := false), o.open);
  }

  lemma RestartingLedger(s: Sink, state: SinkState)
    requires LedgerInv(s)
    ensures LedgerInv(Restarting(s, state)) && Lost(Restarting(s, state)) == Lost(s)
  {
    var r := s.(restarting := true);
    LedgerDependsOn(s, r, OpenOutcome(0, 0));
    CloseLedger(r);
    hide LedgerInv, Lost, Close;
  }

  lemma RestartLedger(s: Sink, c: Call)
    requires LedgerInv(s) && c.Restart?
    ensures LedgerInv(RestartSink(s, c).0)
    ensures Lost(RestartSink(s, c).0) == Lost(s) + Forgets(s, c) && Lost(s) !! Forgets(s, c)
  {
    RestartingLedger(s, c.state);
    var t := Restarting(s, c.state);
    var u := t.(compressed := !c.pcm16);
    assert SameLedger(t, u);
    hide Restarting, OpenForgets, LedgerInv, Lost, Open, ReachesOpen, SameLedger;
    LedgerDependsOn(t, u, c.open);
    OpenLedger(u, c.open);
    assert ReachesOpen(s, c) ==> RestartSink(s, c).0 == Open(u, c.open) && Forgets(s, c) == OpenForgets(t, c.open);
    assert !ReachesOpen(s, c) ==> RestartSink(s, c).0 == t && Forgets(s, c) == {};
    hide RestartSink, Forgets;
  }

  lemma StepLedger(s: Sink, c: Call)
    requires LedgerInv(s) && MayCall(s, c)
    ensures LedgerInv(Step(s, c))
    ensures Lost(Step(s, c)) == Lost(s) + Forgets(s, c) && Lost(s) !! Forgets(s, c)
  {
    hide Open, Close, CloseIfOpened, Start, RestartSink;
    match c
    case SetState(state, next, o) =>
      StartLedger(s, o);
      CloseLedger(s);
      OpenLedger(s, o.open);
    case Restart(_, _, _, _, _, _) =>
      RestartLedger(s, c);
    case _ =>
      LedgerDependsOn(s, Step(s, c), OpenOutcome(0, 0));
  }

  lemma {:induction false} RunLedger(s: Sink, calls: seq<Call>)
    requires LedgerInv(s) && ValidRun(s, calls)
    ensures LedgerInv(After(s, calls))
    ensures Lost(After(s, calls)) == Lost(s) + Forgotten(s, calls)
    decreases |calls|
  {
    hide Step, LedgerInv, Forgets, Lost;
    if calls != [] {
      StepLedger(s, calls[0]);
      RunLedger(Step(s, calls[0]), calls[1..]);
    }
  }

  /**
   Streams opened and not closed are the one held, if any, and those forgotten on the way; the handle in hand is
   never that of a stream already closed.
  */
  lemma EveryStreamIsAccountedFor(init: Sink, calls: seq<Call>)
    requires Fresh(init) && ValidRun(init, calls)
    ensures var s := After(init, calls);
      && s.live == Held(s) + Forgotten(init, calls) && Held(s) !! Forgotten(init, calls)
      && (s.handle.Some? ==> s.handle.value in s.live)
  {
    RunLedger(init, calls);
  }

  // ---------------------------------------------------------------------------
  // Runs in which every restart closes the stream first

  /** A restart while the PAL stream is open but the core's sink is not: the guard that closes first is false. */
  predicate SkipsClose(s: Sink, c: Call) {
    c.Restart? && s.isOpen && !IsOpened(c.state)
  }

  ghost predicate Inv(s: Sink) {
    && LedgerInv(s)
    && !s.aborted
    && (!s.standby ==> s.isOpen && !s.restarting)
    && (s.isOpen ==> s.handle.Some?)
  }

  predicate Orderly(s: Sink, calls: seq<Call>)
    requires ValidRun(s, calls)
    decreases |calls|
  {
    calls == [] || (!SkipsClose(s, calls[0]) && Orderly(Step(s, calls[0]), calls[1..]))
  }

  /** The call opens a stream whose buffer size PAL then refuses to set. */
  predicate OpensWithoutBuffer(s: Sink, c: Call) {
    match c
    case SetState(state, next, o) =>
      s.standby && !s.isOpen && IsOpened(next) && !(state == Init && s.dynamicUsecase)
      && o.open.openRc == 0 && o.open.bufferRc != 0
    case Restart(_, _, _, _, _, open) =>
      ReachesOpen(s, c) && open.openRc == 0 && open.bufferRc != 0
    case _ => false
  }

  function BufferFailures(s: Sink, calls: seq<Call>): nat
    requires ValidRun(s, calls)
    decreases |calls|
  {
    if calls == [] then 0
    else (if OpensWithoutBuffer(s, calls[0]) then 1 else 0) + BufferFailures(Step(s, calls[0]), calls[1..])
  }

  lemma OpenEffect(s: Sink, o: OpenOutcome)
    ensures var t := Open(s, o);
      && (t.isOpen <==> s.isOpen || OpenRc(o) == 0)
      && (t.handle.Some? <==> o.openRc == 0)
      && (t.closeOutput <==> s.closeOutput && OpenRc(o) != 0)
      && t.standby == s.standby && t.restarting == s.restarting && t.bytesWritten == s.bytesWritten
      && t.aborted == s.aborted
  {
    if o.openRc == 0 {
      var u := TakeStream(s);
      assert u.handle.Some? && u.isOpen == s.isOpen && u.closeOutput == s.closeOutput && u.standby == s.standby
        && u.restarting == s.restarting && u.bytesWritten == s.bytesWritten && u.aborted == s.aborted;
      hide TakeStream;
    }
  }

  lemma RestartingEffect(s: Sink, state: SinkState)
    requires Inv(s)
    ensures var t := Restarting(s, state); var closes := s.isOpen && IsOpened(state);
      && (t.isOpen <==> s.isOpen && !closes)
      && (t.isOpen ==> t.handle == s.handle && t.live == s.live)
      && (t.closeOutput <==> s.closeOutput || closes)
      && (t.standby <==> s.standby || closes)
      && t.bytesWritten == (if closes then 0 else s.bytesWritten)
      && t.restarting && !t.aborted && t.nextStream == s.nextStream
  {
    hide LedgerInv;
  }

  lemma StartKeeps(s: Sink, o: StartOutcome)
    requires Inv(s)
    ensures Inv(Start(s, o).0)
  {
    StartLedger(s, o);
    OpenEffect(s, o.open);
    hide LedgerInv, Below, Open;
  }

  lemma RestartKeeps(s: Sink, c: Call)
    requires Inv(s) && c.Restart? && !SkipsClose(s, c)
    ensures Inv(RestartSink(s, c).0)
    ensures |Forgets(s, c)| == if OpensWithoutBuffer(s, c) then 1 else 0
  {
    RestartLedger(s, c);
    RestartingEffect(s, c.state);
    OpenEffect(Restarting(s, c.state).(compressed := !c.pcm16), c.open);
    hide LedgerInv, Restarting, Open;
  }

  lemma StepKeeps(s: Sink, c: Call)
    requires Inv(s) && MayCall(s, c) && !SkipsClose(s, c)
    ensures Inv(Step(s, c))
    ensures |Forgets(s, c)| == if OpensWithoutBuffer(s, c) then 1 else 0
  {
    hide Start, RestartSink;
    match c
    case SetState(state, next, o) =>
      StartKeeps(s, o);
      CloseLedger(s);
      hide LedgerInv, Below;
    case Restart(_, _, _, _, _, _) =>
      hide *;
      RestartKeeps(s, c);
    case _ =>
      LedgerDependsOn(s, Step(s, c), OpenOutcome(0, 0));
      hide LedgerInv;
  }

  lemma {:induction false} OrderlyRun(s: Sink, calls: seq<Call>)
    requires Inv(s) && ValidRun(s, calls) && Orderly(s, calls)
    ensures Inv(After(s, calls))
    ensures |Lost(After(s, calls))| == |Lost(s)| + BufferFailures(s, calls)
    decreases |calls|
  {
    if calls != [] {
      InvHasLedger(s);
      hide Inv, Step, OpensWithoutBuffer, SkipsClose, LedgerInv, Lost, Forgets;
      StepLedger(s, calls[0]);
      StepKeeps(s, calls[0]);
      OrderlyRun(Step(s, calls[0]), calls[1..]);
    }
  }

  lemma InvHasLedger(s: Sink)
    requires Inv(s)
    ensures LedgerInv(s)
  {
  }

  lemma HeldAndLost(s: Sink)
    requires LedgerInv(s)
    ensures |s.live| == |Held(s)| + |Lost(s)|
  {
    assert s.live == Held(s) + Lost(s);
  }

  /**
   Out of standby implies opened, opened implies a live stream handle, and streams opened minus streams
   closed is 1 exactly when opened, once each refused buffer size is set aside.
  */
  lemma Lifecycle(init: Sink, calls: seq<Call>)
    requires Fresh(init) && ValidRun(init, calls) && Orderly(init, calls)
    ensures var s := After(init, calls);
      && !s.aborted
      && (!s.standby ==> s.isOpen && !s.restarting)
      && (s.isOpen ==> s.handle.Some? && s.handle.value in s.live)
      && |s.live| == (if s.isOpen then 1 else 0) + BufferFailures(init, calls)
  {
    OrderlyRun(init, calls);
    hide After, BufferFailures, Below;
    HeldAndLost(After(init, calls));
  }

  /** What one call may do to a sink in good order, whatever the call: the handle is lost in one way only. */
  lemma HandleIsLostExactlyWhen(s: Sink, c: Call)
    requires Inv(s) && MayCall(s, c)
    ensures (Step(s, c).isOpen && Step(s, c).handle.None?) <==>
            (SkipsClose(s, c) && c.formatOk && c.mapOk && c.open.openRc != 0)
  {
    if SkipsClose(s, c) {
      RestartingEffect(s, c.state);
      OpenEffect(Restarting(s, c.state).(compressed := !c.pcm16), c.open);
      hide Inv, LedgerInv, Restarting, Open;
    } else {
      StepKeeps(s, c);
      hide LedgerInv, Step;
    }
  }

  /** And it goes on living in PAL's ledger, forgotten, in one way only. */
  lemma HeldStreamIsForgottenExactlyWhen(s: Sink, c: Call)
    requires Inv(s) && MayCall(s, c) && s.isOpen
    ensures s.handle.value in Forgets(s, c) <==> (SkipsClose(s, c) && c.formatOk && c.mapOk)
  {
    assert s.handle.value < s.nextStream;
    hide Below;
    if c.Restart? {
      RestartingEffect(s, c.state);
      hide Restarting;
    }
  }

  /** A start that fails leaves the sink closed and in standby; one that succeeds leaves it open and playing. */
  lemma StartIsAllOrNothing(s: Sink, o: StartOutcome)
    requires Inv(s)
    ensures var (t, rc) := Start(s, o);
      && (rc != 0 ==> t.standby && !t.isOpen)
      && (rc == 0 ==> !t.standby && t.isOpen && t.handle.value in t.live && !t.restarting)
      && rc == (if !s.standby then 0
                else if !s.isOpen && OpenRc(o.open) != 0 then OpenRc(o.open)
                else if s.compressed && o.paramRc != 0 then o.paramRc
                else o.startRc)
      && (rc != 0 && (s.isOpen || o.open.openRc != 0 || o.open.bufferRc == 0) ==> t.live == s.live - Held(s))
  {
    if !s.isOpen {
      assert s.nextStream !in s.live;
      assert s.live + {s.nextStream} - {s.nextStream} == s.live;
    }
  }

  /** What a state change amounts to, whatever the outcome of the PAL calls. */
  lemma StateChangeDoes(s: Sink, state: SinkState, next: SinkState, o: StartOutcome)
    requires Inv(s)
    ensures var (t, rc) := SetStateTo(s, state, next, o);
      && (next == Suspended || next == Unlinked ==>
            rc == 0 && t.standby && !t.isOpen && t.live == s.live - Held(s)
            && (s.isOpen ==> t.bytesWritten == 0))
      && (IsOpened(next) && !(state == Init && s.dynamicUsecase) ==> (rc == 0 <==> !t.standby))
      && (state == Init && s.dynamicUsecase && IsOpened(next) ==> t == s && rc == 0)
  {
    StartIsAllOrNothing(s, o);
    hide Start, LedgerInv;
  }

  /** Whatever call closes an open sink also tells the write loop to leave, and empties the count. */
  lemma ClosingStopsTheWriter(s: Sink, c: Call)
    requires Inv(s) && MayCall(s, c) && s.isOpen && !SkipsClose(s, c)
    ensures !Step(s, c).isOpen ==> Step(s, c).closeOutput && Step(s, c).standby && Step(s, c).bytesWritten == 0
  {
    hide LedgerInv, Held;
    if c.Restart? {
      OpenEffect(Restarting(s, c.state).(compressed := !c.pcm16), c.open);
      hide Open;
    }
  }

  /**
   A restart that closes first returns 0 exactly if every step did; then the sink is open in the new
   format. In any case rendering stays off, since only a start clears the restart flag.
  */
  lemma RestartReconfigures(s: Sink, c: Call)
    requires Inv(s) && c.Restart? && !SkipsClose(s, c)
    ensures var (t, rc) := RestartSink(s, c);
      && rc == (if s.isOpen && c.closeRc != 0 then c.closeRc else if c.formatOk && c.mapOk then OpenRc(c.open) else -1)
      && (rc == 0 ==> t.isOpen && t.compressed == !c.pcm16)
      && t.restarting && t.standby
  {
    RestartingEffect(s, c.state);
    OpenEffect(Restarting(s, c.state).(compressed := !c.pcm16), c.open);
    OpenKeepsFormat(Restarting(s, c.state).(compressed := !c.pcm16), c.open);
    hide Restarting, Open, LedgerInv;
  }

  lemma OpenKeepsFormat(s: Sink, o: OpenOutcome)
    ensures Open(s, o).compressed == s.compressed && Open(s, o).dynamicUsecase == s.dynamicUsecase
  {
    assert TakeStream(s).compressed == s.compressed && TakeStream(s).dynamicUsecase == s.dynamicUsecase;
    hide TakeStream;
  }

  /** By itself, free closes only what is playing: a stream opened by a restart and never started stays. */
  lemma FreeAloneLeaksExactlyIf(s: Sink)
    requires Inv(s)
    ensures !Free(s).aborted
    ensures Free(s).live == s.live - Held(s) <==> !(s.isOpen && s.standby)
  {
  }

  /** But closing a sink unlinks it first, and the two together always close the stream held, and only that. */
  lemma UnlinkThenFreeLeavesNothing(s: Sink, state: SinkState, o: StartOutcome)
    requires Inv(s)
    ensures var t := Free(SetStateTo(s, state, Unlinked, o).0); !t.aborted && t.live == s.live - Held(s)
  {
    StateChangeDoes(s, state, Unlinked, o);
    hide LedgerInv;
  }

  // ---------------------------------------------------------------------------
  // When an open sink has been told to stop writing

  /** The call gets as far as an open that succeeds, buffer size included. */
  predicate OpensStream(s: Sink, c: Call) {
    match c
    case SetState(state, next, o) =>
      s.standby && !s.isOpen && IsOpened(next) && !(state == Init && s.dynamicUsecase) && OpenRc(o.open) == 0
    case Restart(_, _, _, _, _, open) => ReachesOpen(s, c) && OpenRc(open) == 0
    case _ => false
  }

  predicate OpensLater(s: Sink, calls: seq<Call>)
    requires ValidRun(s, calls)
    decreases |calls|
  {
    calls != [] && (OpensStream(s, calls[0]) || OpensLater(Step(s, calls[0]), calls[1..]))
  }

  /** Compressed playback was ended while a handle was held, and no stream has been opened since. */
  predicate EndedSinceLastOpen(s: Sink, calls: seq<Call>)
    requires ValidRun(s, calls)
    decreases |calls|
  {
    calls != [] &&
    ((calls[0].SetNoFormat? && s.handle.Some? && !OpensLater(Step(s, calls[0]), calls[1..]))
     || EndedSinceLastOpen(Step(s, calls[0]), calls[1..]))
  }

  lemma StartCloses(s: Sink, o: StartOutcome)
    ensures var t := Start(s, o).0; var opens := s.standby && !s.isOpen && OpenRc(o.open) == 0;
      && (!s.isOpen && !opens ==> !t.isOpen)
      && (t.isOpen ==> (t.closeOutput <==> s.closeOutput && !opens))
  {
    OpenEffect(s, o.open);
    hide Open;
  }

  lemma CloseOutputStep(s: Sink, c: Call)
    requires MayCall(s, c)
    ensures var t := Step(s, c);
      && (!s.isOpen && !OpensStream(s, c) ==> !t.isOpen)
      && (t.isOpen ==> (t.closeOutput <==>
            if c.SetNoFormat? then s.closeOutput || s.handle.Some? else s.closeOutput && !OpensStream(s, c)))
  {
    match c
    case SetState(state, next, o) =>
      StartCloses(s, o);
      hide Start;
    case Restart(state, _, _, _, pcm16, open) =>
      OpenEffect(Restarting(s, state).(compressed := !pcm16), open);
      hide Open;
    case _ =>
  }

  lemma {:induction false} OnlyOpeningOpens(s: Sink, calls: seq<Call>)
    requires ValidRun(s, calls) && !s.isOpen && !OpensLater(s, calls)
    ensures !After(s, calls).isOpen
    decreases |calls|
  {
    if calls != [] {
      CloseOutputStep(s, calls[0]);
      hide Step, OpensStream;
      OnlyOpeningOpens(Step(s, calls[0]), calls[1..]);
    }
  }

  lemma {:induction false} CloseOutputFrom(s: Sink, calls: seq<Call>)
    requires ValidRun(s, calls) && After(s, calls).isOpen
    ensures After(s, calls).closeOutput <==> EndedSinceLastOpen(s, calls) || (s.closeOutput && !OpensLater(s, calls))
    decreases |calls|
  {
    if calls != [] {
      var t := Step(s, calls[0]);
      CloseOutputStep(s, calls[0]);
      hide Step, OpensStream;
      CloseOutputFrom(t, calls[1..]);
      if !t.isOpen && !OpensLater(t, calls[1..]) {
        OnlyOpeningOpens(t, calls[1..]);
      }
    }
  }

  /**
   Over every run, restarts that skip the close included: an open sink's write loop has been told to leave if
   and only if compressed playback was ended, with a handle held, since its last open. Nothing else lets it in
   again: not a start of a sink already open.
  */
  lemma ClosingExactlyIfEnded(init: Sink, calls: seq<Call>)
    requires Fresh(init) && ValidRun(init, calls) && After(init, calls).isOpen
    ensures After(init, calls).closeOutput <==> EndedSinceLastOpen(init, calls)
  {
    CloseOutputFrom(init, calls);
  }

  /** A run that ends playing with nothing to write: restart while suspended, end playback, start. */
  lemma PlaysWithoutWriting(init: Sink) returns (calls: seq<Call>)
    requires Fresh(init)
    ensures ValidRun(init, calls)
    ensures var s := After(init, calls); !s.standby && s.isOpen && !s.restarting && s.closeOutput
  {
    var restart := Restart(Suspended, 0, true, true, false, OpenOutcome(0, 0));
    var start := SetState(Suspended, Running, StartOutcome(OpenOutcome(0, 0), 0, 0));
    var s1 := Step(init, restart);
    var s2 := Step(s1, SetNoFormat);
    calls := RunCons(init, restart, RunCons(s1, SetNoFormat, RunCons(s2, start, [])));
  }

  // ---------------------------------------------------------------------------
  // Which format a sink plays

  /** The format of the last restart that reached its open, whether or not that open succeeded. */
  function FormatAsked(s: Sink, calls: seq<Call>, compressed: bool): bool
    requires ValidRun(s, calls)
    decreases |calls|
  {
    if calls == [] then compressed
    else
      var c := calls[0];
      FormatAsked(Step(s, c), calls[1..], if c.Restart? && ReachesOpen(s, c) then !c.pcm16 else compressed)
  }

  lemma CloseKeepsFormat(s: Sink)
    ensures CloseIfOpened(s).compressed == s.compressed && CloseIfOpened(s).dynamicUsecase == s.dynamicUsecase
  {
  }

  lemma StartKeepsFormat(s: Sink, o: StartOutcome)
    ensures Start(s, o).0.compressed == s.compressed && Start(s, o).0.dynamicUsecase == s.dynamicUsecase
  {
    OpenKeepsFormat(s, o.open);
    var t := if s.isOpen then s else Open(s, o.open);
    CloseKeepsFormat(t);
    hide Open, CloseIfOpened;
  }

  lemma RestartFormat(s: Sink, c: Call)
    requires c.Restart?
    ensures var t := RestartSink(s, c).0;
      t.compressed == (if ReachesOpen(s, c) then !c.pcm16 else s.compressed) && t.dynamicUsecase == s.dynamicUsecase
  {
    var t := Restarting(s, c.state);
    assert t.compressed == s.compressed && t.dynamicUsecase == s.dynamicUsecase;
    OpenKeepsFormat(t.(compressed := !c.pcm16), c.open);
    hide Open, Restarting, ReachesOpen;
  }

  lemma FormatStep(s: Sink, c: Call)
    requires MayCall(s, c)
    ensures Step(s, c).compressed == if c.Restart? && ReachesOpen(s, c) then !c.pcm16 else s.compressed
    ensures Step(s, c).dynamicUsecase == s.dynamicUsecase
  {
    match c
    case SetState(_, _, o) =>
      StartKeepsFormat(s, o);
      CloseKeepsFormat(s);
      hide Start, CloseIfOpened;
    case Restart(_, _, _, _, _, _) =>
      RestartFormat(s, c);
      hide RestartSink, ReachesOpen;
    case _ =>
      hide WriteChunk.Add64;
  }

  /** Over every run: only a restart that reaches its open changes the format, and nothing the use case. */
  lemma {:induction false} FormatIsTheLastAsked(s: Sink, calls: seq<Call>)
    requires ValidRun(s, calls)
    ensures After(s, calls).compressed == FormatAsked(s, calls, s.compressed)
    ensures After(s, calls).dynamicUsecase == s.dynamicUsecase
    decreases |calls|
  {
    if calls != [] {
      FormatStep(s, calls[0]);
      hide Step, ReachesOpen;
      FormatIsTheLastAsked(Step(s, calls[0]), calls[1..]);
    }
  }

  // ---------------------------------------------------------------------------
  // What bytes_written counts

  /** The call closes an open sink that has its handle: a suspend or unlink, a start that fails, a restart. */
  predicate ClosesStream(s: Sink, c: Call) {
    match c
    case SetState(state, next, o) =>
      if next == Suspended || next == Unlinked then s.isOpen && s.handle.Some?
      else
        && IsOpened(next) && !(state == Init && s.dynamicUsecase) && s.standby
        && (if s.isOpen then s.handle.Some? else OpenRc(o.open) == 0)
        && ((s.compressed && o.paramRc != 0) || o.startRc != 0)
    case Restart(state, _, _, _, _, _) => s.isOpen && s.handle.Some? && IsOpened(state)
    case _ => false
  }

  /** The sum of the codes of the writes counted since the last close. */
  function CountSince(s: Sink, calls: seq<Call>, sum: int): int
    requires ValidRun(s, calls)
    decreases |calls|
  {
    if calls == [] then sum
    else
      var c := calls[0];
      CountSince(Step(s, c), calls[1..],
                 if ClosesStream(s, c) then 0 else if c.Wrote? then sum + c.rc else sum)
  }

  lemma StartCount(s: Sink, o: StartOutcome)
    ensures Start(s, o).0.bytesWritten ==
      if ClosesStream(s, SetState(Suspended, Running, o)) then 0 else s.bytesWritten
  {
    OpenEffect(s, o.open);
    OpenKeepsFormat(s, o.open);
    hide Open;
  }

  lemma RestartCount(s: Sink, c: Call)
    requires c.Restart?
    ensures RestartSink(s, c).0.bytesWritten == if ClosesStream(s, c) then 0 else s.bytesWritten
  {
    OpenEffect(Restarting(s, c.state).(compressed := !c.pcm16), c.open);
    hide Open;
  }

  lemma CountStep(s: Sink, c: Call)
    requires MayCall(s, c)
    ensures Step(s, c).bytesWritten ==
      if ClosesStream(s, c) then 0 else if c.Wrote? then WriteChunk.Add64(s.bytesWritten, c.rc) else s.bytesWritten
  {
    match c
    case SetState(state, next, o) =>
      StartCount(s, o);
      hide Start;
    case Restart(_, _, _, _, _, _) =>
      RestartCount(s, c);
      hide ClosesStream, RestartSink;
    case _ =>
      hide WriteChunk.Add64;
  }

  lemma {:induction false} CountRun(s: Sink, calls: seq<Call>, sum: int)
    requires ValidRun(s, calls) && s.bytesWritten < WriteChunk.U64 && WriteChunk.SameWord(s.bytesWritten, sum)
    ensures After(s, calls).bytesWritten < WriteChunk.U64
    ensures WriteChunk.SameWord(After(s, calls).bytesWritten, CountSince(s, calls, sum))
    decreases |calls|
  {
    if calls != [] {
      var c, t := calls[0], Step(s, calls[0]);
      CountStep(s, c);
      var next := if ClosesStream(s, c) then 0 else if c.Wrote? then sum + c.rc else sum;
      if !ClosesStream(s, c) && c.Wrote? {
        WriteChunk.SameWordSum(s.bytesWritten, sum, t.bytesWritten, c.rc);
      }
      assert WriteChunk.SameWord(t.bytesWritten, next);
      hide Step, ClosesStream, WriteChunk.Add64, WriteChunk.SameWord;
      CountRun(t, calls[1..], next);
    }
  }

  /**
   Over every run: a start that returns 0 leaves in bytes_written, as a 64-bit word, the sum of the codes of the
   writes counted since the last close; so it is 0, as a stream should begin to play, if and only if that sum
   is a multiple of 2^64. It need not be: see the run below.
  */
  lemma StreamStartsAtZeroExactlyIf(init: Sink, calls: seq<Call>, o: StartOutcome)
    requires Fresh(init) && ValidRun(init, calls)
    requires Start(After(init, calls), o).1 == 0
    ensures Start(After(init, calls), o).0.bytesWritten == CountSince(init, calls, 0) % WriteChunk.U64
    ensures Start(After(init, calls), o).0.bytesWritten == 0 <==> CountSince(init, calls, 0) % WriteChunk.U64 == 0
  {
    CountRun(init, calls, 0);
    StartCount(After(init, calls), o);
    WriteChunk.WordOf(After(init, calls).bytesWritten, CountSince(init, calls, 0));
    hide After, CountSince;
  }

  /**
   A write of the compressed sink's own thread, counted only after the close has zeroed the count, is carried
   over into the next stream.
  */
  lemma LateCountIsCarriedOver(init: Sink, rc: nat) returns (calls: seq<Call>)
    requires Fresh(init) && init.compressed && rc < WriteChunk.U64
    ensures ValidRun(init, calls)
    ensures var s := After(init, calls);
      !s.standby && s.handle == Some(init.nextStream + 1) && s.live == {init.nextStream + 1} && s.bytesWritten == rc
  {
    var start := SetState(Suspended, Running, StartOutcome(OpenOutcome(0, 0), 0, 0));
    var suspend := SetState(Running, Suspended, StartOutcome(OpenOutcome(0, 0), 0, 0));
    var s1 := Step(init, start);
    var s2 := Step(s1, suspend);
    assert s2.live == {} && s2.bytesWritten == 0;
    var s3 := Step(s2, Wrote(rc));
    calls := RunCons(init, start, RunCons(s1, suspend, RunCons(s2, Wrote(rc), RunCons(s3, start, []))));
  }

  // ---------------------------------------------------------------------------
  // The hazard: a second restart while suspended

  function RunCons(s: Sink, c: Call, rest: seq<Call>): (calls: seq<Call>)
    requires MayCall(s, c) && ValidRun(Step(s, c), rest)
    ensures ValidRun(s, calls) && After(s, calls) == After(Step(s, c), rest)
  {
    var calls := [c] + rest;
    assert calls[1..] == rest;
    calls
  }

  /**
   Two restarts of a suspended sink: the first stream is forgotten, and if the second open fails the next
   suspend aborts.
  */
  lemma SecondRestartWhileSuspended(init: Sink, secondOpenRc: int) returns (calls: seq<Call>)
    requires Fresh(init)
    ensures ValidRun(init, calls)
    ensures After(init, calls).live == {init.nextStream}
    ensures After(init, calls).aborted <==> secondOpenRc != 0
    ensures init.nextStream in After(init, calls).live
  {
    var first := Restart(Suspended, 0, true, true, true, OpenOutcome(0, 0));
    var second := Restart(Suspended, 0, true, true, true, OpenOutcome(secondOpenRc, 0));
    var suspend := SetState(Suspended, Suspended, StartOutcome(OpenOutcome(0, 0), 0, 0));
    var s1 := Step(init, first);
    var s2 := Step(s1, second);
    var s3 := Step(s2, suspend);
    calls := RunCons(init, first, RunCons(s1, second, RunCons(s2, suspend, [])));
  }

  // ---------------------------------------------------------------------------
  // The sink as the source keeps it

  class PalSink {
    var standby: bool
    var isOpen: bool
    var handle: Option<nat>
    var compressed: bool
    var restarting: bool
    var closeOutput: bool
    var bytesWritten: nat
    const dynamicUsecase: bool
    /** PAL's ledger. */
    ghost var live: set<nat>
    var nextStream: nat
    /** An assertion of the source has failed. */
    var aborted: bool

    ghost function View(): Sink
      reads this
    {
      Sink(standby, isOpen, handle, compressed, restarting, closeOutput, bytesWritten, dynamicUsecase,
           live, nextStream, aborted)
    }

    constructor (compressedFormat: bool, dynamic: bool)
      ensures Fresh(View()) && View().compressed == compressedFormat && View().dynamicUsecase == dynamic
    {
      standby, isOpen, handle, compressed, restarting := true, false, None, compressedFormat, false;
      closeOutput, bytesWritten, dynamicUsecase, live, nextStream, aborted := false, 0, dynamic, {}, 0, false;
    }

    method OpenPalSink(o: OpenOutcome) returns (rc: int)
      modifies this
      ensures View() == Open(old(View()), o) && rc == OpenRc(o)
    {
      rc := o.openRc;
      if rc != 0 {
        handle := None;
        return;
      }
      handle := Some(nextStream);
      live := live + {nextStream};
      nextStream := nextStream + 1;
      rc := o.bufferRc;
      if rc != 0 {
        return;
      }
      isOpen := true;
      closeOutput := false;
    }

    method ClosePalSink(closeRc: int) returns (rc: int)
      modifies this
      ensures View() == Close(old(View()))
      ensures rc == if old(handle).None? then -1 else closeRc
    {
      rc := -1;
      if handle.None? {
        aborted := true;
        return;
      }
      closeOutput := true;
      live := live - {handle.value};
      rc := closeRc;
      handle := None;
      bytesWritten := 0;
      standby := true;
      isOpen := false;
    }

    method StartSink(o: StartOutcome, closeRc: int) returns (rc: int)
      modifies this
      ensures (View(), rc) == Start(old(View()), o)
    {
      rc := 0;
      if standby {
        if !isOpen {
          rc := OpenPalSink(o.open);
        }
        if rc == 0 && compressed {
          rc := o.paramRc;
        }
        if rc == 0 {
          rc := o.startRc;
        }
        hide Open, Close;
        if rc != 0 {
          if isOpen {
            var _ := ClosePalSink(closeRc);
          }
          return;
        }
        restarting := false;
      }
      standby := false;
    }

    method Standby(closeRc: int) returns (rc: int)
      modifies this
      ensures View() == CloseIfOpened(old(View())) && rc == 0
    {
      if isOpen {
        var _ := ClosePalSink(closeRc);
      }
      rc := 0;
    }

    method SetStateInIoThread(state: SinkState, next: SinkState, o: StartOutcome, closeRc: int) returns (rc: int)
      modifies this
      ensures (View(), rc) == SetStateTo(old(View()), state, next, o)
    {
      hide Start, CloseIfOpened;
      rc := 0;
      if state == Init && IsOpened(next) && dynamicUsecase {
      } else if IsOpened(next) {
        rc := StartSink(o, closeRc);
      } else if next == Suspended || (next == Unlinked && isOpen) {
        rc := Standby(closeRc);
      }
    }

    method RestartPalSink(c: Call) returns (rc: int)
      requires c.Restart?
      modifies this
      ensures !old(View()).aborted && !Restarting(old(View()), c.state).aborted ==>
        (View(), rc) == RestartSink(old(View()), c)
      ensures Restarting(old(View()), c.state).aborted ==> View().aborted
    {
      restarting := true;
      if isOpen && IsOpened(c.state) {
        rc := ClosePalSink(c.closeRc);
        if rc != 0 {
          return;
        }
      }
      if !c.formatOk {
        return -1;
      }
      if !c.mapOk {
        return -1;
      }
      hide Open;
      compressed := !c.pcm16;
      rc := OpenPalSink(c.open);
    }

    /** set_format with no format. */
    method SetFormatNull()
      modifies this`closeOutput
      ensures View() == EndPlayback(old(View()))
    {
      if handle.Some? {
        closeOutput := true;
      }
    }

    method FreePalSink(closeRc: int)
      modifies this
      ensures View() == Free(old(View()))
    {
      if !standby {
        var _ := ClosePalSink(closeRc);
      }
    }
  }
}
