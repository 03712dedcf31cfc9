/**
 The voice-UI server session: the async read thread, the D-Bus handlers of the main thread and
 PAL's detection callback, as a step system over the accesses that they make to the shared fields.

 Handlers and thread exclude each other with the session mutex; the callback, and the unload
 handler's EXIT write, take no lock, so they may land between any two steps.
*/
module ReadBufferServer {

  const ENODATA := 61

  type Bytes = seq<bv8>

  datatype ThreadState = Idle | ReadQueued | StopBuffering | Exit

  datatype Owner = Free | Async | Main

  /** Where the async thread is. `Reading` and `Stopping` are the unlocked PAL calls. */
  datatype AsyncPc =
    | Start
    | TestExit
    | BeforeWait
    | Waiting(woken: bool)
    | TestStop
    | Stopping(afterRead: bool)
    | TestRead
    | Reading
    | TestQueued(ret: int)
    | TestStopped
    | Emitting(ret: int)
    | Clearing
    | Done

  /** Where the main thread, which runs one D-Bus handler at a time, is. */
  datatype MainPc =
    | Ready
    | ReqTest(bytes: nat)
    | ReqSet(bytes: nat)
    | ReqFinish(bytes: nat)
    | StopPal
    | StopSet
    | StopFinish
    | UnloadSignal
    | UnloadJoin
    | Unloaded

  /**
   A ReadBufferAvailable signal. `capacity` is the size of the buffer that PAL read into, `asked` the
   size that the read last accepted asked for, and `read` the number of that read among those accepted.
  */
  datatype Signal = Signal(seqno: nat, status: int, data: Bytes, capacity: nat, asked: nat, read: nat)

  datatype Session = Session(
    state: ThreadState,
    async: AsyncPc,
    main: MainPc,
    owner: Owner,
    readBytes: nat,
    bufBytes: nat,
    asked: nat,
    seqno: nat,
    emitted: seq<Signal>,
    // What happened to the reads so far
    accepted: nat,
    answered: nat,
    cancelled: nat,
    dropped: nat,
    failedStops: nat,
    quiet: bool,
    // StopBufferingDone signals sent
    stopsDone: nat)

  /** The session as load_sound_model leaves it, with the thread created but not yet running. */
  predicate Fresh(s: Session) {
    && s.state == Idle && s.async == Start && s.main == Ready && s.owner == Free
    && s.seqno == 0 && s.emitted == []
    && s.accepted == s.answered == s.cancelled == s.dropped == s.failedStops == 0
    && !s.quiet && s.stopsDone == 0
  }

  /** One step of somebody. `ret`, `status` and `data` are PAL's answers, chosen freely. */
  datatype Action =
    | AsyncStep(ret: int, data: Bytes)
    | Spurious
    | MainStep(status: int)
    | Request(bytes: nat)
    | Stop
    | Unload
    | Detection

  /** The async thread is committed to answering the queued read, or has just answered it. */
  predicate Committed(s: Session) {
    s.async.Emitting? || s.async.Clearing?
  }

  /** A queued read that nobody has answered yet and that overwriting the state would lose. */
  function Queued(s: Session): nat {
    if s.state == ReadQueued && !Committed(s) then 1 else 0
  }

  function Pending(s: Session): nat {
    if s.async.Emitting? then 1 else Queued(s)
  }

  predicate HoldsMutex(pc: AsyncPc) {
    !pc.Start? && !pc.Waiting? && !pc.Stopping? && !pc.Reading? && !pc.Done?
  }

  predicate InHandler(pc: MainPc) {
    pc.ReqTest? || pc.ReqSet? || pc.ReqFinish? || pc.StopPal? || pc.StopSet? || pc.StopFinish?
  }

  predicate AsyncEnabled(s: Session, data: Bytes) {
    match s.async
    case Start => s.owner == Free
    case Waiting(woken) => woken && s.owner == Free
    case Stopping(_) => s.owner == Free
    case Reading => s.owner == Free
    case Emitting(_) => |data| == s.readBytes
    case Done => false
    case _ => true
  }

  predicate Enabled(s: Session, a: Action) {
    s.main != Unloaded &&
    match a
    case AsyncStep(_, data) => AsyncEnabled(s, data)
    case Spurious => s.async == Waiting(false)
    case MainStep(_) => s.main != Ready && (s.main == UnloadJoin ==> s.async == Done)
    case Request(_) => s.main == Ready && s.owner == Free
    case Stop => s.main == Ready && s.owner == Free
    case Unload => s.main == Ready
    case Detection => true
  }

  /** async_thread_func, one access at a time. */
  function StepAsync(s: Session, ret: int, data: Bytes): Session
    requires AsyncEnabled(s, data)
  {
    match s.async
    case Start => s.(owner := Async, async := TestExit)
    case TestExit =>
      if s.state == Exit then s.(owner := Free, async := Done) else s.(async := BeforeWait)
    case BeforeWait => s.(owner := Free, async := Waiting(false))
    case Waiting(_) => s.(owner := Async, async := TestStop)
    case TestStop =>
      if s.state == StopBuffering then s.(owner := Free, async := Stopping(false)) else s.(async := TestRead)
    case Stopping(afterRead) =>
      s.(owner := Async, async := if afterRead then TestExit else TestRead, stopsDone := s.stopsDone + 1)
    case TestRead =>
      if s.state != ReadQueued then s.(async := TestExit)
      else s.(owner := Free, async := Reading, bufBytes := s.readBytes)
    case Reading => s.(owner := Async, async := TestQueued(if ret <= 0 then -ENODATA else ret))
    case TestQueued(r) => s.(async := if s.state == ReadQueued then Emitting(r) else TestStopped)
    case TestStopped =>
      if s.state == StopBuffering then s.(owner := Free, async := Stopping(true)) else s.(async := TestExit)
    case Emitting(r) =>
      s.(async := Clearing,
         seqno := s.seqno + 1,
         emitted := s.emitted + [Signal(s.seqno + 1, r, data, s.bufBytes, s.asked, s.accepted)],
         answered := s.answered + 1)
    case Clearing => s.(state := Idle, async := TestExit)
  }

  /** pa_cond_signal: wakes the thread only if it is already in the wait. */
  function SignalCond(s: Session): Session {
    if s.async.Waiting? then s.(async := Waiting(true)) else s
  }

  /** The handlers, one access at a time. A failed stop returns without unlocking. */
  function StepMain(s: Session, status: int): Session
    requires Enabled(s, MainStep(status))
  {
    match s.main
    case ReqTest(bytes) =>
      if bytes == 0 || s.state != Idle then s.(owner := Free, main := Ready) else s.(main := ReqSet(bytes))
    case ReqSet(bytes) => s.(state := ReadQueued, main := ReqFinish(bytes), asked := bytes, accepted := s.accepted + 1)
    case ReqFinish(bytes) => SignalCond(s).(readBytes := bytes, owner := Free, main := Ready)
    case StopPal => if status != 0 then s.(main := Ready, failedStops := s.failedStops + 1) else s.(main := StopSet)
    case StopSet =>
      s.(state := StopBuffering, main := StopFinish, cancelled := s.cancelled + Queued(s), quiet := true)
    case StopFinish => SignalCond(s).(owner := Free, main := Ready)
    case UnloadSignal => SignalCond(s).(main := UnloadJoin)
    case UnloadJoin => s.(main := Unloaded)
  }

  function Apply(s: Session, a: Action): Session
    requires Enabled(s, a)
  {
    match a
    case AsyncStep(ret, data) => StepAsync(s, ret, data)
    case Spurious => s.(async := Waiting(true))
    case MainStep(status) => StepMain(s, status)
    case Request(bytes) => s.(owner := Main, main := ReqTest(bytes))
    case Stop => s.(owner := Main, main := StopPal)
    case Unload => s.(state := Exit, main := UnloadSignal, cancelled := s.cancelled + Queued(s))
    case Detection => s.(state := Idle, dropped := s.dropped + Queued(s), quiet := false)
  }

  predicate ValidRun(s: Session, acts: seq<Action>)
    decreases |acts|
  {
    acts == [] || (Enabled(s, acts[0]) && ValidRun(Apply(s, acts[0]), acts[1..]))
  }

  function After(s: Session, acts: seq<Action>): Session
    requires ValidRun(s, acts)
    decreases |acts|
  {
    if acts == [] then s else After(Apply(s, acts[0]), acts[1..])
  }

  // ---------------------------------------------------------------------------
  // What every interleaving keeps

  ghost predicate Numbered(log: seq<Signal>) {
    forall i :: 0 <= i < |log| ==>
      log[i].seqno == i + 1 && log[i].status != 0 && |log[i].data| == log[i].asked
  }

  /** Mutual exclusion; only a failed stop leaves the mutex with an idle main thread. */
  predicate Locks(s: Session) {
    && (s.owner == Async <==> HoldsMutex(s.async))
    && (InHandler(s.main) ==> s.owner == Main)
    && (s.owner == Main && !InHandler(s.main) <==> s.failedStops > 0)
    && s.failedStops <= 1
  }

  /** Every accepted read has exactly one fate, and after a successful stop there is nothing to answer. */
  predicate Fates(s: Session) {
    && s.accepted == s.answered + s.cancelled + s.dropped + Pending(s)
    && (s.main.ReqSet? ==> s.state == Idle || s.state == Exit)
    && (s.quiet ==> (s.state == StopBuffering || s.state == Exit)
                    && !Committed(s) && !s.main.ReqSet? && !s.main.ReqFinish?)
  }

  /** No accepted read is answered twice, and they are answered in order. */
  ghost predicate OnceEach(log: seq<Signal>, answerable: int) {
    && (forall i :: 0 <= i < |log| ==> 1 <= log[i].read <= answerable)
    && (forall i, j :: 0 <= i < j < |log| ==> log[i].read < log[j].read)
  }

  /** The emitted numbers are 1, 2, 3, ...; the size asked for reaches the thread before the mutex is free again. */
  ghost predicate Signals(s: Session) {
    && s.seqno == |s.emitted| == s.answered
    && Numbered(s.emitted)
    && (s.async.TestQueued? ==> s.async.ret != 0)
    && (s.async.Emitting? ==> s.async.ret != 0)
    && (if s.main.ReqFinish? then s.main.bytes == s.asked else s.accepted > 0 ==> s.readBytes == s.asked)
  }

  ghost predicate Inv(s: Session) {
    Locks(s) && Fates(s) && Signals(s)
  }

  lemma NumberedGrows(log: seq<Signal>, e: Signal)
    requires Numbered(log) && e.seqno == |log| + 1 && e.status != 0 && |e.data| == e.asked
    ensures Numbered(log + [e])
  {
  }

  lemma AsyncKeepsFates(s: Session, ret: int, data: Bytes)
    requires Locks(s) && Fates(s) && AsyncEnabled(s, data)
    ensures Locks(StepAsync(s, ret, data)) && Fates(StepAsync(s, ret, data))
  {
  }

  lemma AsyncKeepsSignals(s: Session, ret: int, data: Bytes)
    requires Inv(s) && AsyncEnabled(s, data)
    ensures Signals(StepAsync(s, ret, data))
  {
    if s.async.Emitting? {
      assert s.readBytes == s.asked;
      NumberedGrows(s.emitted, Signal(s.seqno + 1, s.async.ret, data, s.bufBytes, s.asked, s.accepted));
    }
    hide Numbered;
  }

  lemma MainKeepsFates(s: Session, status: int)
    requires Locks(s) && Fates(s) && Enabled(s, MainStep(status))
    ensures Locks(StepMain(s, status)) && Fates(StepMain(s, status))
  {
  }

  lemma MainKeepsSignals(s: Session, status: int)
    requires Inv(s) && Enabled(s, MainStep(status))
    ensures Signals(StepMain(s, status))
  {
    hide Numbered;
  }

  lemma InvStep(s: Session, a: Action)
    requires Inv(s) && Enabled(s, a)
    ensures Inv(Apply(s, a))
  {
    match a
    case AsyncStep(ret, data) =>
      AsyncKeepsFates(s, ret, data);
      AsyncKeepsSignals(s, ret, data);
      hide Locks, Fates, Signals, StepAsync;
    case MainStep(status) =>
      MainKeepsFates(s, status);
      MainKeepsSignals(s, status);
      hide Locks, Fates, Signals, StepMain;
    case _ =>
      hide Numbered, StepAsync, StepMain;
  }

  lemma OnceEachGrows(log: seq<Signal>, e: Signal, answerable: int)
    requires OnceEach(log, answerable) && answerable >= 0 && e.read == answerable + 1
    ensures OnceEach(log + [e], answerable + 1)
  {
  }

  /** Only the thread's emission adds a signal, and only a handler's ReqSet a read that may be answered. */
  lemma OnceEachStep(s: Session, a: Action)
    requires Inv(s) && OnceEach(s.emitted, s.accepted - Pending(s)) && Enabled(s, a)
    ensures OnceEach(Apply(s, a).emitted, Apply(s, a).accepted - Pending(Apply(s, a)))
  {
    var t := Apply(s, a);
    if a.AsyncStep? && s.async.Emitting? {
      var sig := Signal(s.seqno + 1, s.async.ret, a.data, s.bufBytes, s.asked, s.accepted);
      OnceEachGrows(s.emitted, sig, s.accepted - 1);
      hide OnceEach, Numbered;
    } else {
      NothingElseAnswers(s, a);
      hide Apply, Pending, Inv;
    }
  }

  lemma NothingElseAnswers(s: Session, a: Action)
    requires Locks(s) && Fates(s) && Enabled(s, a) && !(a.AsyncStep? && s.async.Emitting?)
    ensures Apply(s, a).emitted == s.emitted
    ensures s.accepted - Pending(s) <= Apply(s, a).accepted - Pending(Apply(s, a))
    ensures !(a.MainStep? && s.main.ReqSet?) ==>
      Apply(s, a).accepted == s.accepted && Pending(Apply(s, a)) <= Pending(s)
  {
  }

  lemma {:induction false} InvRun(s: Session, acts: seq<Action>)
    requires Inv(s) && ValidRun(s, acts)
    ensures Inv(After(s, acts))
    decreases |acts|
  {
    if acts != [] {
      InvStep(s, acts[0]);
      InvRun(Apply(s, acts[0]), acts[1..]);
    }
  }

  lemma {:induction false} OnceEachRun(s: Session, acts: seq<Action>)
    requires Inv(s) && OnceEach(s.emitted, s.accepted - Pending(s)) && ValidRun(s, acts)
    ensures var t := After(s, acts); OnceEach(t.emitted, t.accepted - Pending(t))
    decreases |acts|
  {
    hide Inv, OnceEach, Apply, Enabled, Pending;
    if acts != [] {
      InvStep(s, acts[0]);
      OnceEachStep(s, acts[0]);
      OnceEachRun(Apply(s, acts[0]), acts[1..]);
    }
  }

  /**
   Over every interleaving: signals are numbered 1, 2, 3, ..., each carries as many bytes as the read
   last accepted asked for, they answer different accepted reads in the order of acceptance, and no read
   has two fates or none.
  */
  lemma {:induction false} EveryReadHasOneFate(init: Session, acts: seq<Action>)
    requires Fresh(init) && ValidRun(init, acts)
    ensures var s := After(init, acts);
            && Numbered(s.emitted)
            && OnceEach(s.emitted, s.accepted - Pending(s))
            && s.answered == |s.emitted|
            && s.accepted == s.answered + s.cancelled + s.dropped + Pending(s)
            && Pending(s) <= 1
  {
    InvRun(init, acts);
    OnceEachRun(init, acts);
  }

  // ---------------------------------------------------------------------------
  // What PAL answered

  /** PAL's answers to the reads that were signalled, in order; `last` is its answer to the read before the run. */
  function SignalledAnswers(s: Session, acts: seq<Action>, last: int): seq<int>
    requires ValidRun(s, acts)
    decreases |acts|
  {
    if acts == [] then []
    else
      (if acts[0].AsyncStep? && s.async.Emitting? then [last] else [])
      + SignalledAnswers(Apply(s, acts[0]), acts[1..], NextAnswer(s, acts[0], last))
  }

  /** PAL answers when the thread leaves its unlocked read. */
  function NextAnswer(s: Session, a: Action, last: int): int {
    if a.AsyncStep? && s.async.Reading? then a.ret else last
  }

  function LastAnswer(s: Session, acts: seq<Action>, last: int): int
    requires ValidRun(s, acts)
    decreases |acts|
  {
    if acts == [] then last else LastAnswer(Apply(s, acts[0]), acts[1..], NextAnswer(s, acts[0], last))
  }

  /** A positive answer is passed on; anything else becomes the one error code. */
  predicate Reports(status: int, answer: int) {
    if answer > 0 then status == answer else status == -61
  }

  ghost predicate AllReport(log: seq<Signal>, answers: seq<int>) {
    |log| == |answers| && forall i :: 0 <= i < |log| ==> Reports(log[i].status, answers[i])
  }

  /** The signal in the making reports the latest answer. */
  predicate MakingReports(s: Session, last: int) {
    match s.async
    case TestQueued(ret) => Reports(ret, last)
    case Emitting(ret) => Reports(ret, last)
    case _ => true
  }

  lemma ReportsStep(s: Session, a: Action, answers: seq<int>, last: int)
    requires Enabled(s, a) && AllReport(s.emitted, answers) && MakingReports(s, last)
    ensures MakingReports(Apply(s, a), NextAnswer(s, a, last))
    ensures AllReport(Apply(s, a).emitted, answers + if a.AsyncStep? && s.async.Emitting? then [last] else [])
  {
  }

  lemma {:induction false} ReportsRun(s: Session, acts: seq<Action>, answers: seq<int>, last: int)
    requires ValidRun(s, acts) && AllReport(s.emitted, answers) && MakingReports(s, last)
    ensures AllReport(After(s, acts).emitted, answers + SignalledAnswers(s, acts, last))
    ensures MakingReports(After(s, acts), LastAnswer(s, acts, last))
    decreases |acts|
  {
    if acts == [] {
      assert answers + [] == answers;
    } else {
      ReportsStep(s, acts[0], answers, last);
      hide Apply, Enabled, AllReport, MakingReports, NextAnswer;
      var next := if acts[0].AsyncStep? && s.async.Emitting? then [last] else [];
      var t := Apply(s, acts[0]);
      ReportsRun(t, acts[1..], answers + next, NextAnswer(s, acts[0], last));
      assert answers + (next + SignalledAnswers(t, acts[1..], NextAnswer(s, acts[0], last)))
        == answers + next + SignalledAnswers(t, acts[1..], NextAnswer(s, acts[0], last));
    }
  }

  /**
   Over every interleaving: the status of each signal sent is what PAL answered to the thread's read before it,
   if that was positive, and otherwise -ENODATA; so is the status of the signal in the making.
  */
  lemma StatusIsPalsAnswer(init: Session, acts: seq<Action>)
    requires Fresh(init) && ValidRun(init, acts)
    ensures AllReport(After(init, acts).emitted, SignalledAnswers(init, acts, 0))
    ensures MakingReports(After(init, acts), LastAnswer(init, acts, 0))
  {
    ReportsRun(init, acts, [], 0);
    assert [] + SignalledAnswers(init, acts, 0) == SignalledAnswers(init, acts, 0);
  }

  /** What a step shows to the outside: where the handler is, what was accepted, what was sent. */
  lemma StepShows(s: Session, a: Action)
    requires Enabled(s, a)
    ensures var t := Apply(s, a);
      && (t.emitted == s.emitted || (a.AsyncStep? && s.async.Emitting?
            && t.emitted == s.emitted + [Signal(s.seqno + 1, s.async.ret, a.data, s.bufBytes, s.asked, s.accepted)]))
      && (t.accepted, t.asked) == (if a.MainStep? && s.main.ReqSet? then (s.accepted + 1, s.main.bytes)
                                   else (s.accepted, s.asked))
      && (a.Request? ==> s.main == Ready && t.main == ReqTest(a.bytes))
      && (a.MainStep? && s.main.ReqTest? ==>
            t.main == if s.main.bytes == 0 || s.state != Idle then Ready else ReqSet(s.main.bytes))
      && (a.MainStep? && s.main.ReqSet? ==> t.main == ReqFinish(s.main.bytes) && t.emitted == s.emitted)
      && (a.MainStep? && s.main.ReqFinish? ==> t.main == Ready)
      && (!a.MainStep? && !a.Request? ==> t.main == s.main || (!InRequest(t.main) && !InRequest(s.main)))
      && (a.MainStep? && !InRequest(s.main) ==> !InRequest(t.main))
  {
    match a
    case AsyncStep(_, _) => hide StepMain;
    case MainStep(_) => hide StepAsync;
    case _ => hide StepAsync, StepMain;
  }

  predicate InRequest(pc: MainPc) {
    pc.ReqTest? || pc.ReqSet? || pc.ReqFinish?
  }

  // ---------------------------------------------------------------------------
  // Stopping

  predicate NoDetection(acts: seq<Action>) {
    forall i :: 0 <= i < |acts| ==> !acts[i].Detection?
  }

  lemma QuietStep(s: Session, a: Action)
    requires Fates(s) && s.quiet && Enabled(s, a) && !a.Detection?
    ensures Apply(s, a).quiet && Apply(s, a).emitted == s.emitted && Apply(s, a).accepted == s.accepted
  {
  }

  lemma {:induction false} QuietRun(s: Session, acts: seq<Action>)
    requires Inv(s) && s.quiet && ValidRun(s, acts) && NoDetection(acts)
    ensures var t := After(s, acts);
            t.quiet && t.emitted == s.emitted && t.accepted == s.accepted
    decreases |acts|
  {
    if acts != [] {
      InvStep(s, acts[0]);
      QuietStep(s, acts[0]);
      hide Apply, Enabled, Inv;
      QuietRun(Apply(s, acts[0]), acts[1..]);
    }
  }

  /**
   After any run that has brought stop_buffering past a successful pal_stream_stop, the handler's
   next step silences the session: until the next detection callback no read is accepted and no
   ReadBufferAvailable is sent, even if the thread is inside its unlocked pal_stream_read.
  */
  lemma {:induction false} StopSafety(init: Session, before: seq<Action>, status: int, after: seq<Action>)
    requires Fresh(init) && ValidRun(init, before) && After(init, before).main == StopSet
    requires var s := Apply(After(init, before), MainStep(status));
             ValidRun(s, after) && NoDetection(after)
    ensures var s := Apply(After(init, before), MainStep(status));
            var t := After(s, after);
            t.emitted == s.emitted && t.accepted == s.accepted
  {
    InvRun(init, before);
    var s := After(init, before);
    InvStep(s, MainStep(status));
    QuietRun(Apply(s, MainStep(status)), after);
  }

  /** The thread looks at the state, after its wait or after a read, and finds STOP_BUFFERING. */
  function SeesStop(s: Session, a: Action): nat {
    if a.AsyncStep? && (s.async.TestStop? || s.async.TestStopped?) && s.state == StopBuffering then 1 else 0
  }

  function StopsSeen(s: Session, acts: seq<Action>): nat
    requires ValidRun(s, acts)
    decreases |acts|
  {
    if acts == [] then 0 else SeesStop(s, acts[0]) + StopsSeen(Apply(s, acts[0]), acts[1..])
  }

  function IsStopping(s: Session): nat {
    if s.async.Stopping? then 1 else 0
  }

  lemma SeesStopStep(s: Session, a: Action)
    requires Enabled(s, a)
    ensures Apply(s, a).stopsDone + IsStopping(Apply(s, a)) == s.stopsDone + IsStopping(s) + SeesStop(s, a)
  {
  }

  lemma {:induction false} StopsSeenFrom(s: Session, acts: seq<Action>)
    requires ValidRun(s, acts)
    ensures After(s, acts).stopsDone + IsStopping(After(s, acts)) == s.stopsDone + IsStopping(s) + StopsSeen(s, acts)
    decreases |acts|
  {
    if acts != [] {
      SeesStopStep(s, acts[0]);
      hide Apply, Enabled, SeesStop, IsStopping;
      StopsSeenFrom(Apply(s, acts[0]), acts[1..]);
    }
  }

  /** Over every interleaving: StopBufferingDone is sent once for each time the thread finds STOP_BUFFERING. */
  lemma EveryStopSeenIsAnswered(init: Session, acts: seq<Action>)
    requires Fresh(init) && ValidRun(init, acts)
    ensures After(init, acts).stopsDone + IsStopping(After(init, acts)) == StopsSeen(init, acts)
  {
    StopsSeenFrom(init, acts);
  }

  /** Steps of its own until the thread has answered a stop; none from where it will wait first. */
  function StepsToStopDone(pc: AsyncPc): nat {
    match pc
    case Stopping(_) => 1
    case TestStop => 2
    case TestStopped => 2
    case TestQueued(_) => 3
    case Waiting(woken) => if woken then 3 else 0
    case Reading => 4
    case _ => 0
  }

  /** A stop that the thread has still to look at, woken or inside a read, is answered by its own steps. */
  lemma {:induction false} StopIsAnswered(s: Session, ret: int)
    requires Inv(s) && s.state == StopBuffering && s.main == Ready && s.failedStops == 0
    requires StepsToStopDone(s.async) > 0
    ensures var acts := seq(StepsToStopDone(s.async), _ => AsyncStep(ret, []));
      ValidRun(s, acts) && After(s, acts).stopsDone == s.stopsDone + 1 && After(s, acts).emitted == s.emitted
    decreases StepsToStopDone(s.async)
  {
    var step := AsyncStep(ret, []);
    var acts := seq(StepsToStopDone(s.async), _ => step);
    var t := Apply(s, step);
    InvStep(s, step);
    if s.async.Stopping? {
      assert acts == [step];
      assert ValidRun(t, []) && After(t, []) == t;
    } else {
      StopIsAnswered(t, ret);
      assert acts[1..] == seq(StepsToStopDone(t.async), _ => step);
    }
  }

  lemma {:induction false} LeakedMutexRun(s: Session, acts: seq<Action>)
    requires Inv(s) && s.failedStops > 0 && ValidRun(s, acts)
    ensures var t := After(s, acts);
            t.owner == Main && !InHandler(t.main) && t.emitted == s.emitted && t.accepted == s.accepted
    decreases |acts|
  {
    if acts != [] {
      InvStep(s, acts[0]);
      LeakedMutexRun(Apply(s, acts[0]), acts[1..]);
    }
  }

  /**
   stop_buffering returns holding the mutex exactly when pal_stream_stop fails, and then for the
   rest of the run no handler and no thread gets it again: nothing more is accepted or sent.
  */
  lemma {:induction false} FailedStopEndsTheSession(init: Session, before: seq<Action>, status: int, after: seq<Action>)
    requires Fresh(init) && ValidRun(init, before) && After(init, before).main == StopPal
    requires ValidRun(Apply(After(init, before), MainStep(status)), after)
    ensures var s := Apply(After(init, before), MainStep(status));
            (s.main == Ready && s.owner == Main) <==> status != 0
    ensures status != 0 ==>
              var s := Apply(After(init, before), MainStep(status));
              var t := After(s, after);
              t.owner == Main && !InHandler(t.main) && t.emitted == s.emitted && t.accepted == s.accepted
  {
    InvRun(init, before);
    var s := After(init, before);
    InvStep(s, MainStep(status));
    if status != 0 {
      LeakedMutexRun(Apply(s, MainStep(status)), after);
    }
  }

  // ---------------------------------------------------------------------------
  // Wakeups

  /** The environment under which no wakeup is lost: see the counterexamples below for each half. */
  predicate Calm(s: Session, a: Action) {
    && (a.Detection? ==> s.async.Waiting?)
    && (a.Request? ==> s.async != Start)
  }

  predicate CalmRun(s: Session, acts: seq<Action>)
    requires ValidRun(s, acts)
    decreases |acts|
  {
    acts == [] || (Calm(s, acts[0]) && CalmRun(Apply(s, acts[0]), acts[1..]))
  }

  /** A read is queued, the thread sleeps, and nobody is about to signal it. */
  predicate LostWakeup(s: Session) {
    s.state == ReadQueued && s.async == Waiting(false) && !s.main.ReqFinish?
  }

  /** Every signal carries as many bytes as the buffer that was read for it has. */
  ghost predicate Exact(log: seq<Signal>) {
    forall i :: 0 <= i < |log| ==> |log[i].data| == log[i].capacity
  }

  predicate CalmPoints(s: Session) {
    && (s.state == Idle ==> !s.async.Stopping? && !s.async.Reading? && !s.async.Done?)
    && (s.main.ReqTest? || s.main.ReqSet? ==> s.async != Start)
    && (s.main.ReqSet? || s.main.ReqFinish? ==> s.async.Waiting?)
    && (s.state == ReadQueued && s.async == Waiting(false) ==> s.main.ReqFinish?)
    && (s.state == ReadQueued ==>
          s.async.Waiting? || s.async.TestStop? || s.async.TestRead? || s.async.Reading?
          || s.async.TestQueued? || Committed(s))
    // the thread answers from the buffer that it filled for this very read
    && (s.async.Reading? || s.async.TestQueued? || s.async.Emitting? ==> s.readBytes == s.bufBytes)
  }

  ghost predicate CalmInv(s: Session) {
    Inv(s) && CalmPoints(s) && Exact(s.emitted)
  }

  lemma CalmExact(s: Session, a: Action)
    requires CalmPoints(s) && Exact(s.emitted) && Enabled(s, a)
    ensures Exact(Apply(s, a).emitted)
  {
  }

  lemma CalmAsync(s: Session, ret: int, data: Bytes)
    requires Inv(s) && CalmPoints(s) && AsyncEnabled(s, data)
    ensures CalmPoints(StepAsync(s, ret, data))
  {
    hide Numbered;
  }

  lemma CalmMain(s: Session, status: int)
    requires Inv(s) && CalmPoints(s) && Enabled(s, MainStep(status))
    ensures CalmPoints(StepMain(s, status))
  {
    hide Numbered;
  }

  lemma CalmStep(s: Session, a: Action)
    requires CalmInv(s) && Enabled(s, a) && Calm(s, a)
    ensures CalmInv(Apply(s, a))
  {
    InvStep(s, a);
    CalmExact(s, a);
    hide Exact;
    match a
    case AsyncStep(ret, data) =>
      CalmAsync(s, ret, data);
      hide Inv, CalmPoints, StepAsync;
    case MainStep(status) =>
      CalmMain(s, status);
      hide Inv, CalmPoints, StepMain;
    case _ =>
      hide Numbered, StepAsync, StepMain;
  }

  lemma {:induction false} CalmInvRun(s: Session, acts: seq<Action>)
    requires CalmInv(s) && ValidRun(s, acts) && CalmRun(s, acts)
    ensures CalmInv(After(s, acts))
    decreases |acts|
  {
    if acts != [] {
      CalmStep(s, acts[0]);
      CalmInvRun(Apply(s, acts[0]), acts[1..]);
    }
  }

  /**
   If detections arrive only while the thread waits, and requests only once it has started:
   an idle session with a free mutex has its thread blocked in the wait (or still to start),
   no wakeup is lost, and each signal carries exactly the buffer that was read for it.
  */
  lemma {:induction false} NoLostWakeup(init: Session, acts: seq<Action>)
    requires Fresh(init) && ValidRun(init, acts) && CalmRun(init, acts)
    ensures var s := After(init, acts);
            && (s.state == Idle && s.owner == Free ==> s.async.Waiting? || s.async.Start?)
            && !LostWakeup(s)
            && Exact(s.emitted)
  {
    CalmInvRun(init, acts);
  }

  /** How many steps of its own the thread needs to answer a queued read. */
  function Distance(pc: AsyncPc): nat {
    match pc
    case Waiting(_) => 6
    case TestStop => 5
    case TestRead => 4
    case Reading => 3
    case TestQueued(_) => 2
    case Emitting(_) => 1
    case _ => 0
  }

  /** In a calm session a queued read is answered after Distance steps of the thread, undisturbed. */
  lemma {:induction false} QueuedReadIsAnswered(s: Session, ret: int, data: Bytes)
    requires CalmInv(s) && s.state == ReadQueued && s.main == Ready && s.failedStops == 0
    requires !s.async.Clearing? && |data| == s.readBytes
    ensures var acts := seq(Distance(s.async), _ => AsyncStep(ret, data));
            ValidRun(s, acts) && After(s, acts).answered == s.answered + 1
    decreases Distance(s.async)
  {
    var step := AsyncStep(ret, data);
    var acts := seq(Distance(s.async), _ => step);
    var t := Apply(s, step);
    CalmStep(s, step);
    if s.async.Emitting? {
      assert acts == [step];
      assert ValidRun(t, []) && After(t, []) == t;
    } else {
      QueuedReadIsAnswered(t, ret, data);
      assert acts[1..] == seq(Distance(t.async), _ => step);
    }
  }

  // ---------------------------------------------------------------------------
  // What goes wrong in a session that is not calm, and exactly when

  /** A step loses a wakeup exactly if the thread enters its unconditional wait with a read queued. */
  lemma WakeupIsLostExactlyWhen(s: Session, a: Action)
    requires Inv(s) && Enabled(s, a) && !LostWakeup(s)
    ensures LostWakeup(Apply(s, a)) <==> a.AsyncStep? && s.async == BeforeWait && s.state == ReadQueued
  {
  }

  predicate EverLost(s: Session, acts: seq<Action>)
    requires ValidRun(s, acts)
    decreases |acts|
  {
    LostWakeup(s) || (acts != [] && EverLost(Apply(s, acts[0]), acts[1..]))
  }

  predicate EverSleepsOnQueuedRead(s: Session, acts: seq<Action>)
    requires ValidRun(s, acts)
    decreases |acts|
  {
    acts != [] &&
    ((acts[0].AsyncStep? && s.async == BeforeWait && s.state == ReadQueued)
     || EverSleepsOnQueuedRead(Apply(s, acts[0]), acts[1..]))
  }

  /** Any run at all loses a wakeup if and only if the thread once enters the wait with a read queued. */
  lemma {:induction false} RunLosesWakeupIff(s: Session, acts: seq<Action>)
    requires Inv(s) && !LostWakeup(s) && ValidRun(s, acts)
    ensures EverLost(s, acts) <==> EverSleepsOnQueuedRead(s, acts)
    decreases |acts|
  {
    if acts != [] {
      var t := Apply(s, acts[0]);
      InvStep(s, acts[0]);
      WakeupIsLostExactlyWhen(s, acts[0]);
      if !LostWakeup(t) {
        RunLosesWakeupIff(t, acts[1..]);
      }
    }
  }

  lemma RunCons(s: Session, a: Action, rest: seq<Action>) returns (acts: seq<Action>)
    requires Enabled(s, a) && ValidRun(Apply(s, a), rest)
    ensures ValidRun(s, acts) && After(s, acts) == After(Apply(s, a), rest) && acts == [a] + rest
  {
    acts := [a] + rest;
    assert acts[1..] == rest;
  }

  /** A request that overtakes the thread's first wait is accepted and then never served. */
  lemma RequestBeforeFirstWaitIsLost(init: Session, bytes: nat) returns (acts: seq<Action>)
    requires Fresh(init) && bytes > 0
    ensures ValidRun(init, acts) && LostWakeup(After(init, acts))
  {
    var step, main := AsyncStep(0, []), MainStep(0);
    var s1 := Apply(init, Request(bytes));
    var s2 := Apply(s1, main);
    var s3 := Apply(s2, main);
    var s4 := Apply(s3, main);
    var s5 := Apply(s4, step);
    var s6 := Apply(s5, step);
    acts := RunCons(s6, step, []);
    acts := RunCons(s5, step, acts);
    acts := RunCons(s4, step, acts);
    acts := RunCons(s3, main, acts);
    acts := RunCons(s2, main, acts);
    acts := RunCons(s1, main, acts);
    acts := RunCons(init, Request(bytes), acts);
  }

  // ---------------------------------------------------------------------------
  // Signals of the wrong size

  /** The thread has filled a buffer of another size than the signal will announce. */
  predicate Diverged(s: Session) {
    (s.async.Reading? || s.async.TestQueued? || s.async.Emitting?) && s.readBytes != s.bufBytes
  }

  /** The thread goes on to answer the read last accepted: no other is accepted first, and it is not called off. */
  predicate Answers(s: Session, acts: seq<Action>)
    requires ValidRun(s, acts)
    decreases |acts|
  {
    acts != [] && (s.async.Reading? || s.async.TestQueued? || s.async.Emitting?) &&
    if acts[0].AsyncStep? && s.async.Emitting? then true
    else !(acts[0].MainStep? && s.main.ReqFinish?) && Answers(Apply(s, acts[0]), acts[1..])
  }

  /** A read of another size than the buffer being filled is accepted during the unlocked read, and answered. */
  predicate AnswersWrongSize(s: Session, acts: seq<Action>)
    requires ValidRun(s, acts)
    decreases |acts|
  {
    acts != [] &&
    ((acts[0].MainStep? && s.main.ReqFinish? && s.async.Reading? && s.main.bytes != s.bufBytes
      && Answers(Apply(s, acts[0]), acts[1..]))
     || AnswersWrongSize(Apply(s, acts[0]), acts[1..]))
  }

  lemma ExactGrows(log: seq<Signal>, e: Signal)
    ensures Exact(log + [e]) <==> Exact(log) && |e.data| == e.capacity
  {
    if Exact(log + [e]) {
      assert (log + [e])[|log|] == e;
      forall i | 0 <= i < |log|
        ensures |log[i].data| == log[i].capacity
      {
        assert (log + [e])[i] == log[i];
      }
    }
  }

  /** How one step changes whether the signals sent so far, and the one in the making, are of the right size. */
  lemma SizesDivergeExactlyWhen(s: Session, a: Action)
    requires Locks(s) && Enabled(s, a)
    ensures var t := Apply(s, a);
      if a.AsyncStep? && s.async.Emitting? then
        !Diverged(t) && (Exact(t.emitted) <==> Exact(s.emitted) && !Diverged(s))
      else
        && t.emitted == s.emitted
        && (Diverged(t) <==>
              if a.MainStep? && s.main.ReqFinish? then s.async.Reading? && s.main.bytes != s.bufBytes
              else Diverged(s) && (t.async.Reading? || t.async.TestQueued? || t.async.Emitting?))
  {
    if a.AsyncStep? && s.async.Emitting? {
      ExactGrows(s.emitted, Signal(s.seqno + 1, s.async.ret, a.data, s.bufBytes, s.asked, s.accepted));
    }
    hide Exact;
  }

  lemma {:induction false} WrongSizeFrom(s: Session, acts: seq<Action>)
    requires Inv(s) && ValidRun(s, acts)
    ensures !Exact(After(s, acts).emitted) <==>
      !Exact(s.emitted) || AnswersWrongSize(s, acts) || (Diverged(s) && Answers(s, acts))
    decreases |acts|
  {
    if acts != [] {
      var t := Apply(s, acts[0]);
      InvStep(s, acts[0]);
      SizesDivergeExactlyWhen(s, acts[0]);
      WrongSizeFrom(t, acts[1..]);
      hide Apply, Exact, Inv, Enabled;
    }
  }

  /**
   Any run at all sends a signal whose size is not that of the buffer read for it if and only if a read of
   another size is accepted during the thread's unlocked read and is then answered from that buffer.
  */
  lemma RunSendsWrongSizeIff(init: Session, acts: seq<Action>)
    requires Fresh(init) && ValidRun(init, acts)
    ensures !Exact(After(init, acts).emitted) <==> AnswersWrongSize(init, acts)
  {
    WrongSizeFrom(init, acts);
  }

  lemma {:induction false} RunAppend(s: Session, first: seq<Action>, rest: seq<Action>)
    requires ValidRun(s, first) && ValidRun(After(s, first), rest)
    ensures ValidRun(s, first + rest) && After(s, first + rest) == After(After(s, first), rest)
    decreases |first|
  {
    hide Apply, Enabled;
    if first == [] {
      assert first + rest == rest;
    } else {
      assert (first + rest)[1..] == first[1..] + rest;
      RunAppend(Apply(s, first[0]), first[1..], rest);
    }
  }

  /** The thread inside its unlocked read of `bytes` bytes, and nobody else about. */
  predicate ReadingAlone(s: Session, bytes: nat) {
    s.async.Reading? && s.main == Ready && s.owner == Free && s.readBytes == bytes == s.bufBytes
  }

  predicate OnlyAsync(acts: seq<Action>) {
    forall i :: 0 <= i < |acts| ==> acts[i].AsyncStep?
  }

  /** The thread takes the mutex, sees no EXIT, and goes to its first wait. */
  lemma Sleeps(s: Session) returns (acts: seq<Action>)
    requires s.async == Start && s.owner == Free && s.state != Exit && s.main != Unloaded
    ensures ValidRun(s, acts) && OnlyAsync(acts)
    ensures After(s, acts) == s.(async := Waiting(false))
  {
    var step := AsyncStep(0, []);
    var s1 := Apply(s, step);
    var s2 := Apply(s1, step);
    acts := RunCons(s2, step, []);
    acts := RunCons(s1, step, acts);
    acts := RunCons(s, step, acts);
  }

  /** A request taken through its handler, from an idle session with a free mutex. */
  lemma Requests(s: Session, bytes: nat) returns (acts: seq<Action>)
    requires s.main == Ready && s.owner == Free && s.state == Idle && bytes > 0
    ensures ValidRun(s, acts)
    ensures After(s, acts) ==
      SignalCond(s).(state := ReadQueued, readBytes := bytes, asked := bytes, accepted := s.accepted + 1)
  {
    var main := MainStep(0);
    var s1 := Apply(s, Request(bytes));
    var s2 := Apply(s1, main);
    var s3 := Apply(s2, main);
    acts := RunCons(s3, main, []);
    acts := RunCons(s2, main, acts);
    acts := RunCons(s1, main, acts);
    acts := RunCons(s, Request(bytes), acts);
  }

  lemma BeginsReading(s: Session) returns (acts: seq<Action>)
    requires s.async == Waiting(true) && s.main == Ready && s.owner == Free && s.state == ReadQueued
    ensures ValidRun(s, acts) && OnlyAsync(acts)
    ensures ReadingAlone(After(s, acts), s.readBytes)
    ensures After(s, acts) == s.(async := Reading, bufBytes := s.readBytes)
  {
    var step := AsyncStep(0, []);
    var s1 := Apply(s, step);
    var s2 := Apply(s1, step);
    acts := RunCons(s2, step, []);
    acts := RunCons(s1, step, acts);
    acts := RunCons(s, step, acts);
  }

  lemma Detects(s: Session) returns (acts: seq<Action>)
    requires s.main == Ready
    ensures ValidRun(s, acts)
    ensures After(s, acts) == s.(state := Idle, dropped := s.dropped + Queued(s), quiet := false)
  {
    acts := RunCons(s, Detection, []);
  }

  /** A stop taken through its handler, PAL's stop succeeding. */
  lemma Stops(s: Session) returns (acts: seq<Action>)
    requires s.main == Ready && s.owner == Free
    ensures ValidRun(s, acts)
    ensures After(s, acts) ==
      SignalCond(s).(state := StopBuffering, cancelled := s.cancelled + Queued(s), quiet := true)
  {
    var main := MainStep(0);
    var s1 := Apply(s, Stop);
    var s2 := Apply(s1, main);
    var s3 := Apply(s2, main);
    acts := RunCons(s3, main, []);
    acts := RunCons(s2, main, acts);
    acts := RunCons(s1, main, acts);
    acts := RunCons(s, Stop, acts);
  }

  /** A read called off while the thread is inside it: it is not answered, and the stop is. */
  lemma StopCallsOffARead(init: Session, bytes: nat) returns (acts: seq<Action>)
    requires Fresh(init) && bytes > 0
    ensures ValidRun(init, acts)
    ensures var s := After(init, acts);
      && s.accepted == s.cancelled == s.stopsDone == 1 && s.answered == 0 && s.emitted == []
      && s.state == StopBuffering && s.main == Ready
  {
    hide Apply, Enabled, Inv;
    acts := Sleeps(init);
    var next := Requests(After(init, acts), bytes);
    RunAppend(init, acts, next);
    acts := acts + next;
    next := BeginsReading(After(init, acts));
    RunAppend(init, acts, next);
    acts := acts + next;
    next := Stops(After(init, acts));
    RunAppend(init, acts, next);
    acts := acts + next;
    FreshInv(init);
    InvRun(init, acts);
    var s := After(init, acts);
    StopIsAnswered(s, 0);
    next := seq(4, _ => AsyncStep(0, []));
    RunAppend(init, acts, next);
    acts := acts + next;
    NothingElseMoves(s, next);
  }

  /** The thread alone accepts nothing, calls nothing off, and leaves a stopped session stopped. */
  lemma {:induction false} NothingElseMoves(s: Session, acts: seq<Action>)
    requires Inv(s) && s.quiet && s.state == StopBuffering && s.main == Ready && ValidRun(s, acts) && OnlyAsync(acts)
    ensures var t := After(s, acts);
      && t.accepted == s.accepted && t.cancelled == s.cancelled && t.answered == s.answered
      && t.state == StopBuffering && t.main == Ready
    decreases |acts|
  {
    if acts != [] {
      InvStep(s, acts[0]);
      NothingElseMoves(Apply(s, acts[0]), acts[1..]);
    }
  }

  /** A thread that has read answers. */
  lemma ThreadAnswers(s: Session, data: Bytes) returns (acts: seq<Action>)
    requires s.async.Reading? && s.owner == Free && s.main == Ready && s.state == ReadQueued && |data| == s.readBytes
    ensures ValidRun(s, acts) && OnlyAsync(acts)
    ensures After(s, acts) == s.(
      owner := Async, async := Clearing, seqno := s.seqno + 1, answered := s.answered + 1,
      emitted := s.emitted + [Signal(s.seqno + 1, 1, data, s.bufBytes, s.asked, s.accepted)])
  {
    var step := AsyncStep(1, data);
    var s1 := Apply(s, step);
    var s2 := Apply(s1, step);
    acts := RunCons(s2, step, []);
    acts := RunCons(s1, step, acts);
    acts := RunCons(s, step, acts);
  }

  /** A thread that has answered comes back to its wait. */
  lemma ThreadReturns(s: Session) returns (acts: seq<Action>)
    requires s.async.Clearing? && s.owner == Async && s.main != Unloaded
    ensures ValidRun(s, acts) && OnlyAsync(acts)
    ensures After(s, acts) == s.(state := Idle, owner := Free, async := Waiting(false))
  {
    var step := AsyncStep(0, []);
    var s1 := Apply(s, step);
    var s2 := Apply(s1, step);
    acts := RunCons(s2, step, []);
    acts := RunCons(s1, step, acts);
    acts := RunCons(s, step, acts);
  }

  /**
   Without calm detections the size goes wrong, for any two sizes: a read of `a` bytes, a detection while the
   thread is inside it, a read of `b` bytes, and the answer announces `b` bytes of a buffer of `a`.
  */
  lemma DetectionDuringReadSendsWrongSize(init: Session, a: nat, data: Bytes) returns (acts: seq<Action>)
    requires Fresh(init) && a > 0 && data != [] && |data| != a
    ensures ValidRun(init, acts) && !Exact(After(init, acts).emitted)
  {
    hide Apply, Enabled;
    acts := Sleeps(init);
    var next := Requests(After(init, acts), a);
    RunAppend(init, acts, next);
    acts := acts + next;
    next := BeginsReading(After(init, acts));
    RunAppend(init, acts, next);
    acts := acts + next;
    next := Detects(After(init, acts));
    RunAppend(init, acts, next);
    acts := acts + next;
    next := Requests(After(init, acts), |data|);
    RunAppend(init, acts, next);
    acts := acts + next;
    next := ThreadAnswers(After(init, acts), data);
    RunAppend(init, acts, next);
    acts := acts + next;
    var log := After(init, acts).emitted;
    assert log[|log| - 1].data == data && log[|log| - 1].capacity == a;
  }

  // ---------------------------------------------------------------------------
  // Which reads are lost

  /** The points at which the mutex is free though the thread will wait before it looks for a read. */
  predicate BeforeLooking(pc: AsyncPc) {
    pc == Start || pc == Stopping(true)
  }

  /** The read queued now is still queued when the thread enters its wait: nothing overwrites it on the way. */
  predicate SleepsOnIt(s: Session, acts: seq<Action>)
    requires ValidRun(s, acts)
    decreases |acts|
  {
    acts != [] && s.state == ReadQueued &&
    ((acts[0].AsyncStep? && s.async == BeforeWait) || SleepsOnIt(Apply(s, acts[0]), acts[1..]))
  }

  /** A read is accepted before the first wait, or during the stop after a read, and is still queued at the wait. */
  predicate AcceptsTooEarly(s: Session, acts: seq<Action>)
    requires ValidRun(s, acts)
    decreases |acts|
  {
    acts != [] &&
    ((acts[0].MainStep? && s.main.ReqSet? && BeforeLooking(s.async) && SleepsOnIt(Apply(s, acts[0]), acts[1..]))
     || AcceptsTooEarly(Apply(s, acts[0]), acts[1..]))
  }

  predicate AtRisk(s: Session) {
    s.state == ReadQueued && (BeforeLooking(s.async) || s.async.TestExit? || s.async.BeforeWait?)
  }

  /** After a read the thread looks at the state once; a read queued then is answered, not slept on. */
  predicate LooksOnce(s: Session) {
    s.async.TestStopped? ==> s.state != ReadQueued
  }

  lemma RiskStep(s: Session, a: Action)
    requires Locks(s) && LooksOnce(s) && Enabled(s, a)
    ensures LooksOnce(Apply(s, a))
    ensures AtRisk(Apply(s, a)) ==> AtRisk(s) || (a.MainStep? && s.main.ReqSet? && BeforeLooking(s.async))
    ensures a.AsyncStep? && s.async == BeforeWait ==> !AtRisk(Apply(s, a))
  {
  }

  lemma {:induction false} SleepsFrom(s: Session, acts: seq<Action>)
    requires Inv(s) && LooksOnce(s) && ValidRun(s, acts)
    ensures EverSleepsOnQueuedRead(s, acts) <==> AcceptsTooEarly(s, acts) || (AtRisk(s) && SleepsOnIt(s, acts))
    decreases |acts|
  {
    if acts != [] {
      var t := Apply(s, acts[0]);
      InvStep(s, acts[0]);
      RiskStep(s, acts[0]);
      SleepsFrom(t, acts[1..]);
      if SleepsOnIt(t, acts[1..]) {
        SleepsMeansSleeps(t, acts[1..]);
      }
      assert acts[0].MainStep? ==> !acts[0].AsyncStep?;
      hide Apply, Enabled, Inv, LooksOnce;
    }
  }

  lemma {:induction false} SleepsMeansSleeps(s: Session, acts: seq<Action>)
    requires ValidRun(s, acts) && SleepsOnIt(s, acts)
    ensures EverSleepsOnQueuedRead(s, acts)
    decreases |acts|
  {
    hide Apply, Enabled;
    if !(acts[0].AsyncStep? && s.async == BeforeWait) {
      SleepsMeansSleeps(Apply(s, acts[0]), acts[1..]);
    }
  }

  /**
   Any run of a fresh session loses a wakeup if and only if it accepts a read before the thread's first wait,
   or during the stop that follows a read, and neither a detection nor an unload calls that read off before
   the thread waits.
  */
  lemma LostReadWasAcceptedTooEarly(init: Session, acts: seq<Action>)
    requires Fresh(init) && ValidRun(init, acts)
    ensures EverLost(init, acts) <==> AcceptsTooEarly(init, acts)
  {
    RunLosesWakeupIff(init, acts);
    SleepsFrom(init, acts);
  }

  /** The thread goes into PAL's stop, woken from its wait or coming out of a read. */
  lemma GoesToStop(s: Session) returns (acts: seq<Action>)
    requires s.main == Ready && s.owner == Free && s.state == StopBuffering
    requires s.async == Waiting(true) || s.async.Reading?
    ensures ValidRun(s, acts) && After(s, acts) == s.(async := Stopping(s.async.Reading?))
  {
    var step := AsyncStep(0, []);
    var s1 := Apply(s, step);
    var s2 := Apply(s1, step);
    if s.async.Reading? {
      acts := RunCons(s2, step, []);
      acts := RunCons(s1, step, acts);
    } else {
      acts := RunCons(s1, step, []);
    }
    acts := RunCons(s, step, acts);
  }

  /** A stop, and during PAL's stop a detection and a request of `bytes` bytes. */
  lemma StopsAndIsAskedAgain(s: Session, bytes: nat) returns (acts: seq<Action>)
    requires s.main == Ready && s.owner == Free && (s.async == Waiting(false) || s.async.Reading?) && bytes > 0
    ensures ValidRun(s, acts)
    ensures var t := After(s, acts);
      t == s.(async := Stopping(s.async.Reading?), state := ReadQueued, readBytes := bytes, asked := bytes,
              accepted := s.accepted + 1, cancelled := t.cancelled, dropped := t.dropped, quiet := false)
  {
    hide Apply, Enabled;
    acts := Stops(s);
    var next := GoesToStop(After(s, acts));
    RunAppend(s, acts, next);
    acts := acts + next;
    next := Detects(After(s, acts));
    RunAppend(s, acts, next);
    acts := acts + next;
    next := Requests(After(s, acts), bytes);
    RunAppend(s, acts, next);
    acts := acts + next;
  }

  /** From PAL's stop, with a read queued: into the read after a wait, but back to the wait after a read. */
  lemma GoesOnFromStop(s: Session) returns (acts: seq<Action>)
    requires s.main == Ready && s.owner == Free && s.state == ReadQueued && s.async.Stopping?
    ensures ValidRun(s, acts)
    ensures After(s, acts) ==
      if s.async.afterRead then s.(async := Waiting(false), stopsDone := s.stopsDone + 1)
      else s.(async := Reading, bufBytes := s.readBytes, stopsDone := s.stopsDone + 1)
  {
    var step := AsyncStep(0, []);
    var s1 := Apply(s, step);
    var s2 := Apply(s1, step);
    if s.async.afterRead {
      acts := RunCons(s2, step, []);
      acts := RunCons(s1, step, acts);
    } else {
      acts := RunCons(s1, step, []);
    }
    acts := RunCons(s, step, acts);
  }

  /** A run in which a read accepted during the stop that follows a wait is answered. */
  lemma ReadDuringStopAfterWaitIsAnswered(init: Session, data: Bytes) returns (acts: seq<Action>)
    requires Fresh(init) && data != []
    ensures ValidRun(init, acts)
    ensures var log := After(init, acts).emitted; |log| == 1 && log[0].data == data && log[0].capacity == |data|
  {
    hide Apply, Enabled;
    acts := Sleeps(init);
    var next := StopsAndIsAskedAgain(After(init, acts), |data|);
    RunAppend(init, acts, next);
    acts := acts + next;
    next := GoesOnFromStop(After(init, acts));
    RunAppend(init, acts, next);
    acts := acts + next;
    next := ThreadAnswers(After(init, acts), data);
    RunAppend(init, acts, next);
    acts := acts + next;
  }

  /** A run in which a read accepted during the stop that follows a read is lost. */
  lemma ReadDuringStopAfterReadIsLost(init: Session, bytes: nat) returns (acts: seq<Action>)
    requires Fresh(init) && bytes > 0
    ensures ValidRun(init, acts) && LostWakeup(After(init, acts))
  {
    hide Apply, Enabled;
    acts := Sleeps(init);
    var next := Requests(After(init, acts), bytes);
    RunAppend(init, acts, next);
    acts := acts + next;
    next := BeginsReading(After(init, acts));
    RunAppend(init, acts, next);
    acts := acts + next;
    next := StopsAndIsAskedAgain(After(init, acts), bytes);
    RunAppend(init, acts, next);
    acts := acts + next;
    next := GoesOnFromStop(After(init, acts));
    RunAppend(init, acts, next);
    acts := acts + next;
  }

  /** A spurious wakeup would still serve a read whose wakeup was lost. */
  lemma SpuriousWakeupServesALostRead(s: Session, data: Bytes) returns (acts: seq<Action>)
    requires LostWakeup(s) && s.main == Ready && s.owner == Free && |data| == s.readBytes
    ensures ValidRun(s, acts) && acts != [] && acts[0].Spurious?
    ensures After(s, acts).emitted == s.emitted + [Signal(s.seqno + 1, 1, data, |data|, s.asked, s.accepted)]
  {
    acts := RunCons(s, Spurious, []);
    hide Apply, Enabled;
    assert After(s, acts) == s.(async := Waiting(true));
    var next := BeginsReading(After(s, acts));
    RunAppend(s, acts, next);
    acts := acts + next;
    next := ThreadAnswers(After(s, acts), data);
    RunAppend(s, acts, next);
    acts := acts + next;
  }

  // ---------------------------------------------------------------------------
  // Unloading

  predicate NoSpurious(acts: seq<Action>) {
    forall i :: 0 <= i < |acts| ==> !acts[i].Spurious?
  }

  /**
   The thread can still leave its loop: it has left, or EXIT is set and it will see it. It will not see it in
   the wait, or on its way there, which the unlocked EXIT and signal may miss; nor when it is about to write
   IDLE over it; nor without the mutex that a failed stop has kept.
  */
  predicate CanLeave(s: Session) {
    s.async.Done? ||
    (s.state == Exit && s.failedStops == 0 && !Committed(s) && s.async != BeforeWait && s.async != Waiting(false))
  }

  lemma StuckStep(s: Session, a: Action)
    requires Locks(s) && s.main == UnloadJoin && !CanLeave(s) && Enabled(s, a) && !a.Spurious?
    ensures Apply(s, a).main == UnloadJoin && !CanLeave(Apply(s, a))
  {
  }

  lemma {:induction false} StuckRun(s: Session, acts: seq<Action>)
    requires Inv(s) && s.main == UnloadJoin && !CanLeave(s) && ValidRun(s, acts) && NoSpurious(acts)
    ensures After(s, acts).main == UnloadJoin
    decreases |acts|
  {
    if acts != [] {
      InvStep(s, acts[0]);
      StuckStep(s, acts[0]);
      hide Apply, Enabled, Inv, CanLeave;
      StuckRun(Apply(s, acts[0]), acts[1..]);
    }
  }

  /** Steps the thread needs to see EXIT and leave. */
  function StepsToLeave(pc: AsyncPc): nat {
    match pc
    case Done => 0
    case TestExit => 1
    case Start => 2
    case TestRead => 2
    case TestStopped => 2
    case TestStop => 3
    case Stopping(afterRead) => if afterRead then 2 else 3
    case TestQueued(_) => 3
    case Waiting(_) => 4
    case Reading => 4
    case _ => 5
  }

  lemma LeaveStep(s: Session)
    requires Locks(s) && s.main == UnloadJoin && CanLeave(s) && !s.async.Done?
    ensures Enabled(s, AsyncStep(0, []))
    ensures var t := Apply(s, AsyncStep(0, [])); CanLeave(t) && t.main == UnloadJoin
    ensures StepsToLeave(Apply(s, AsyncStep(0, [])).async) < StepsToLeave(s.async)
  {
  }

  lemma {:induction false} LeaveRun(s: Session) returns (acts: seq<Action>)
    requires Inv(s) && s.main == UnloadJoin && CanLeave(s)
    ensures ValidRun(s, acts) && NoSpurious(acts) && After(s, acts).main == Unloaded
    decreases StepsToLeave(s.async)
  {
    var a := if s.async.Done? then MainStep(0) else AsyncStep(0, []);
    if s.async.Done? {
      acts := [a];
      assert ValidRun(Apply(s, a), []) && acts[1..] == [];
    } else {
      LeaveStep(s);
      InvStep(s, a);
      hide Apply, Inv, CanLeave, StepsToLeave;
      var rest := LeaveRun(Apply(s, a));
      acts := [a] + rest;
      assert acts[1..] == rest;
    }
  }

  ghost predicate UnloadCanReturn(s: Session) {
    exists acts :: ValidRun(s, acts) && NoSpurious(acts) && After(s, acts).main == Unloaded
  }

  /** Once the unload handler waits for the thread, some continuation lets it return if and only if CanLeave. */
  lemma UnloadReturnsIff(s: Session)
    requires Inv(s) && s.main == UnloadJoin
    ensures UnloadCanReturn(s) <==> CanLeave(s)
  {
    if CanLeave(s) {
      var acts := LeaveRun(s);
    } else {
      forall acts | ValidRun(s, acts) && NoSpurious(acts)
        ensures After(s, acts).main == UnloadJoin
      {
        StuckRun(s, acts);
      }
    }
  }

  /** A detection just after the unload's EXIT makes the handler wait for ever, from any fresh session. */
  lemma DetectionHoldsUpUnload(init: Session) returns (acts: seq<Action>)
    requires Fresh(init)
    ensures ValidRun(init, acts)
    ensures After(init, acts).main == UnloadJoin && After(init, acts).async == Waiting(false)
    ensures !UnloadCanReturn(After(init, acts))
  {
    hide Apply, Enabled, Inv, CanLeave;
    acts := UnloadMeetsDetection(init);
    var next := Sleeps(After(init, acts));
    RunAppend(init, acts, next);
    acts := acts + next;
    FreshInv(init);
    InvRun(init, acts);
    SleeperCannotLeave(After(init, acts));
    UnloadReturnsIff(After(init, acts));
  }

  lemma FreshInv(init: Session)
    requires Fresh(init)
    ensures Inv(init)
  {
  }

  lemma SleeperCannotLeave(s: Session)
    requires s.async == Waiting(false)
    ensures !CanLeave(s)
  {
  }

  lemma UnloadMeetsDetection(init: Session) returns (acts: seq<Action>)
    requires Fresh(init)
    ensures ValidRun(init, acts)
    ensures var s := After(init, acts);
      s.main == UnloadJoin && s.async == Start && s.owner == Free && s.state == Idle
  {
    var s1 := Apply(init, Unload);
    var s2 := Apply(s1, MainStep(0));
    acts := RunCons(s2, Detection, []);
    acts := RunCons(s1, MainStep(0), acts);
    acts := RunCons(init, Unload, acts);
  }
}
