/**
 The mutex-and-condition handshake between the control thread (set_volume and set_port callbacks)
 and the I/O thread of a PAL sink or source, over all interleavings. The event flag is written
 before the mutex is taken, the condition is signalled after it is released, and the I/O thread
 tests the flag with `if`, not `while`, so a spurious wakeup lets it through.
*/
module ControlHandshake {

  datatype Owner = Free | Control | Io

  datatype ControlPc = Resting | Locking | Calling | Clearing | Unlocking | Signalling

  datatype IoPc = Outside | Testing | Waiting(woken: bool) | Transfer | Unlocking | Broken

  /** `breaks` is true of the sink, whose write loop leaves on an error without unlocking. */
  datatype State = State(breaks: bool, event: bool, owner: Owner, control: ControlPc, io: IoPc)

  datatype Action = ControlStep | IoStep(failed: bool) | Spurious

  predicate Fresh(s: State) {
    !s.event && s.owner == Free && s.control == Resting && s.io == Outside
  }

  predicate Enabled(s: State, a: Action) {
    match a
    case ControlStep => s.control == Locking ==> s.owner == Free
    case IoStep(_) =>
      (match s.io
       case Outside => s.owner == Free
       case Waiting(woken) => woken && s.owner == Free
       case Broken => false
       case _ => true)
    case Spurious => s.io == Waiting(false)
  }

  /** Set the event; lock; call PAL and clear the event; unlock; signal. */
  function StepControl(s: State): State {
    match s.control
    case Resting => s.(event := true, control := Locking)
    case Locking => s.(owner := Control, control := Calling)
    case Calling => s.(control := Clearing)
    case Clearing => s.(event := false, control := ControlPc.Unlocking)
    case Unlocking => s.(owner := Free, control := Signalling)
    case Signalling =>
      s.(control := Resting, io := if s.io.Waiting? then Waiting(true) else s.io)
  }

  /** Lock; wait if an event is announced; transfer a buffer; unlock. */
  function StepIo(s: State, failed: bool): State {
    match s.io
    case Outside => s.(owner := Io, io := Testing)
    case Testing => if s.event then s.(owner := Free, io := Waiting(false)) else s.(io := Transfer)
    case Waiting(_) => s.(owner := Io, io := Transfer)
    case Transfer => s.(io := if failed && s.breaks then Broken else IoPc.Unlocking)
    case Unlocking => s.(owner := Free, io := Outside)
    case Broken => s
  }

  function Apply(s: State, a: Action): State
    requires Enabled(s, a)
  {
    match a
    case ControlStep => StepControl(s)
    case IoStep(failed) => StepIo(s, failed)
    case Spurious => s.(io := Waiting(true))
  }

  predicate ValidRun(s: State, acts: seq<Action>)
    decreases |acts|
  {
    acts == [] || (Enabled(s, acts[0]) && ValidRun(Apply(s, acts[0]), acts[1..]))
  }

  function After(s: State, acts: seq<Action>): State
    requires ValidRun(s, acts)
    decreases |acts|
  {
    if acts == [] then s else After(Apply(s, acts[0]), acts[1..])
  }

  /** The control thread is inside PAL's volume or device call, the I/O thread inside a transfer. */
  predicate Overlap(s: State) {
    s.control == Calling && s.io == Transfer
  }

  ghost predicate Inv(s: State) {
    && (s.owner == Control <==> s.control == Calling || s.control == Clearing || s.control == ControlPc.Unlocking)
    && (s.owner == Io <==> s.io == Testing || s.io == Transfer || s.io == IoPc.Unlocking || s.io == Broken)
    && (s.event <==> s.control == Locking || s.control == Calling || s.control == Clearing)
    && (s.io == Waiting(false) ==> s.control != Resting)
    && (s.io == Broken ==> s.breaks)
  }

  lemma InvStep(s: State, a: Action)
    requires Inv(s) && Enabled(s, a)
    ensures Inv(Apply(s, a))
  {
  }

  lemma {:induction false} InvRun(s: State, acts: seq<Action>)
    requires Inv(s) && ValidRun(s, acts)
    ensures Inv(After(s, acts)) && After(s, acts).breaks == s.breaks
    decreases |acts|
  {
    if acts != [] {
      InvStep(s, acts[0]);
      InvRun(Apply(s, acts[0]), acts[1..]);
    }
  }

  /** Control steps left before the condition is signalled. */
  function StepsToSignal(pc: ControlPc): nat {
    match pc
    case Resting => 6
    case Locking => 5
    case Calling => 4
    case Clearing => 3
    case Unlocking => 2
    case Signalling => 1
  }

  /** The control thread alone, for as many steps as it still has before its signal. */
  lemma {:induction false} ControlReachesItsSignal(s: State)
    requires Inv(s) && s.owner != Io
    ensures var acts := seq(StepsToSignal(s.control), _ => ControlStep);
            && ValidRun(s, acts)
            && After(s, acts).control == Resting
            && (s.io.Waiting? ==> After(s, acts).io == Waiting(true))
            && (!s.io.Waiting? ==> After(s, acts).io == s.io)
    decreases StepsToSignal(s.control)
  {
    var acts := seq(StepsToSignal(s.control), _ => ControlStep);
    var t := Apply(s, ControlStep);
    InvStep(s, ControlStep);
    if s.control == Signalling {
      assert acts == [ControlStep];
      assert ValidRun(t, []) && After(t, []) == t;
    } else {
      ControlReachesItsSignal(t);
      assert acts[1..] == seq(StepsToSignal(t.control), _ => ControlStep);
    }
  }

  /**
   Over every interleaving, spurious wakeups included: no transfer overlaps a control call; and
   whenever the I/O thread sleeps, the control thread is on its way to the signal, can take each
   of the steps that remain, needs no help, and wakes it.
  */
  lemma {:induction false} NoOverlapAndNoDeadlock(init: State, acts: seq<Action>)
    requires Fresh(init) && ValidRun(init, acts)
    ensures var s := After(init, acts);
            && !Overlap(s)
            && (s.io == Waiting(false) ==>
                  var rest := seq(StepsToSignal(s.control), _ => ControlStep);
                  && s.control != Resting && |rest| <= 5
                  && ValidRun(s, rest) && After(s, rest).io == Waiting(true))
  {
    InvRun(init, acts);
    var s := After(init, acts);
    if s.io == Waiting(false) {
      ControlReachesItsSignal(s);
    }
  }

  // ---------------------------------------------------------------------------
  // Who goes first

  /** From announcing its event to releasing the mutex. */
  predicate InControl(pc: ControlPc) {
    pc == Locking || pc == Calling || pc == Clearing || pc == ControlPc.Unlocking
  }

  predicate StaysInControl(s: State, acts: seq<Action>)
    requires ValidRun(s, acts)
    decreases |acts|
  {
    InControl(s.control) && (acts == [] || StaysInControl(Apply(s, acts[0]), acts[1..]))
  }

  /** A transfer begins at some step. */
  predicate BeginsTransfer(s: State, acts: seq<Action>)
    requires ValidRun(s, acts)
    decreases |acts|
  {
    acts != [] &&
    ((s.io != Transfer && Apply(s, acts[0]).io == Transfer) || BeginsTransfer(Apply(s, acts[0]), acts[1..]))
  }

  /**
   An announced control call goes first: until it releases the mutex no transfer begins, unless the I/O thread
   had been woken before the announcement, or is woken for no reason.
  */
  lemma {:induction false} AnnouncedCallGoesFirst(s: State, acts: seq<Action>)
    requires Inv(s) && ValidRun(s, acts) && StaysInControl(s, acts)
    requires s.io != Waiting(true) && Spurious !in acts
    ensures !BeginsTransfer(s, acts)
    decreases |acts|
  {
    if acts != [] {
      InvStep(s, acts[0]);
      AnnouncedCallGoesFirst(Apply(s, acts[0]), acts[1..]);
    }
  }

  /** A spurious wakeup does let a transfer begin ahead of an announced call. */
  lemma SpuriousWakeupOvertakes(init: State) returns (acts: seq<Action>)
    requires Fresh(init)
    ensures ValidRun(init, acts) && acts != [] && acts[0] == ControlStep
    ensures StaysInControl(Apply(init, ControlStep), acts[1..]) && BeginsTransfer(Apply(init, ControlStep), acts[1..])
  {
    var io := IoStep(false);
    var s1 := Apply(init, ControlStep);
    var s2 := Apply(s1, io);
    var s3 := Apply(s2, io);
    var s4 := Apply(s3, Spurious);
    var s5 := Apply(s4, io);
    acts := [ControlStep, io, io, Spurious, io];
    assert acts[1..] == [io, io, Spurious, io] && acts[1..][1..] == [io, Spurious, io];
    assert [io, Spurious, io][1..] == [Spurious, io] && [Spurious, io][1..] == [io] && [io][1..] == [];
    assert ValidRun(s5, []) && StaysInControl(s5, []);
    assert ValidRun(s4, [io]) && StaysInControl(s4, [io]) && BeginsTransfer(s4, [io]);
    assert ValidRun(s3, [Spurious, io]) && StaysInControl(s3, [Spurious, io]) && BeginsTransfer(s3, [Spurious, io]);
    assert ValidRun(s2, [io, Spurious, io]) && StaysInControl(s2, [io, Spurious, io]);
    assert BeginsTransfer(s2, [io, Spurious, io]);
  }

  /** I/O steps left before the transfer, with nothing announced. */
  function StepsToTransfer(pc: IoPc): nat {
    match pc
    case Transfer => 0
    case Testing => 1
    case Waiting(_) => 1
    case Outside => 2
    case Unlocking => 3
    case Broken => 0
  }

  /**
   With nothing announced and nobody else holding the mutex, an I/O thread that is awake gives the mutex back, takes
   it and transfers, by its own steps alone.
  */
  lemma {:induction false} IoTransfersAlone(s: State)
    requires Inv(s) && !s.event && s.owner != Control && s.io != Waiting(false) && s.io != Broken
    ensures var acts := seq(StepsToTransfer(s.io), _ => IoStep(false));
      ValidRun(s, acts) && After(s, acts) == s.(owner := Io, io := Transfer)
    decreases StepsToTransfer(s.io)
  {
    var acts := seq(StepsToTransfer(s.io), _ => IoStep(false));
    if s.io != Transfer {
      var t := Apply(s, IoStep(false));
      InvStep(s, IoStep(false));
      IoTransfersAlone(t);
      assert acts[1..] == seq(StepsToTransfer(t.io), _ => IoStep(false));
    }
  }

  // ---------------------------------------------------------------------------
  // The write error

  /** Some continuation brings the control thread into its PAL call. */
  ghost predicate ControlCanProceed(s: State) {
    exists acts :: ValidRun(s, acts) && After(s, acts).control == Calling
  }

  lemma {:induction false} BrokenForever(s: State, acts: seq<Action>)
    requires Inv(s) && s.io == Broken && ValidRun(s, acts)
    ensures After(s, acts).io == Broken && After(s, acts).owner == Io && After(s, acts).control != Calling
    decreases |acts|
  {
    if acts != [] {
      InvStep(s, acts[0]);
      BrokenForever(Apply(s, acts[0]), acts[1..]);
    }
  }

  lemma RunCons(s: State, a: Action, rest: seq<Action>) returns (acts: seq<Action>)
    requires Enabled(s, a) && ValidRun(Apply(s, a), rest)
    ensures ValidRun(s, acts) && After(s, acts) == After(Apply(s, a), rest)
  {
    acts := [a] + rest;
    assert acts[1..] == rest;
  }

  /** Steps until the control thread is in PAL, the I/O thread running only to give the mutex back. */
  function StepsToCall(s: State): nat {
    (if s.owner != Io then 0 else if s.io == Testing then 3 else if s.io == Transfer then 2 else 1)
    + match s.control
      case Calling => 0
      case Locking => 1
      case Resting => 2
      case Signalling => 3
      case Unlocking => 4
      case Clearing => 5
  }

  lemma {:induction false} DriveControl(s: State) returns (acts: seq<Action>)
    requires Inv(s) && s.io != Broken
    ensures ValidRun(s, acts) && After(s, acts).control == Calling
    decreases StepsToCall(s)
  {
    if s.control == Calling {
      acts := [];
    } else {
      var a := if s.owner == Io then IoStep(false) else ControlStep;
      InvStep(s, a);
      var rest := DriveControl(Apply(s, a));
      acts := RunCons(s, a, rest);
    }
  }

  /**
   Over every run, a volume or device change can still reach PAL exactly if the write loop has not
   left on an error; a source, whose read loop never leaves, is never stuck.
  */
  lemma {:induction false} ControlIsStuckOnlyByAWriteError(init: State, acts: seq<Action>)
    requires Fresh(init) && ValidRun(init, acts)
    ensures ControlCanProceed(After(init, acts)) <==> After(init, acts).io != Broken
    ensures !init.breaks ==> ControlCanProceed(After(init, acts))
  {
    InvRun(init, acts);
    var s := After(init, acts);
    if s.io == Broken {
      forall more | ValidRun(s, more)
        ensures After(s, more).control != Calling
      {
        BrokenForever(s, more);
      }
    } else {
      var more := DriveControl(s);
    }
  }

  /** A transfer of the sink fails at some step. */
  predicate EverFails(s: State, acts: seq<Action>)
    requires ValidRun(s, acts)
    decreases |acts|
  {
    acts != [] &&
    ((acts[0] == IoStep(true) && s.io == Transfer) || EverFails(Apply(s, acts[0]), acts[1..]))
  }

  lemma {:induction false} BrokenFrom(s: State, acts: seq<Action>)
    requires Inv(s) && ValidRun(s, acts)
    ensures After(s, acts).io == Broken <==> s.io == Broken || (s.breaks && EverFails(s, acts))
    decreases |acts|
  {
    if acts != [] {
      InvStep(s, acts[0]);
      BrokenFrom(Apply(s, acts[0]), acts[1..]);
    }
  }

  /** Over every run: the write loop has left with the mutex if and only if a transfer of the sink once failed. */
  lemma BrokenExactlyIfATransferFailed(init: State, acts: seq<Action>)
    requires Fresh(init) && ValidRun(init, acts)
    ensures After(init, acts).io == Broken <==> init.breaks && EverFails(init, acts)
  {
    BrokenFrom(init, acts);
  }
}
