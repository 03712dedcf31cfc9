/**
 The compressed sink's two threads: the render thread posts a chunk to the PAL write thread when the
 atomic write_done is set, and the write thread sets it again after write_chunk. Steps are the
 single accesses of either thread to what they share, and the passes of write_chunk's loop.
*/
module ChunkPipeline {

  type Chunk = seq<bv8>

  /** `Rendered` still has to clear write_done, `Posting` still has to post the message. */
  datatype RenderPc = Polling | Rendered(chunk: Chunk) | Posting(chunk: Chunk)

  /** `Blocked` is the wait for PAL's write-done event after a short write. */
  datatype WriterPc = Listening | Writing(chunk: Chunk) | Blocked(chunk: Chunk) | Finishing

  /** `broken`: a write error has left the mutex locked, by the write thread itself. */
  datatype State = State(
    writeDone: bool,
    queue: seq<Chunk>,
    render: RenderPc,
    writer: WriterPc,
    broken: bool,
    rendered: seq<Chunk>,
    processed: seq<Chunk>)

  const INITIAL := State(true, [], Polling, Listening, false, [], [])

  /** How a pass of the loop ends: close_output seen before the mutex, or the write short, failed or complete. */
  datatype Pass = CloseSeen | Short | Failed | Complete

  datatype Action = RenderStep(chunk: Chunk) | WriterStep(pass: Pass) | PalEvent

  predicate Enabled(s: State, a: Action) {
    match a
    case RenderStep(_) => s.render.Polling? ==> s.writeDone
    case WriterStep(pass) =>
      (match s.writer
       case Listening => s.queue != []
       case Writing(_) => pass == CloseSeen || !s.broken
       case Blocked(_) => false
       case Finishing => true)
    case PalEvent => s.writer.Blocked?
  }

  function Apply(s: State, a: Action): State
    requires Enabled(s, a)
  {
    match a
    case RenderStep(chunk) =>
      (match s.render
       case Polling => s.(render := Rendered(chunk), rendered := s.rendered + [chunk])
       case Rendered(c) => s.(writeDone := false, render := Posting(c))
       case Posting(c) => s.(queue := s.queue + [c], render := Polling))
    case WriterStep(pass) =>
      (match s.writer
       case Listening => s.(queue := s.queue[1..], writer := Writing(s.queue[0]))
       case Writing(c) =>
         if pass == Short then s.(writer := Blocked(c))
         else s.(processed := s.processed + [c], writer := Finishing, broken := s.broken || pass == Failed)
       case Finishing => s.(writeDone := true, writer := Listening))
    case PalEvent => s.(writer := Writing(s.writer.chunk))
  }

  predicate ValidRun(s: State, acts: seq<Action>)
    decreases |acts|
  {
    acts == [] || (Enabled(s, acts[0]) && ValidRun(Apply(s, acts[0]), acts[1..]))
  }

  function After(s: State, acts: seq<Action>): State
    requires ValidRun(s, acts)
    decreases |acts|
  {
    if acts == [] then s else After(Apply(s, acts[0]), acts[1..])
  }

  /** The chunks on their way, oldest first. */
  function InFlight(s: State): seq<Chunk> {
    (if s.writer.Writing? || s.writer.Blocked? then [s.writer.chunk] else [])
    + s.queue
    + (if s.render.Polling? then [] else [s.render.chunk])
  }

  ghost predicate Inv(s: State) {
    && s.processed + InFlight(s) == s.rendered
    && |InFlight(s)| <= 1
    && (s.writeDone ==> s.queue == [] && s.writer.Listening? && !s.render.Posting?)
    && (!s.writeDone ==> !s.render.Rendered?)
    && (!s.writeDone ==> |InFlight(s)| == 1 || s.writer.Finishing?)
    && (s.writer.Finishing? ==> InFlight(s) == [])
  }

  lemma InvStep(s: State, a: Action)
    requires Inv(s) && Enabled(s, a)
    ensures Inv(Apply(s, a))
  {
    assert s.queue != [] ==> s.queue == [s.queue[0]];
  }

  lemma {:induction false} InvRun(s: State, acts: seq<Action>)
    requires Inv(s) && ValidRun(s, acts)
    ensures Inv(After(s, acts))
    decreases |acts|
  {
    if acts != [] {
      InvStep(s, acts[0]);
      InvRun(Apply(s, acts[0]), acts[1..]);
    }
  }

  /** Can either thread take a step that does not need close_output set? */
  predicate SomeoneCanMove(s: State) {
    Enabled(s, RenderStep([])) || Enabled(s, WriterStep(Complete))
  }

  /**
   Over every interleaving: at most one chunk is rendered and not yet written, and nothing is lost, repeated
   or reordered. Both threads stand still if and only if the writer waits for PAL's event, or needs the mutex
   that a write error of its own has left locked.
  */
  lemma {:induction false} OneChunkInFlight(init: State, acts: seq<Action>)
    requires init == INITIAL && ValidRun(init, acts)
    ensures var s := After(init, acts);
            && |InFlight(s)| <= 1
            && s.processed + InFlight(s) == s.rendered
            && (!SomeoneCanMove(s) <==> s.writer.Blocked? || (s.writer.Writing? && s.broken))
  {
    InvRun(init, acts);
  }

  // ---------------------------------------------------------------------------
  // What each pass does

  /** What the render thread renders in a step. */
  function Offer(s: State, a: Action): seq<Chunk> {
    if a.RenderStep? && s.render.Polling? then [a.chunk] else []
  }

  function Offered(s: State, acts: seq<Action>): seq<Chunk>
    requires ValidRun(s, acts)
    decreases |acts|
  {
    if acts == [] then [] else Offer(s, acts[0]) + Offered(Apply(s, acts[0]), acts[1..])
  }

  /** Is the step a pass of write_chunk's loop that ends in `pass`? */
  function IsPass(s: State, a: Action, pass: Pass): nat {
    if a == WriterStep(pass) && s.writer.Writing? then 1 else 0
  }

  function Passes(s: State, acts: seq<Action>, pass: Pass): nat
    requires ValidRun(s, acts)
    decreases |acts|
  {
    if acts == [] then 0 else IsPass(s, acts[0], pass) + Passes(Apply(s, acts[0]), acts[1..], pass)
  }

  function IsEvent(a: Action): nat {
    if a.PalEvent? then 1 else 0
  }

  function Events(acts: seq<Action>): nat {
    if acts == [] then 0 else IsEvent(acts[0]) + Events(acts[1..])
  }

  function IsBlocked(s: State): nat {
    if s.writer.Blocked? then 1 else 0
  }

  lemma PassStep(s: State, a: Action)
    requires Enabled(s, a)
    ensures var t := Apply(s, a);
      && t.rendered == s.rendered + Offer(s, a)
      && |t.processed| == |s.processed| + IsPass(s, a, CloseSeen) + IsPass(s, a, Failed) + IsPass(s, a, Complete)
      && IsEvent(a) + IsBlocked(t) == IsPass(s, a, Short) + IsBlocked(s)
      && (t.broken <==> s.broken || IsPass(s, a, Failed) > 0)
  {
  }

  lemma {:induction false} PassesFrom(s: State, acts: seq<Action>)
    requires ValidRun(s, acts)
    ensures var t := After(s, acts);
      && t.rendered == s.rendered + Offered(s, acts)
      && |t.processed| ==
           |s.processed| + Passes(s, acts, CloseSeen) + Passes(s, acts, Failed) + Passes(s, acts, Complete)
      && Events(acts) + IsBlocked(t) == Passes(s, acts, Short) + IsBlocked(s)
      && (t.broken <==> s.broken || Passes(s, acts, Failed) > 0)
    decreases |acts|
  {
    if acts != [] {
      var t := Apply(s, acts[0]);
      PassStep(s, acts[0]);
      hide Apply, Enabled, Offer, IsPass, IsEvent, IsBlocked;
      PassesFrom(t, acts[1..]);
      assert s.rendered + Offered(s, acts) == t.rendered + Offered(t, acts[1..]);
    }
  }

  /**
   Over every interleaving: what was rendered is what the render thread was given; a chunk is done with exactly when
   its pass was not short; the writer waits exactly when a short pass has not had its event; and the mutex is left
   locked exactly when a pass has failed.
  */
  lemma PassesAreAccountedFor(init: State, acts: seq<Action>)
    requires init == INITIAL && ValidRun(init, acts)
    ensures var s := After(init, acts);
      && s.rendered == Offered(init, acts)
      && |s.processed| == Passes(init, acts, CloseSeen) + Passes(init, acts, Failed) + Passes(init, acts, Complete)
      && (s.writer.Blocked? <==> Passes(init, acts, Short) == Events(acts) + 1)
      && (s.broken <==> Passes(init, acts, Failed) > 0)
  {
    PassesFrom(init, acts);
    assert [] + Offered(init, acts) == Offered(init, acts);
  }

  // ---------------------------------------------------------------------------
  // The next chunk goes through

  /** Everybody is back where a chunk is waited for. */
  predicate AtRest(s: State) {
    s.writeDone && s.queue == [] && s.render.Polling? && s.writer.Listening? && !s.broken
  }

  /** Steps until both threads are at rest again. */
  function StepsToRest(s: State): nat {
    (match s.render case Polling => 0 case Rendered(_) => 5 case Posting(_) => 4)
    + (match s.writer case Listening => if s.queue != [] then 3 else 0 case Blocked(_) => 3 case Writing(_) => 2
       case Finishing => 1)
  }

  lemma RunCons(s: State, a: Action, rest: seq<Action>) returns (acts: seq<Action>)
    requires Enabled(s, a) && ValidRun(Apply(s, a), rest)
    ensures ValidRun(s, acts) && After(s, acts) == After(Apply(s, a), rest) && |acts| == |rest| + 1
  {
    acts := [a] + rest;
    assert acts[1..] == rest;
  }

  /** Unless a write has failed, the chunk on its way, if any, can be written, and both threads come to rest. */
  lemma {:induction false} Drains(s: State) returns (acts: seq<Action>)
    requires Inv(s) && !s.broken
    ensures ValidRun(s, acts) && |acts| == StepsToRest(s)
    ensures AtRest(After(s, acts)) && After(s, acts).processed == After(s, acts).rendered == s.rendered
    decreases StepsToRest(s)
  {
    if StepsToRest(s) == 0 {
      assert s.processed + [] == s.processed;
      acts := [];
    } else {
      var a := if !s.render.Polling? then RenderStep([])
               else if s.writer.Blocked? then PalEvent
               else WriterStep(Complete);
      InvStep(s, a);
      var rest := Drains(Apply(s, a));
      acts := RunCons(s, a, rest);
    }
  }

  /** After any run without a failed write, the next chunk can be rendered and written, after all those before it. */
  lemma NextChunkGoesThrough(init: State, acts: seq<Action>, chunk: Chunk) returns (more: seq<Action>)
    requires init == INITIAL && ValidRun(init, acts) && !After(init, acts).broken
    ensures ValidRun(After(init, acts), more)
    ensures var s := After(After(init, acts), more);
      AtRest(s) && s.processed == s.rendered == After(init, acts).rendered + [chunk]
  {
    InvRun(init, acts);
    var s := After(init, acts);
    var first := Drains(s);
    InvRun(s, first);
    var t := After(s, first);
    InvStep(t, RenderStep(chunk));
    var second := Drains(Apply(t, RenderStep(chunk)));
    second := RunCons(t, RenderStep(chunk), second);
    RunAppend(s, first, second);
    more := first + second;
  }

  lemma {:induction false} RunAppend(s: State, first: seq<Action>, rest: seq<Action>)
    requires ValidRun(s, first) && ValidRun(After(s, first), rest)
    ensures ValidRun(s, first + rest) && After(s, first + rest) == After(After(s, first), rest)
    decreases |first|
  {
    hide Apply, Enabled;
    if first == [] {
      assert first + rest == rest;
    } else {
      assert (first + rest)[1..] == first[1..] + rest;
      RunAppend(Apply(s, first[0]), first[1..], rest);
    }
  }
}
