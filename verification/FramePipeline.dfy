/** The multi-core frame pipeline.

    One DMA channel fills a double buffer.  Its interrupt flips the buffers and posts a
    semaphore for each of two managers on core 0; a manager sends the filled buffer to its
    tracking core in a message that bounces between them, and raises a start flag; when both
    flags are up the main thread lets the next frame come in.

    Every thread, the DMA and the interrupt move in atomic steps, in any order. */
module FramePipeline {
  import opened Shared

  /** What a buffer holds: a whole frame, or something else. */
  datatype Content = Junk | Frame(index: nat)

  /** The transfer engine: at rest, writing a frame into a buffer, or done with the interrupt
      not yet served. */
  datatype Dma = Idle | Writing(frame: nat, dst: nat) | Raised

  datatype MainPc = Begin | AwaitStart | StartNext | AwaitDone | Ended

  datatype ManagerPc = AtPend | AtFill | AtPut | AtPost | AtGet | AtDone | Finished

  /** The one message of a manager and its core. */
  datatype Place = WithManager | Sent | AtCore | Replied

  /** A frame as a core saw it, and whether the core was told to begin tracking with it. */
  datatype Seen = Seen(content: Content, init: bool)

  /** One manager, its semaphore and flags, its message, and what its core has processed. */
  datatype Side = Side(pc: ManagerPc, count: nat, sem: nat, started: bool, done: bool,
                       place: Place, addr: nat, init: bool, log: seq<Seen>)

  datatype State = State(main: MainPc, frameCount: nat, rxIndex: nat, buffers: seq<Content>, dma: Dma,
                         sides: seq<Side>, delivered: nat)

  type Index = i: nat | i < 2

  /** The receive buffer and, opposite to it, the buffer to work on. */
  function RxBuf(s: State): nat { s.rxIndex }

  function OpBuf(s: State): nat { Opposite(s.rxIndex) }

  function Opposite(index: nat): nat { if index == 0 then 1 else 0 }

  const SIDE0 := Side(AtPend, 0, 0, false, false, WithManager, 0, false, [])

  const INITIAL := State(Begin, 0, 0, [Junk, Junk], Idle, [SIDE0, SIDE0], 0)

  predicate Shape(s: State) {
    |s.buffers| == 2 && |s.sides| == 2 && s.rxIndex < 2
    && (s.dma.Writing? ==> s.dma.dst < 2)
    && forall i: Index :: s.sides[i].addr < 2
  }

  datatype Action =
    | StartFirst                 // main: the first frame
    | TakeFlags                  // main: both start flags are up
    | StartFrame                 // main: the next frame
    | TakeDone                   // main: both managers are done
    | Transferred                // DMA: the frame is complete
    | Interrupt                  // core 0: flip the buffers, post both semaphores
    | Pend(i: Index)             // manager: a frame is ready
    | Fill(i: Index)             // manager: fill in the message
    | Put(i: Index)              // manager: send it
    | PostStart(i: Index)        // manager: raise the start flag
    | GetReply(i: Index)         // manager: take the reply
    | PostDone(i: Index)         // manager: raise the done flag
    | CoreGet(i: Index)          // core: take the message
    | CoreReply(i: Index)        // core: the frame has been processed

  /** The steps of a manager or its core. */
  predicate IsSideStep(a: Action) {
    !(a.StartFirst? || a.TakeFlags? || a.StartFrame? || a.TakeDone? || a.Transferred? || a.Interrupt?)
  }

  predicate Enabled(s: State, a: Action)
    requires Shape(s)
  {
    match a
    case StartFirst => s.main.Begin?
    case TakeFlags => s.main.AwaitStart? && s.sides[0].started && s.sides[1].started
    case StartFrame => s.main.StartNext?
    case TakeDone => s.main.AwaitDone? && s.sides[0].done && s.sides[1].done
    case Transferred => s.dma.Writing?
    case Interrupt => s.dma.Raised?
    case _ => CanMove(s.sides[a.i], a)
  }

  predicate CanMove(d: Side, a: Action)
    requires IsSideStep(a)
  {
    match a
    case Pend(_) => d.pc.AtPend? && d.sem > 0
    case Fill(_) => d.pc.AtFill?
    case Put(_) => d.pc.AtPut?
    case PostStart(_) => d.pc.AtPost?
    case GetReply(_) => d.pc.AtGet? && d.place.Replied?
    case PostDone(_) => d.pc.AtDone?
    case CoreGet(_) => d.place.Sent?
    case CoreReply(_) => d.place.AtCore?
  }

  /** Start carrying a frame into the receive buffer. */
  function StartRx(s: State, frame: nat): State
    requires Shape(s)
  {
    s.(dma := Writing(frame, RxBuf(s)), buffers := s.buffers[RxBuf(s) := Junk])
  }

  function WithSide(s: State, i: Index, d: Side): State
    requires Shape(s)
  {
    s.(sides := s.sides[i := d])
  }

  function Lower(d: Side): Side { d.(started := false) }

  function Apply(n: nat, s: State, a: Action): (t: State)
    requires Shape(s) && Enabled(s, a)
    ensures Shape(t)
  {
    match a
    case StartFirst => StartRx(s, 0).(main := AwaitStart)
    case TakeFlags => s.(main := StartNext, sides := [Lower(s.sides[0]), Lower(s.sides[1])])
    case StartFrame =>
      StartRx(s, s.frameCount + 1).(frameCount := s.frameCount + 1,
                                    main := if s.frameCount + 1 == n - 1 then AwaitDone else AwaitStart)
    case TakeDone => s.(main := Ended)
    case Transferred => s.(dma := Raised, buffers := s.buffers[s.dma.dst := Frame(s.dma.frame)])
    case Interrupt =>
      s.(dma := Idle, rxIndex := OpBuf(s), delivered := s.delivered + 1,
         sides := [s.sides[0].(sem := s.sides[0].sem + 1), s.sides[1].(sem := s.sides[1].sem + 1)])
    case _ =>
      var d := s.sides[a.i];
      WithSide(s, a.i, Moved(n, d, a, OpBuf(s), s.buffers[d.addr]))
  }

  /** A step of one manager or its core: op is the buffer to work on, seen what is in the
      buffer the message names. */
  function Moved(n: nat, d: Side, a: Action, op: nat, seen: Content): Side
    requires IsSideStep(a) && (a.Pend? ==> d.sem > 0)
  {
    match a
    case Pend(_) => d.(pc := AtFill, sem := d.sem - 1, count := d.count + 1)
    case Fill(_) => d.(pc := AtPut, addr := op, init := d.count == 1)
    case Put(_) => d.(pc := AtPost, place := Sent)
    case PostStart(_) => d.(pc := AtGet, started := true)
    case GetReply(_) => d.(place := WithManager, pc := if d.count == n then AtDone else AtPend)
    case PostDone(_) => d.(pc := Finished, done := true)
    case CoreGet(_) => d.(place := AtCore)
    case CoreReply(_) => d.(place := Replied, log := d.log + [Seen(seen, d.init)])
  }

  // ----- The invariant -----

  /** Transfers started so far, and pairs of start flags taken so far. */
  function Starts(s: State): nat {
    if s.main.Begin? then 0 else s.frameCount + 1
  }

  function Takes(s: State): nat {
    if s.main.StartNext? then s.frameCount + 1 else s.frameCount
  }

  /** Start flags a manager has raised. */
  function Posts(d: Side): int {
    if d.pc.AtFill? || d.pc.AtPut? || d.pc.AtPost? then d.count - 1 else d.count
  }

  /** Frames the core has processed. */
  function Processed(d: Side): int {
    if d.place.Replied? || d.pc.AtPend? || d.pc.AtDone? || d.pc.Finished? then d.count else d.count - 1
  }

  ghost predicate MainInv(n: nat, s: State)
    requires Shape(s)
  {
    && s.rxIndex == s.delivered % 2
    && (s.main.Begin? ==> s.frameCount == 0)
    && (s.main.AwaitStart? || s.main.StartNext? ==> s.frameCount + 2 <= n)
    && (s.main.AwaitDone? || s.main.Ended? ==> s.frameCount + 1 == n)
    && (s.main.Ended? ==> s.sides[0].done && s.sides[1].done)
    && s.delivered == (if s.dma.Idle? then Starts(s) else Starts(s) - 1)
    && (s.dma.Writing? ==> s.dma == Writing(s.delivered, s.delivered % 2))
  }

  /** Which buffer holds which frame. */
  ghost predicate BufferInv(s: State)
    requires Shape(s)
  {
    && (s.delivered >= 1 ==> s.buffers[(s.delivered - 1) % 2] == Frame(s.delivered - 1))
    && (s.delivered >= 2 && s.dma.Idle? ==> s.buffers[s.delivered % 2] == Frame(s.delivered - 2))
    && (s.dma.Raised? ==> s.buffers[s.delivered % 2] == Frame(s.delivered))
  }

  ghost predicate SideInv(n: nat, delivered: nat, takes: nat, d: Side) {
    && d.sem <= 1 && d.count + d.sem == delivered && d.count <= n
    && takes <= Posts(d) <= takes + 1
    && (d.started <==> Posts(d) == takes + 1)
    && (d.done <==> d.pc.Finished?)
    && (match d.pc
        case AtPend => d.place.WithManager? && d.count < n
        case AtFill => d.place.WithManager? && d.count >= 1
        case AtPut => d.place.WithManager? && Addressed(d)
        case AtPost => !d.place.WithManager? && Addressed(d)
        case AtGet => !d.place.WithManager? && Addressed(d)
        case AtDone => d.place.WithManager? && d.count == n
        case Finished => d.place.WithManager? && d.count == n)
    && LogInv(d)
  }

  /** The message names the buffer of the frame counted last. */
  ghost predicate Addressed(d: Side) {
    d.count >= 1 && d.addr == (d.count - 1) % 2 && (d.init <==> d.count == 1)
  }

  /** The core has seen the frames in order, from frame 0 on, each once, and was told to
      begin with the first. */
  ghost predicate LogInv(d: Side) {
    && |d.log| == Processed(d)
    && forall j :: 0 <= j < |d.log| ==> d.log[j] == Seen(Frame(j), j == 0)
  }

  ghost predicate Inv(n: nat, s: State) {
    && Shape(s) && MainInv(n, s) && BufferInv(s)
    && forall i: Index :: SideOk(n, s, i)
  }

  ghost predicate SideOk(n: nat, s: State, i: Index)
    requires Shape(s)
  {
    SideInv(n, s.delivered, Takes(s), s.sides[i])
  }

  lemma InitialInv(n: nat)
    requires n >= 2
    ensures Inv(n, INITIAL)
  {
  }

  /** When the next frame may come in, both managers have passed on the last one. */
  lemma BothPassedOn(n: nat, s: State, i: Index)
    requires Inv(n, s) && (s.main.StartNext? || s.dma.Writing? || s.dma.Raised?)
    ensures s.sides[i].count == s.delivered && Posts(s.sides[i]) == s.delivered && s.sides[i].sem == 0
  {
    assert SideOk(n, s, i);
  }

  lemma MainKeeps(n: nat, s: State, a: Action)
    requires n >= 2 && Inv(n, s) && Enabled(s, a) && (a.StartFirst? || a.StartFrame? || a.Transferred? || a.TakeDone?)
    ensures Inv(n, Apply(n, s, a))
  {
    var t := Apply(n, s, a);
    assert SideOk(n, s, 0) && SideOk(n, s, 1);
    hide LogInv;
    forall i: Index
      ensures SideOk(n, t, i)
    {
      assert SideOk(n, s, i) && t.sides[i] == s.sides[i] && t.delivered == s.delivered && Takes(t) == Takes(s);
    }
  }

  lemma TakeFlagsKeeps(n: nat, s: State)
    requires n >= 2 && Inv(n, s) && Enabled(s, TakeFlags)
    ensures Inv(n, Apply(n, s, TakeFlags))
  {
    var t := Apply(n, s, TakeFlags);
    forall i: Index
      ensures SideOk(n, t, i)
    {
      assert SideOk(n, s, i) && t.sides[i] == Lower(s.sides[i]);
    }
  }

  lemma InterruptKeeps(n: nat, s: State)
    requires n >= 2 && Inv(n, s) && Enabled(s, Interrupt)
    ensures Inv(n, Apply(n, s, Interrupt))
  {
    var t := Apply(n, s, Interrupt);
    forall i: Index
      ensures SideOk(n, t, i)
    {
      BothPassedOn(n, s, i);
      assert SideOk(n, s, i) && t.sides[i] == s.sides[i].(sem := 1);
    }
  }

  /** A step of a manager or its core keeps that side in order. */
  lemma MovedKeeps(n: nat, delivered: nat, takes: nat, d: Side, a: Action, op: nat, seen: Content)
    requires SideInv(n, delivered, takes, d) && IsSideStep(a)
    requires CanMove(d, a)
    requires a.Fill? ==> op == (d.count - 1) % 2
    requires a.CoreReply? ==> d.count >= 1 && seen == Frame(d.count - 1)
    requires delivered <= takes + 1
    ensures SideInv(n, delivered, takes, Moved(n, d, a, op, seen))
  {
  }

  /** A step of one side changes nothing the other side's invariant speaks of. */
  lemma SideKeeps(n: nat, s: State, a: Action)
    requires n >= 2 && Inv(n, s) && Enabled(s, a) && IsSideStep(a)
    ensures Inv(n, Apply(n, s, a))
  {
    hide SideInv, BufferInv, CanMove;
    var t, d := Apply(n, s, a), s.sides[a.i];
    assert SideOk(n, s, a.i);
    SideStepFacts(n, s, a);
    MovedKeeps(n, s.delivered, Takes(s), d, a, OpBuf(s), s.buffers[d.addr]);
    assert t == s.(sides := t.sides);
    assert Takes(t) == Takes(s) && Starts(t) == Starts(s);
    forall i: Index
      ensures SideOk(n, t, i)
    {
      assert SideOk(n, s, i);
    }
    assert BufferInv(t) by {
      SameBuffers(s, t);
    }
    EndedIsStill(n, s, a);
  }

  lemma SameBuffers(s: State, t: State)
    requires Shape(s) && Shape(t) && BufferInv(s)
    requires t.buffers == s.buffers && t.dma == s.dma && t.delivered == s.delivered
    ensures BufferInv(t)
  {
  }

  /** Once the main thread has ended, both sides have nothing left to do. */
  lemma EndedIsStill(n: nat, s: State, a: Action)
    requires Inv(n, s) && Enabled(s, a) && IsSideStep(a)
    ensures !s.main.Ended?
  {
    assert SideOk(n, s, a.i);
  }

  lemma SideStepFacts(n: nat, s: State, a: Action)
    requires n >= 2 && Inv(n, s) && Enabled(s, a) && IsSideStep(a)
    ensures s.delivered <= Takes(s) + 1
    ensures a.Fill? ==> OpBuf(s) == (s.sides[a.i].count - 1) % 2
    ensures a.CoreReply? ==> s.sides[a.i].count >= 1 && s.buffers[s.sides[a.i].addr] == Frame(s.sides[a.i].count - 1)
  {
    assert SideOk(n, s, a.i);
    if a.CoreReply? {
      HeldFrame(n, s, a.i);
    }
  }

  /** The message a core holds, or is about to be sent, names a buffer with the right frame
      in it, and the DMA is not writing there. */
  lemma HeldFrame(n: nat, s: State, i: Index)
    requires Inv(n, s) && (s.sides[i].place.Sent? || s.sides[i].place.AtCore?)
    ensures var d := s.sides[i];
      && d.count >= 1 && |d.log| == d.count - 1
      && s.buffers[d.addr] == Frame(d.count - 1) && (d.init <==> d.count == 1)
      && !(s.dma.Writing? && s.dma.dst == d.addr)
  {
    assert SideOk(n, s, i);
    if s.dma.Writing? || s.dma.Raised? {
      BothPassedOn(n, s, i);
    }
  }

  lemma StepKeepsInv(n: nat, s: State, a: Action)
    requires n >= 2 && Inv(n, s) && Enabled(s, a)
    ensures Inv(n, Apply(n, s, a))
  {
    match a {
      case TakeFlags => TakeFlagsKeeps(n, s);
      case Interrupt => InterruptKeeps(n, s);
      case _ =>
        if IsSideStep(a) {
          SideKeeps(n, s, a);
        } else {
          MainKeeps(n, s, a);
        }
    }
  }

  // ----- The double buffer -----

  /** The receive buffer and the work buffer of a state, as the manager of the buffers names
      them: one index, flipped by the interrupt. */
  class RxBufManager {
    var rxIndex: Index

    ghost predicate Names(s: State)
      reads this
    {
      Shape(s) && rxIndex == s.rxIndex
    }

    constructor ()
      ensures Names(INITIAL)
    {
      rxIndex := 0;
    }

    method GetRxBuf(ghost s: State) returns (buffer: Index)
      requires Names(s)
      ensures buffer == RxBuf(s)
    {
      buffer := rxIndex;
    }

    method GetOpBuf(ghost s: State) returns (buffer: Index)
      requires Names(s)
      ensures buffer == OpBuf(s)
    {
      buffer := Opposite(rxIndex);
    }

    /** Flipped when a frame has come in, the manager names the buffer that holds this frame,
        whole, as the one to work on; and nothing is being written. */
    method FlipIndex(ghost n: nat, ghost s: State)
      requires Names(s) && Inv(n, s) && Enabled(s, Interrupt)
      modifies this
      ensures Names(Apply(n, s, Interrupt))
      ensures var t := Apply(n, s, Interrupt);
        t.buffers[OpBuf(t)] == Frame(s.delivered) && rxIndex != OpBuf(t) && t.dma.Idle?
    {
      rxIndex := Opposite(rxIndex);
    }
  }

  // ----- Safety over whole runs -----

  /** A run: from the initial state, one enabled action after the other. */
  ghost predicate IsRun(n: nat, acts: seq<Action>, s: State)
    decreases |acts|
  {
    if acts == [] then s == INITIAL
    else exists r :: IsRun(n, Butlast(acts), r) && StepTo(n, r, acts[|acts| - 1], s)
  }

  ghost predicate StepTo(n: nat, r: State, a: Action, s: State) {
    Shape(r) && Enabled(r, a) && s == Apply(n, r, a)
  }

  lemma {:induction false} RunKeepsInv(n: nat, acts: seq<Action>, s: State)
    requires n >= 2 && IsRun(n, acts, s)
    ensures Inv(n, s)
    decreases |acts|
  {
    if acts == [] {
      InitialInv(n);
    } else {
      var r :| IsRun(n, Butlast(acts), r) && StepTo(n, r, acts[|acts| - 1], s);
      RunKeepsInv(n, Butlast(acts), r);
      StepKeepsInv(n, r, acts[|acts| - 1]);
    }
  }

  /** In every reachable state of every interleaving: the buffer the DMA writes is held by
      no core and named by no message on its way; each core has seen frames 0, 1, 2, ... in
      this order, whole, each once, and began tracking with frame 0; what a core holds is the
      frame that comes next. */
  lemma {:induction false} RunIsSafe(n: nat, acts: seq<Action>, s: State, i: Index)
    requires n >= 2 && IsRun(n, acts, s)
    ensures Shape(s) && |s.sides[i].log| <= n
    ensures forall j :: 0 <= j < |s.sides[i].log| ==> s.sides[i].log[j] == Seen(Frame(j), j == 0)
    ensures var d := s.sides[i];
      d.place.Sent? || d.place.AtCore? ==>
        && !(s.dma.Writing? && s.dma.dst == d.addr)
        && s.buffers[d.addr] == Frame(|d.log|) && (d.init <==> |d.log| == 0)
  {
    RunKeepsInv(n, acts, s);
    assert SideOk(n, s, i);
    if s.sides[i].place.Sent? || s.sides[i].place.AtCore? {
      HeldFrame(n, s, i);
    }
  }

  /** Binary flags and the transfer engine are never overrun: a start flag is raised only
      when it is down, a transfer is started only when the engine is at rest, carries a frame
      that exists, and no data semaphore ever counts past one. */
  lemma {:induction false} NothingOverrun(n: nat, acts: seq<Action>, s: State, a: Action)
    requires n >= 2 && IsRun(n, acts, s) && Shape(s) && Enabled(s, a)
    ensures a.PostStart? ==> !s.sides[a.i].started
    ensures a.StartFirst? || a.StartFrame? ==> s.dma.Idle? && s.sides[0].sem == 0 && s.sides[1].sem == 0
    ensures Apply(n, s, a).dma.Writing? ==> Apply(n, s, a).dma.frame < n
    ensures Apply(n, s, a).sides[0].sem <= 1 && Apply(n, s, a).sides[1].sem <= 1
  {
    RunKeepsInv(n, acts, s);
    StepKeepsInv(n, s, a);
    NoOverrunIn(n, s, a);
    SemaphoresBinary(n, Apply(n, s, a));
  }

  lemma NoOverrunIn(n: nat, s: State, a: Action)
    requires Inv(n, s) && Enabled(s, a)
    ensures a.PostStart? ==> !s.sides[a.i].started
    ensures a.StartFirst? || a.StartFrame? ==> s.dma.Idle? && s.sides[0].sem == 0 && s.sides[1].sem == 0
  {
    assert SideOk(n, s, 0) && SideOk(n, s, 1);
    if a.PostStart? {
      assert SideOk(n, s, a.i);
    }
  }

  lemma SemaphoresBinary(n: nat, s: State)
    requires Inv(n, s)
    ensures s.sides[0].sem <= 1 && s.sides[1].sem <= 1
    ensures s.dma.Writing? ==> s.dma.frame < n
  {
    assert SideOk(n, s, 0) && SideOk(n, s, 1);
  }

  // ----- Progress -----

  function MainRank(n: nat, s: State): int {
    match s.main
    case Begin => 40 * n + 50
    case AwaitStart => 40 * (n - s.frameCount) + 20
    case StartNext => 40 * (n - s.frameCount) + 10
    case AwaitDone => 10
    case Ended => 0
  }

  function DmaRank(s: State): int {
    match s.dma
    case Idle => 0
    case Writing(_, _) => 2
    case Raised => 1
  }

  function SideRank(n: nat, d: Side): int {
    20 * (n - d.count)
    + (match d.pc
       case AtPend => 2
       case AtFill => 10
       case AtPut => 9
       case AtPost => 5
       case AtGet => 4
       case AtDone => 1
       case Finished => 0)
    + (match d.place
       case WithManager => 0
       case Sent => 3
       case AtCore => 2
       case Replied => 1)
  }

  /** The steps still to come, at most. */
  function Rank(n: nat, s: State): int
    requires Shape(s)
  {
    MainRank(n, s) + DmaRank(s) + SideRank(n, s.sides[0]) + SideRank(n, s.sides[1])
  }

  lemma MovedLowersRank(n: nat, delivered: nat, takes: nat, d: Side, a: Action, op: nat, seen: Content)
    requires SideInv(n, delivered, takes, d) && IsSideStep(a) && CanMove(d, a)
    ensures SideRank(n, Moved(n, d, a, op, seen)) < SideRank(n, d)
  {
  }

  lemma RankNotNegative(n: nat, s: State)
    requires n >= 2 && Inv(n, s)
    ensures 0 <= Rank(n, s)
  {
    assert SideOk(n, s, 0) && SideOk(n, s, 1);
  }

  /** Every step brings the end nearer, so no run goes on for ever. */
  lemma StepLowersRank(n: nat, s: State, a: Action)
    requires n >= 2 && Inv(n, s) && Enabled(s, a)
    ensures 0 <= Rank(n, Apply(n, s, a)) < Rank(n, s)
  {
    StepKeepsInv(n, s, a);
    RankNotNegative(n, Apply(n, s, a));
    if IsSideStep(a) {
      SideLowersRank(n, s, a);
    } else {
      SharedLowersRank(n, s, a);
    }
  }

  lemma SideLowersRank(n: nat, s: State, a: Action)
    requires n >= 2 && Inv(n, s) && Enabled(s, a) && IsSideStep(a)
    ensures Rank(n, Apply(n, s, a)) < Rank(n, s)
  {
    hide Inv, SideInv, SideRank, Moved, CanMove, Apply, Enabled;
    SideIsOk(n, s, a.i);
    SideStepIsNext(n, s, a);
    var d, t := s.sides[a.i], Apply(n, s, a);
    MovedLowersRank(n, s.delivered, Takes(s), d, a, OpBuf(s), s.buffers[d.addr]);
    assert t.sides[1 - a.i] == s.sides[1 - a.i];
  }

  lemma SideStepIsNext(n: nat, s: State, a: Action)
    requires Shape(s) && Enabled(s, a) && IsSideStep(a)
    ensures CanMove(s.sides[a.i], a)
    ensures Apply(n, s, a) == WithSide(s, a.i, Moved(n, s.sides[a.i], a, OpBuf(s), s.buffers[s.sides[a.i].addr]))
  {
  }

  lemma SideIsOk(n: nat, s: State, i: Index)
    requires Inv(n, s)
    ensures Shape(s) && SideInv(n, s.delivered, Takes(s), s.sides[i])
  {
    assert SideOk(n, s, i);
  }

  lemma SharedLowersRank(n: nat, s: State, a: Action)
    requires n >= 2 && Inv(n, s) && Enabled(s, a) && !IsSideStep(a)
    ensures Rank(n, Apply(n, s, a)) < Rank(n, s)
  {
    hide BufferInv, SideOk;
    var t := Apply(n, s, a);
    assert SideRank(n, t.sides[0]) == SideRank(n, s.sides[0]) && SideRank(n, t.sides[1]) == SideRank(n, s.sides[1]);
  }

  lemma {:induction false} RunsAreShort(n: nat, acts: seq<Action>, s: State)
    requires n >= 2 && IsRun(n, acts, s)
    ensures Shape(s) && |acts| + Rank(n, s) <= Rank(n, INITIAL)
    decreases |acts|
  {
    RunKeepsInv(n, acts, s);
    if acts != [] {
      var init, a := Butlast(acts), acts[|acts| - 1];
      var r :| IsRun(n, init, r) && StepTo(n, r, a, s);
      RunsAreShort(n, init, r);
      RunKeepsInv(n, init, r);
      StepLowersRank(n, r, a);
    }
  }

  /** A manager that cannot move waits for a frame, or for its core, or is finished. */
  lemma SideCanMove(n: nat, s: State, i: Index)
    requires Inv(n, s)
    requires !s.sides[i].pc.Finished? && !(s.sides[i].pc.AtPend? && s.sides[i].sem == 0)
    ensures exists a :: Enabled(s, a)
  {
    var d := s.sides[i];
    assert SideOk(n, s, i);
    match d.pc {
      case AtPend => assert Enabled(s, Pend(i));
      case AtFill => assert Enabled(s, Fill(i));
      case AtPut => assert Enabled(s, Put(i));
      case AtPost => assert Enabled(s, PostStart(i));
      case AtGet =>
        if d.place.Sent? {
          assert Enabled(s, CoreGet(i));
        } else if d.place.AtCore? {
          assert Enabled(s, CoreReply(i));
        } else {
          assert Enabled(s, GetReply(i));
        }
      case AtDone => assert Enabled(s, PostDone(i));
    }
  }

  /** A state from which nothing can happen is the end. */
  lemma StuckMeansEnded(n: nat, s: State)
    requires n >= 2 && Inv(n, s) && forall a :: !Enabled(s, a)
    ensures s.main.Ended? && s.sides[0].pc.Finished? && s.sides[1].pc.Finished?
  {
    assert !Enabled(s, StartFirst) && !Enabled(s, StartFrame);
    assert !Enabled(s, Transferred) && !Enabled(s, Interrupt);
    assert !Enabled(s, TakeFlags) && !Enabled(s, TakeDone);
    StuckSide(n, s, 0);
    StuckSide(n, s, 1);
  }

  /** When the transfer engine is at rest too, a side that cannot move has raised the flag
      the main thread waits for. */
  lemma StuckSide(n: nat, s: State, i: Index)
    requires n >= 2 && Inv(n, s) && forall a :: !Enabled(s, a)
    requires s.dma.Idle? && !s.main.Begin? && !s.main.StartNext?
    ensures s.main.AwaitStart? ==> s.sides[i].started
    ensures s.main.AwaitDone? ==> s.sides[i].done
    ensures s.main.Ended? ==> s.sides[i].pc.Finished?
  {
    assert SideOk(n, s, i);
    if !s.sides[i].pc.Finished? && !(s.sides[i].pc.AtPend? && s.sides[i].sem == 0) {
      SideCanMove(n, s, i);
    }
  }

  /** Every run that cannot be extended has ended, and both cores have then processed all n
      frames in order. */
  lemma {:induction false} MaximalRunsComplete(n: nat, acts: seq<Action>, s: State)
    requires n >= 2 && IsRun(n, acts, s) && Shape(s) && forall a :: !Enabled(s, a)
    ensures s.main.Ended?
    ensures forall i: Index :: |s.sides[i].log| == n && forall j :: 0 <= j < n ==>
            s.sides[i].log[j] == Seen(Frame(j), j == 0)
  {
    hide IsRun, Inv, Enabled;
    RunKeepsInv(n, acts, s);
    StuckMeansEnded(n, s);
    forall i: Index
      ensures |s.sides[i].log| == n && forall j :: 0 <= j < n ==> s.sides[i].log[j] == Seen(Frame(j), j == 0)
    {
      FinishedLog(n, s, i);
    }
  }

  lemma FinishedLog(n: nat, s: State, i: Index)
    requires Inv(n, s) && s.sides[i].pc.Finished?
    ensures |s.sides[i].log| == n && forall j :: 0 <= j < n ==> s.sides[i].log[j] == Seen(Frame(j), j == 0)
  {
    assert SideOk(n, s, i);
  }

  // ----- One frame is too few -----

  lemma RunExtends(n: nat, acts: seq<Action>, s: State, a: Action)
    requires IsRun(n, acts, s) && Shape(s) && Enabled(s, a)
    ensures IsRun(n, acts + [a], Apply(n, s, a))
  {
    assert Butlast(acts + [a]) == acts;
    assert StepTo(n, s, a, Apply(n, s, a));
  }

  /** Side i takes the first frame, sends it on and raises its flag. */
  lemma PassesOn(n: nat, acts: seq<Action>, s: State, i: Index) returns (more: seq<Action>, t: State)
    requires IsRun(n, acts, s) && Shape(s)
    requires s.sides[i].pc.AtPend? && s.sides[i].sem > 0
    ensures IsRun(n, more, t) && Shape(t)
    ensures t == s.(sides := t.sides) && t.sides[1 - i] == s.sides[1 - i] && t.sides[i].started
  {
    hide IsRun;
    RunExtends(n, acts, s, Pend(i));
    var s1 := Apply(n, s, Pend(i));
    RunExtends(n, acts + [Pend(i)], s1, Fill(i));
    var s2 := Apply(n, s1, Fill(i));
    RunExtends(n, acts + [Pend(i)] + [Fill(i)], s2, Put(i));
    var s3 := Apply(n, s2, Put(i));
    RunExtends(n, acts + [Pend(i)] + [Fill(i)] + [Put(i)], s3, PostStart(i));
    t := Apply(n, s3, PostStart(i));
    more := acts + [Pend(i)] + [Fill(i)] + [Put(i)] + [PostStart(i)];
  }

  /** The first frame has come in. */
  const FILLED := State(AwaitStart, 0, 1, [Frame(0), Junk], Idle, [SIDE0.(sem := 1), SIDE0.(sem := 1)], 1)

  lemma FirstFrameComesIn() returns (acts: seq<Action>)
    ensures IsRun(1, acts, FILLED)
  {
    assert IsRun(1, [], INITIAL);
    hide IsRun;
    RunExtends(1, [], INITIAL, StartFirst);
    var s1 := Apply(1, INITIAL, StartFirst);
    RunExtends(1, [] + [StartFirst], s1, Transferred);
    var s2 := Apply(1, s1, Transferred);
    RunExtends(1, [] + [StartFirst] + [Transferred], s2, Interrupt);
    acts := [] + [StartFirst] + [Transferred] + [Interrupt];
    assert Apply(1, s2, Interrupt) == FILLED;
  }

  lemma FlagsLetTheNextIn(acts: seq<Action>, s: State) returns (more: seq<Action>, t: State)
    requires IsRun(1, acts, s) && Shape(s) && s == FILLED.(sides := s.sides)
    requires s.sides[0].started && s.sides[1].started
    ensures IsRun(1, more, t) && t.dma == Writing(1, 1)
  {
    hide IsRun;
    RunExtends(1, acts, s, TakeFlags);
    var r := Apply(1, s, TakeFlags);
    RunExtends(1, acts + [TakeFlags], r, StartFrame);
    more, t := acts + [TakeFlags] + [StartFrame], Apply(1, r, StartFrame);
  }

  /** With a single frame the main thread tests for the last frame only after it has already
      started another one. */
  lemma SingleFrameOverruns() returns (acts: seq<Action>, s: State)
    ensures IsRun(1, acts, s) && s.dma == Writing(1, 1)
  {
    hide IsRun, Apply;
    var a3 := FirstFrameComesIn();
    var a4, s4 := PassesOn(1, a3, FILLED, 0);
    var a5, s5 := PassesOn(1, a4, s4, 1);
    acts, s := FlagsLetTheNextIn(a5, s5);
  }

  /** Only frames that exist are ever carried in. */
  ghost predicate CarriesOwnFrames(n: nat) {
    forall acts, s :: IsRun(n, acts, s) && s.dma.Writing? ==> s.dma.frame < n
  }

  /** That holds of the program exactly when it is built for two frames or more. */
  lemma OwnFramesOnly(n: nat)
    ensures CarriesOwnFrames(n) <==> n >= 2
  {
    if n >= 2 {
      forall acts, s | IsRun(n, acts, s) && s.dma.Writing?
        ensures s.dma.frame < n
      {
        RunKeepsInv(n, acts, s);
        SemaphoresBinary(n, s);
      }
    } else if n == 1 {
      var acts, s := SingleFrameOverruns();
      assert !CarriesOwnFrames(1);
    } else {
      RunExtends(0, [], INITIAL, StartFirst);
      assert IsRun(0, [] + [StartFirst], Apply(0, INITIAL, StartFirst));
    }
  }
}
