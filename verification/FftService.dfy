/** The FFT command service.

    Up to two tracking cores put transform commands on the queue of a server and go on
    working; a counting semaphore of each core tells it how many of its commands are done.
    The server takes core 1's commands first (they are sent with high priority), transforms
    in two passes and notifies the core that asked.

    A core is a script of steps over named buffers.  Values are terms, so two buffers are
    equal exactly when they were computed in the same way: the main theorem says that under
    any interleaving every buffer a core reads holds what it would hold if each command were
    carried out on the spot. */
module FftService {
  import opened Shared

  // ----- Buffers, commands and values -----

  datatype Bank = Tmpl | TmplDft | Feat | FeatHat

  datatype Name = Prob | Alpha | NewAlpha | Sum | Kernel | KernelHat | TmplSum | FeatSum | Peak | Best | Roi

  /** One channel of a bank of feature channels, or a single buffer. */
  datatype Buffer = Chan(bank: Bank, channel: nat) | Cell(name: Name)

  datatype Op = R2R | R2C | R2CN | C2R

  /** Where the record of a command is kept. */
  datatype Site = PeakCmd | AutoCmd | CrossCmd | TrainCmd | DetectCmd | TmplCmd

  datatype Record = Record(site: Site, index: nat)

  datatype Cmd = Cmd(op: Op, src: Buffer, dst: Buffer, record: Record)

  /** What the tracker computes itself. */
  datatype Kind = GaussianPeak | Features(frame: nat, scale: nat, channel: nat) | Energy | Zero | AddSquare | AddProduct
                | ExpAuto | ExpCross | Divide | Blend(first: bool) | Times | FindPeak | Choose(scale: nat)
                | GivenRoi(frame: nat) | Locate

  datatype Value = Unset | Passed(op: Op, second: bool, arg: Value) | Computed(kind: Kind, args: seq<Value>)

  type Memory = map<Buffer, Value>

  function At(m: Memory, b: Buffer): Value {
    if b in m then m[b] else Unset
  }

  function AllAt(m: Memory, bs: seq<Buffer>): (vs: seq<Value>)
    ensures |vs| == |bs|
  {
    seq(|bs|, i requires 0 <= i < |bs| => At(m, bs[i]))
  }

  /** The buffer the first pass writes: an inverse transform works in its source. */
  function Middle(c: Cmd): Buffer {
    if c.op.C2R? then c.src else c.dst
  }

  function FirstPass(c: Cmd, m: Memory): Memory {
    m[Middle(c) := Passed(c.op, false, At(m, c.src))]
  }

  function SecondPass(c: Cmd, m: Memory): Memory {
    m[c.dst := Passed(c.op, true, At(m, Middle(c)))]
  }

  function Exec(c: Cmd, m: Memory): Memory {
    SecondPass(c, FirstPass(c, m))
  }

  /** Two passes over a value. */
  function Transform(op: Op, v: Value): Value {
    Passed(op, true, Passed(op, false, v))
  }

  function ExecAll(cs: seq<Cmd>, m: Memory): Memory
    decreases |cs|
  {
    if cs == [] then m else ExecAll(cs[1..], Exec(cs[0], m))
  }

  predicate Writes(c: Cmd, b: Buffer) {
    b == c.dst || b == Middle(c)
  }

  predicate Uses(c: Cmd, b: Buffer) {
    b == c.src || b == c.dst
  }

  // ----- Scripts -----

  /** What leaves the scope of the tracker. */
  datatype Owned = Records(site: Site) | Buffers(bank: Bank) | Single(name: Name)

  predicate UsesOwned(c: Cmd, w: Owned) {
    match w
    case Records(site) => c.record.site == site
    case Buffers(bank) => (c.src.Chan? && c.src.bank == bank) || (c.dst.Chan? && c.dst.bank == bank)
    case Single(name) => c.src == Cell(name) || c.dst == Cell(name)
  }

  datatype Step =
    | Put(cmd: Cmd)                                        // fill in a command and queue it
    | Pend                                                 // wait for one completion
    | Compute(dst: Buffer, kind: Kind, args: seq<Buffer>)  // the tracker's own work
    | Release(owned: Owned)                                // free a buffer, return from a call
    | Drain                                                // take completions until there is none

  /** A step when each command is carried out as it is put. */
  function StepMem(st: Step, m: Memory): Memory {
    match st
    case Put(c) => Exec(c, m)
    case Compute(dst, kind, args) => m[dst := Computed(kind, AllAt(m, args))]
    case _ => m
  }

  /** The commands not yet waited for, oldest first. */
  function StepOut(st: Step, out: seq<Cmd>): seq<Cmd> {
    match st
    case Put(c) => out + [c]
    case Pend => if out == [] then [] else out[1..]
    case Drain => []
    case _ => out
  }

  /** What the discipline asks of a step: records and buffers a command may still be using
      are left alone. */
  ghost predicate StepOk(st: Step, out: seq<Cmd>) {
    match st
    case Put(c) => forall d :: d in out ==> d.record != c.record
    case Pend => out != []
    case Compute(dst, kind, args) =>
      && (forall d :: d in out ==> !Uses(d, dst))
      && (forall d, a :: d in out && a in args ==> !Writes(d, a))
    case Release(w) => forall d :: d in out ==> !UsesOwned(d, w)
    case Drain => true
  }

  /** Memory and commands not waited for after pc steps. */
  datatype View = View(mem: Memory, out: seq<Cmd>)

  function StepView(st: Step, v: View): View {
    View(StepMem(st, v.mem), StepOut(st, v.out))
  }

  function After(v: View, script: seq<Step>, pc: nat): View
    requires pc <= |script|
  {
    if pc == 0 then v else StepView(script[pc - 1], After(v, script, pc - 1))
  }

  ghost predicate Disciplined(v: View, script: seq<Step>) {
    forall pc: nat :: pc < |script| ==> OkAt(v, script, pc)
  }

  ghost predicate OkAt(v: View, script: seq<Step>, pc: nat)
    requires pc < |script|
  {
    StepOk(script[pc], After(v, script, pc).out)
  }

  // ----- The service -----

  datatype Service = Idle | Got(who: Index, cmd: Cmd) | Half(who: Index, cmd: Cmd) | Served(who: Index)

  type Index = i: nat | i < 2

  /** A core: where it is in its script, its memory, its semaphore, a notification under way,
      and completions taken by a drain that is still going on. */
  datatype Core = Core(pc: nat, mem: Memory, sem: nat, event: bool, drained: nat)

  /** queues[0] holds the high-priority commands of core 1, queues[1] those of core 2. */
  datatype State = State(cores: seq<Core>, queues: seq<seq<Cmd>>, service: Service)

  ghost predicate Shape(scripts: seq<seq<Step>>, s: State) {
    && |scripts| == 2 && |s.cores| == 2 && |s.queues| == 2
    && forall i: Index :: s.cores[i].pc <= |scripts[i]|
  }

  const CORE0 := Core(0, map[], 0, false, 0)

  const INITIAL := State([CORE0, CORE0], [[], []], Idle)

  const START := View(map[], [])

  datatype Action = Move(i: Index) | Take | Pass1 | Pass2 | Notify | Callback(i: Index)

  ghost predicate Enabled(scripts: seq<seq<Step>>, s: State, a: Action)
    requires Shape(scripts, s)
  {
    match a
    case Move(i) =>
      s.cores[i].pc < |scripts[i]| && (scripts[i][s.cores[i].pc].Pend? ==> s.cores[i].sem > 0)
    case Take => s.service.Idle? && (s.queues[0] != [] || s.queues[1] != [])
    case Pass1 => s.service.Got?
    case Pass2 => s.service.Half?
    case Notify => s.service.Served? && !s.cores[s.service.who].event
    case Callback(i) => s.cores[i].event
  }

  /** A step of a core's script. */
  function MoveCore(c: Core, st: Step): Core
    requires st.Pend? ==> c.sem > 0
  {
    match st
    case Put(_) => c.(pc := c.pc + 1)
    case Pend => c.(pc := c.pc + 1, sem := c.sem - 1)
    case Compute(dst, kind, args) => c.(pc := c.pc + 1, mem := StepMem(st, c.mem))
    case Release(_) => c.(pc := c.pc + 1)
    case Drain =>
      if c.sem > 0 then c.(sem := c.sem - 1, drained := c.drained + 1) else c.(pc := c.pc + 1, drained := 0)
  }

  /** High priority first. */
  function NextClient(s: State): Index
    requires |s.queues| == 2
  {
    if s.queues[0] != [] then 0 else 1
  }

  ghost function Apply(scripts: seq<seq<Step>>, s: State, a: Action): (t: State)
    requires Shape(scripts, s) && Enabled(scripts, s, a)
    ensures Shape(scripts, t)
  {
    match a
    case Move(i) =>
      var st := scripts[i][s.cores[i].pc];
      s.(cores := s.cores[i := MoveCore(s.cores[i], st)],
         queues := if st.Put? then s.queues[i := s.queues[i] + [st.cmd]] else s.queues)
    case Take =>
      var i := NextClient(s);
      s.(queues := s.queues[i := s.queues[i][1..]], service := Got(i, s.queues[i][0]))
    case Pass1 =>
      var i := s.service.who;
      s.(cores := s.cores[i := s.cores[i].(mem := FirstPass(s.service.cmd, s.cores[i].mem))],
         service := Half(i, s.service.cmd))
    case Pass2 =>
      var i := s.service.who;
      s.(cores := s.cores[i := s.cores[i].(mem := SecondPass(s.service.cmd, s.cores[i].mem))],
         service := Served(i))
    case Notify =>
      var i := s.service.who;
      s.(cores := s.cores[i := s.cores[i].(event := true)], service := Idle)
    case Callback(i) =>
      s.(cores := s.cores[i := s.cores[i].(event := false, sem := s.cores[i].sem + 1)])
  }

  // ----- The invariant -----

  /** The command of a core the server is working on. */
  function Current(service: Service, i: Index): seq<Cmd> {
    if (service.Got? || service.Half?) && service.who == i then [service.cmd] else []
  }

  function Undone(service: Service, q: seq<Cmd>, i: Index): seq<Cmd> {
    Current(service, i) + q
  }

  /** The memory once the server has finished what it has begun. */
  function Finished(service: Service, i: Index, m: Memory): Memory {
    if service.Got? && service.who == i then Exec(service.cmd, m)
    else if service.Half? && service.who == i then SecondPass(service.cmd, m)
    else m
  }

  /** The memory once every command of the core is carried out. */
  function Settled(service: Service, q: seq<Cmd>, i: Index, m: Memory): Memory {
    ExecAll(q, Finished(service, i, m))
  }

  /** Completions the core has not waited for yet. */
  function Done(service: Service, c: Core, i: Index): nat {
    c.drained + c.sem + (if c.event then 1 else 0) + (if service.Served? && service.who == i then 1 else 0)
  }

  ghost predicate CoreInv(script: seq<Step>, c: Core, q: seq<Cmd>, service: Service, i: Index) {
    && c.pc <= |script|
    && Settled(service, q, i, c.mem) == After(START, script, c.pc).mem
    && IsTail(Undone(service, q, i), Done(service, c, i), After(START, script, c.pc).out)
    && (c.drained > 0 ==> c.pc < |script| && script[c.pc].Drain?)
  }

  /** The undone commands are the youngest of those not waited for. */
  ghost predicate IsTail(undone: seq<Cmd>, done: nat, out: seq<Cmd>) {
    |out| == done + |undone| && out[done..] == undone
  }

  ghost predicate Inv(scripts: seq<seq<Step>>, s: State) {
    && Shape(scripts, s)
    && forall i: Index :: CoreOk(scripts, s, i)
  }

  ghost predicate CoreOk(scripts: seq<seq<Step>>, s: State, i: Index)
    requires Shape(scripts, s)
  {
    CoreInv(scripts[i], s.cores[i], s.queues[i], s.service, i)
  }

  ghost predicate AllDisciplined(scripts: seq<seq<Step>>) {
    |scripts| == 2 && forall i: Index :: Disciplined(START, scripts[i])
  }

  /** Nothing of a core is queued, in service or on its way back. */
  predicate Quiet(s: State, i: Index)
    requires |s.cores| == 2 && |s.queues| == 2
  {
    && s.queues[i] == [] && !s.cores[i].event
    && (s.service.Idle? || s.service.who != i)
  }

  /** The hypothesis on a drain: it does not end while commands of its core are on their way. */
  ghost predicate Calm(scripts: seq<seq<Step>>, s: State, a: Action)
    requires Shape(scripts, s) && Enabled(scripts, s, a)
  {
    a.Move? && scripts[a.i][s.cores[a.i].pc].Drain? && s.cores[a.i].sem == 0 ==> Quiet(s, a.i)
  }

  // Memory while commands are on their way.

  lemma {:induction false} ExecAllAppends(cs: seq<Cmd>, c: Cmd, m: Memory)
    ensures ExecAll(cs + [c], m) == Exec(c, ExecAll(cs, m))
    decreases |cs|
  {
    if cs == [] {
      assert [c][1..] == [];
    } else {
      ExecAllAppends(cs[1..], c, Exec(cs[0], m));
      assert (cs + [c])[1..] == cs[1..] + [c];
    }
  }

  lemma ExecLeaves(c: Cmd, m: Memory, b: Buffer)
    requires !Writes(c, b)
    ensures At(Exec(c, m), b) == At(m, b)
  {
  }

  /** A buffer no queued command writes keeps its value. */
  lemma {:induction false} ExecAllLeaves(cs: seq<Cmd>, m: Memory, b: Buffer)
    requires forall d :: d in cs ==> !Writes(d, b)
    ensures At(ExecAll(cs, m), b) == At(m, b)
    decreases |cs|
  {
    if cs != [] {
      ExecLeaves(cs[0], m, b);
      ExecAllLeaves(cs[1..], Exec(cs[0], m), b);
    }
  }

  lemma ExecCommutes(c: Cmd, m: Memory, b: Buffer, v: Value)
    requires !Uses(c, b)
    ensures Exec(c, m[b := v]) == Exec(c, m)[b := v]
  {
  }

  /** Writing a buffer that no queued command uses may be done before or after them. */
  lemma {:induction false} ExecAllCommutes(cs: seq<Cmd>, m: Memory, b: Buffer, v: Value)
    requires forall d :: d in cs ==> !Uses(d, b)
    ensures ExecAll(cs, m[b := v]) == ExecAll(cs, m)[b := v]
    decreases |cs|
  {
    if cs != [] {
      ExecCommutes(cs[0], m, b, v);
      ExecAllCommutes(cs[1..], Exec(cs[0], m), b, v);
    }
  }

  lemma SettledLeaves(service: Service, q: seq<Cmd>, i: Index, m: Memory, b: Buffer)
    requires forall d :: d in Undone(service, q, i) ==> !Writes(d, b)
    ensures At(Settled(service, q, i, m), b) == At(m, b)
  {
    forall d | d in q
      ensures !Writes(d, b)
    {
      assert d in Undone(service, q, i);
    }
    if Current(service, i) != [] {
      assert service.cmd in Undone(service, q, i);
    }
    ExecAllLeaves(q, Finished(service, i, m), b);
  }

  lemma SettledCommutes(service: Service, q: seq<Cmd>, i: Index, m: Memory, b: Buffer, v: Value)
    requires forall d :: d in Undone(service, q, i) ==> !Uses(d, b)
    ensures Settled(service, q, i, m[b := v]) == Settled(service, q, i, m)[b := v]
  {
    forall d | d in q
      ensures !Uses(d, b)
    {
      assert d in Undone(service, q, i);
    }
    if Current(service, i) != [] {
      assert service.cmd in Undone(service, q, i);
    }
    assert Finished(service, i, m[b := v]) == Finished(service, i, m)[b := v];
    ExecAllCommutes(q, Finished(service, i, m), b, v);
  }

  lemma UndoneInOut(undone: seq<Cmd>, done: nat, out: seq<Cmd>)
    requires IsTail(undone, done, out)
    ensures forall d :: d in undone ==> d in out
  {
  }

  /** What the tracker reads now is what it would read had every command been carried out. */
  lemma ReadsSettled(script: seq<Step>, c: Core, q: seq<Cmd>, service: Service, i: Index)
    requires CoreInv(script, c, q, service, i) && c.pc < |script| && script[c.pc].Compute?
    requires StepOk(script[c.pc], After(START, script, c.pc).out)
    ensures AllAt(c.mem, script[c.pc].args) == AllAt(After(START, script, c.pc).mem, script[c.pc].args)
  {
    var args := script[c.pc].args;
    UndoneInOut(Undone(service, q, i), Done(service, c, i), After(START, script, c.pc).out);
    forall k | 0 <= k < |args|
      ensures At(c.mem, args[k]) == At(After(START, script, c.pc).mem, args[k])
    {
      assert args[k] in args;
      SettledLeaves(service, q, i, c.mem, args[k]);
    }
  }

  // ----- Every step keeps the invariant -----

  lemma InitialInv(scripts: seq<seq<Step>>)
    requires |scripts| == 2
    ensures Inv(scripts, INITIAL)
  {
    forall i: Index
      ensures CoreOk(scripts, INITIAL, i)
    {
      assert ExecAll([], map[]) == map[];
    }
  }

  lemma PutKeeps(script: seq<Step>, c: Core, q: seq<Cmd>, service: Service, i: Index)
    requires CoreInv(script, c, q, service, i) && c.pc < |script| && script[c.pc].Put?
    ensures CoreInv(script, MoveCore(c, script[c.pc]), q + [script[c.pc].cmd], service, i)
  {
    hide ExecAll, Exec, Finished, After, IsTail, Undone;
    var d := script[c.pc].cmd;
    ExecAllAppends(q, d, Finished(service, i, c.mem));
    AfterPut(script, c.pc);
    UndoneMore(service, q, i, d);
    TailMore(Undone(service, q, i), Done(service, c, i), After(START, script, c.pc).out, d);
  }

  lemma AfterPut(script: seq<Step>, pc: nat)
    requires pc < |script| && script[pc].Put?
    ensures var v, d := After(START, script, pc), script[pc].cmd;
      After(START, script, pc + 1) == View(Exec(d, v.mem), v.out + [d])
  {
  }

  lemma UndoneMore(service: Service, q: seq<Cmd>, i: Index, d: Cmd)
    ensures Undone(service, q + [d], i) == Undone(service, q, i) + [d]
  {
  }

  lemma TailMore(undone: seq<Cmd>, done: nat, out: seq<Cmd>, d: Cmd)
    requires IsTail(undone, done, out)
    ensures IsTail(undone + [d], done, out + [d])
  {
  }

  lemma ComputeKeeps(script: seq<Step>, c: Core, q: seq<Cmd>, service: Service, i: Index)
    requires CoreInv(script, c, q, service, i) && c.pc < |script| && script[c.pc].Compute?
    requires StepOk(script[c.pc], After(START, script, c.pc).out)
    ensures CoreInv(script, MoveCore(c, script[c.pc]), q, service, i)
  {
    hide Settled, IsTail, Undone;
    var st := script[c.pc];
    ReadsSettled(script, c, q, service, i);
    UndoneInOut(Undone(service, q, i), Done(service, c, i), After(START, script, c.pc).out);
    SettledCommutes(service, q, i, c.mem, st.dst, Computed(st.kind, AllAt(c.mem, st.args)));
  }

  lemma WaitKeeps(script: seq<Step>, c: Core, q: seq<Cmd>, service: Service, i: Index)
    requires CoreInv(script, c, q, service, i) && c.pc < |script| && (script[c.pc].Pend? || script[c.pc].Release?)
    requires script[c.pc].Pend? ==> c.sem > 0
    ensures CoreInv(script, MoveCore(c, script[c.pc]), q, service, i)
  {
    hide Settled;
  }

  lemma DrainKeeps(script: seq<Step>, c: Core, q: seq<Cmd>, service: Service, i: Index)
    requires CoreInv(script, c, q, service, i) && c.pc < |script| && script[c.pc].Drain?
    requires c.sem == 0 ==> q == [] && !c.event && (service.Idle? || service.who != i)
    ensures CoreInv(script, MoveCore(c, script[c.pc]), q, service, i)
  {
    hide CoreInv;
    if c.sem > 0 {
      DrainsOne(script, c, q, service, i);
    } else {
      DrainEnds(script, c, q, service, i);
    }
  }

  lemma DrainsOne(script: seq<Step>, c: Core, q: seq<Cmd>, service: Service, i: Index)
    requires CoreInv(script, c, q, service, i) && c.pc < |script| && script[c.pc].Drain? && c.sem > 0
    ensures CoreInv(script, MoveCore(c, script[c.pc]), q, service, i)
  {
    hide Settled, IsTail, Undone, After;
  }

  lemma DrainEnds(script: seq<Step>, c: Core, q: seq<Cmd>, service: Service, i: Index)
    requires CoreInv(script, c, q, service, i) && c.pc < |script| && script[c.pc].Drain? && c.sem == 0
    requires q == [] && !c.event && (service.Idle? || service.who != i)
    ensures CoreInv(script, MoveCore(c, script[c.pc]), q, service, i)
  {
    hide Settled, IsTail, After;
    AfterDrain(script, c.pc);
    assert Undone(service, q, i) == [];
    NothingOut(0);
  }

  lemma AfterDrain(script: seq<Step>, pc: nat)
    requires pc < |script| && script[pc].Drain?
    ensures After(START, script, pc + 1) == View(After(START, script, pc).mem, [])
  {
  }

  lemma NothingOut(done: nat)
    requires done == 0
    ensures IsTail([], done, [])
  {
  }

  lemma MoveKeeps(scripts: seq<seq<Step>>, s: State, i: Index)
    requires AllDisciplined(scripts) && Inv(scripts, s)
    requires Enabled(scripts, s, Move(i)) && Calm(scripts, s, Move(i))
    ensures Inv(scripts, Apply(scripts, s, Move(i)))
  {
    var t := Apply(scripts, s, Move(i));
    var c, q := s.cores[i], s.queues[i];
    var st := scripts[i][c.pc];
    assert CoreOk(scripts, s, i) && Disciplined(START, scripts[i]) && OkAt(START, scripts[i], c.pc);
    hide CoreInv, StepOk;
    match st {
      case Put(_) => PutKeeps(scripts[i], c, q, s.service, i);
      case Compute(_, _, _) => ComputeKeeps(scripts[i], c, q, s.service, i);
      case Drain => DrainKeeps(scripts[i], c, q, s.service, i);
      case _ => WaitKeeps(scripts[i], c, q, s.service, i);
    }
    forall j: Index
      ensures CoreOk(scripts, t, j)
    {
      assert CoreOk(scripts, s, j);
    }
  }

  lemma ServerKeeps(scripts: seq<seq<Step>>, s: State, a: Action)
    requires Inv(scripts, s) && Enabled(scripts, s, a) && !a.Move?
    ensures Inv(scripts, Apply(scripts, s, a))
  {
    hide After, Exec, FirstPass, SecondPass, ExecAll;
    var t := Apply(scripts, s, a);
    forall j: Index
      ensures CoreOk(scripts, t, j)
    {
      assert CoreOk(scripts, s, j);
      ServerKeepsCore(scripts[j], scripts, s, a, j);
    }
  }

  lemma ServerKeepsCore(script: seq<Step>, scripts: seq<seq<Step>>, s: State, a: Action, j: Index)
    requires Shape(scripts, s) && script == scripts[j] && Enabled(scripts, s, a) && !a.Move?
    requires CoreInv(script, s.cores[j], s.queues[j], s.service, j)
    ensures var t := Apply(scripts, s, a); CoreInv(script, t.cores[j], t.queues[j], t.service, j)
  {
    hide After, IsTail, Undone, Settled;
    var t := Apply(scripts, s, a);
    var c, d := s.cores[j], t.cores[j];
    assert d.pc == c.pc && d.drained == c.drained;
    ServerSettles(scripts, s, a, j);
    ServerCounts(scripts, s, a, j, After(START, script, c.pc).out);
  }

  /** The server carries out what is settled already. */
  lemma ServerSettles(scripts: seq<seq<Step>>, s: State, a: Action, j: Index)
    requires Shape(scripts, s) && Enabled(scripts, s, a) && !a.Move?
    ensures var t := Apply(scripts, s, a);
      Settled(t.service, t.queues[j], j, t.cores[j].mem) == Settled(s.service, s.queues[j], j, s.cores[j].mem)
  {
    hide FirstPass, SecondPass;
  }

  /** A command leaves the undone ones only to become a completion. */
  lemma ServerCounts(scripts: seq<seq<Step>>, s: State, a: Action, j: Index, out: seq<Cmd>)
    requires Shape(scripts, s) && Enabled(scripts, s, a) && !a.Move?
    requires IsTail(Undone(s.service, s.queues[j], j), Done(s.service, s.cores[j], j), out)
    ensures var t := Apply(scripts, s, a);
      IsTail(Undone(t.service, t.queues[j], j), Done(t.service, t.cores[j], j), out)
  {
    hide FirstPass, SecondPass;
    var t := Apply(scripts, s, a);
    assert Undone(t.service, t.queues[j], j) ==
      if a.Pass2? &&
          s.service.who == j then Undone(s.service, s.queues[j], j)[1..] else Undone(s.service, s.queues[j], j);
  }

  lemma StepKeepsInv(scripts: seq<seq<Step>>, s: State, a: Action)
    requires AllDisciplined(scripts) && Inv(scripts, s)
    requires Enabled(scripts, s, a) && Calm(scripts, s, a)
    ensures Inv(scripts, Apply(scripts, s, a))
  {
    hide Inv;
    if a.Move? {
      MoveKeeps(scripts, s, a.i);
    } else {
      ServerKeeps(scripts, s, a);
    }
  }

  // ----- Safety over whole runs -----

  /** A run; in a calm one no drain ends too early. */
  ghost predicate IsRun(scripts: seq<seq<Step>>, acts: seq<Action>, s: State, calm: bool)
    decreases |acts|
  {
    if acts == [] then |scripts| == 2 && s == INITIAL
    else exists r :: IsRun(scripts, Butlast(acts), r, calm) && StepTo(scripts, r, acts[|acts| - 1], s, calm)
  }

  ghost predicate StepTo(scripts: seq<seq<Step>>, r: State, a: Action, s: State, calm: bool) {
    && Shape(scripts, r) && Enabled(scripts, r, a) && s == Apply(scripts, r, a)
    && (calm ==> Calm(scripts, r, a))
  }

  lemma {:induction false} RunKeepsInv(scripts: seq<seq<Step>>, acts: seq<Action>, s: State)
    requires AllDisciplined(scripts) && IsRun(scripts, acts, s, true)
    ensures Inv(scripts, s)
    decreases |acts|
  {
    hide Inv, AllDisciplined;
    if acts == [] {
      InitialInv(scripts);
    } else {
      var r :| IsRun(scripts, Butlast(acts), r, true) && StepTo(scripts, r, acts[|acts| - 1], s, true);
      RunKeepsInv(scripts, Butlast(acts), r);
      StepKeepsInv(scripts, r, acts[|acts| - 1]);
    }
  }

  /** Whatever the interleaving: when a core computes, every buffer it reads holds what it
      would hold if each of its commands had been carried out the moment it was put, and no
      command under way reads or writes the buffer it is about to change. */
  lemma {:induction false} ReadsAreSequential(scripts: seq<seq<Step>>, acts: seq<Action>, s: State, i: Index)
    requires AllDisciplined(scripts) && IsRun(scripts, acts, s, true) && Shape(scripts, s)
    requires s.cores[i].pc < |scripts[i]| && scripts[i][s.cores[i].pc].Compute?
    ensures var st := scripts[i][s.cores[i].pc];
      && AllAt(s.cores[i].mem, st.args) == AllAt(After(START, scripts[i], s.cores[i].pc).mem, st.args)
      && forall d :: d in Undone(s.service, s.queues[i], i) ==> !Uses(d, st.dst)
  {
    RunKeepsInv(scripts, acts, s);
    assert CoreOk(scripts, s, i) && OkAt(START, scripts[i], s.cores[i].pc);
    hide CoreInv;
    ReadsSettled(scripts[i], s.cores[i], s.queues[i], s.service, i);
    UndoneOf(scripts[i], s.cores[i], s.queues[i], s.service, i);
  }

  lemma UndoneOf(script: seq<Step>, c: Core, q: seq<Cmd>, service: Service, i: Index)
    requires CoreInv(script, c, q, service, i)
    ensures forall d :: d in Undone(service, q, i) ==> d in After(START, script, c.pc).out
  {
    UndoneInOut(Undone(service, q, i), Done(service, c, i), After(START, script, c.pc).out);
  }

  /** A record is filled in, and a buffer or a record goes out of scope, only when no queued
      command and not the command in service uses it. */
  lemma {:induction false} NothingReusedEarly(scripts: seq<seq<Step>>, acts: seq<Action>, s: State, i: Index)
    requires AllDisciplined(scripts) && IsRun(scripts, acts, s, true) && Shape(scripts, s) &&
             s.cores[i].pc < |scripts[i]|
    ensures var st := scripts[i][s.cores[i].pc];
      && (st.Put? ==> forall d :: d in Undone(s.service, s.queues[i], i) ==> d.record != st.cmd.record)
      && (st.Release? ==> forall d :: d in Undone(s.service, s.queues[i], i) ==> !UsesOwned(d, st.owned))
  {
    RunKeepsInv(scripts, acts, s);
    assert CoreOk(scripts, s, i) && OkAt(START, scripts[i], s.cores[i].pc);
    UndoneOf(scripts[i], s.cores[i], s.queues[i], s.service, i);
  }

  /** The semaphore counts: commands put and not waited for are done, or on their way, and
      the done ones are the oldest. */
  lemma {:induction false} CompletionsInOrder(scripts: seq<seq<Step>>, acts: seq<Action>, s: State, i: Index)
    requires AllDisciplined(scripts) && IsRun(scripts, acts, s, true) && Shape(scripts, s)
    ensures IsTail(Undone(s.service, s.queues[i], i), Done(s.service, s.cores[i], i),
                   After(START, scripts[i], s.cores[i].pc).out)
  {
    RunKeepsInv(scripts, acts, s);
    assert CoreOk(scripts, s, i);
  }

  /** Where the script has waited for all its commands, the server has none of them, the
      semaphore is 0 and the whole memory is the sequential one. */
  lemma {:induction false} WaitedMeansQuiet(scripts: seq<seq<Step>>, acts: seq<Action>, s: State, i: Index)
    requires AllDisciplined(scripts) && IsRun(scripts, acts, s, true) && Shape(scripts, s)
    requires After(START, scripts[i], s.cores[i].pc).out == []
    ensures Quiet(s, i) && s.cores[i].sem == 0
    ensures s.cores[i].mem == After(START, scripts[i], s.cores[i].pc).mem
  {
    RunKeepsInv(scripts, acts, s);
    assert CoreOk(scripts, s, i);
  }

  /** A drain that comes to its end leaves no command behind exactly when the server had
      none left at that moment: the calm hypothesis is the exact one. */
  lemma DrainExact(scripts: seq<seq<Step>>, s: State, i: Index)
    requires Inv(scripts, s) && s.cores[i].pc < |scripts[i]| && scripts[i][s.cores[i].pc].Drain? && s.cores[i].sem == 0
    ensures s.cores[i].drained == |After(START, scripts[i], s.cores[i].pc).out| <==> Quiet(s, i)
  {
    assert CoreOk(scripts, s, i);
  }

  // ----- Progress -----

  function CoreRank(script: seq<Step>, c: Core): int {
    10 * (|script| - c.pc) + c.sem + (if c.event then 2 else 0)
  }

  function ServiceRank(service: Service): nat {
    match service
    case Idle => 0
    case Got(_, _) => 5
    case Half(_, _) => 4
    case Served(_) => 3
  }

  ghost function Rank(scripts: seq<seq<Step>>, s: State): int
    requires Shape(scripts, s)
  {
    CoreRank(scripts[0], s.cores[0]) + CoreRank(scripts[1], s.cores[1])
    + 6 * |s.queues[0]| + 6 * |s.queues[1]| + ServiceRank(s.service)
  }

  /** Every step, calm or not, brings the end nearer. */
  lemma StepLowersRank(scripts: seq<seq<Step>>, s: State, a: Action)
    requires Shape(scripts, s) && Enabled(scripts, s, a)
    ensures 0 <= Rank(scripts, Apply(scripts, s, a)) < Rank(scripts, s)
  {
    if a.Move? {
      MoveLowersRank(scripts, s, a.i);
    } else {
      ServerLowersRank(scripts, s, a);
    }
  }

  lemma MoveLowersRank(scripts: seq<seq<Step>>, s: State, i: Index)
    requires Shape(scripts, s) && Enabled(scripts, s, Move(i))
    ensures 0 <= Rank(scripts, Apply(scripts, s, Move(i))) < Rank(scripts, s)
  {
    hide StepMem;
    var t := Apply(scripts, s, Move(i));
    assert t.cores[1 - i] == s.cores[1 - i] && t.queues[1 - i] == s.queues[1 - i];
  }

  lemma ServerLowersRank(scripts: seq<seq<Step>>, s: State, a: Action)
    requires Shape(scripts, s) && Enabled(scripts, s, a) && !a.Move?
    ensures 0 <= Rank(scripts, Apply(scripts, s, a)) < Rank(scripts, s)
  {
    hide FirstPass, SecondPass;
  }

  lemma {:induction false} RunsAreShort(scripts: seq<seq<Step>>, acts: seq<Action>, s: State, calm: bool)
    requires IsRun(scripts, acts, s, calm)
    ensures Shape(scripts, s) && Shape(scripts, INITIAL) && |acts| + Rank(scripts, s) <= Rank(scripts, INITIAL)
    decreases |acts|
  {
    hide Rank;
    if acts != [] {
      var r :| IsRun(scripts, Butlast(acts), r, calm) && StepTo(scripts, r, acts[|acts| - 1], s, calm);
      RunsAreShort(scripts, Butlast(acts), r, calm);
      StepLowersRank(scripts, r, acts[|acts| - 1]);
    }
  }

  /** A core that waits has a command at the server or a completion on its way, so a state
      from which nothing can happen is the end of both scripts. */
  lemma StuckMeansEnded(scripts: seq<seq<Step>>, s: State)
    requires AllDisciplined(scripts) && Inv(scripts, s) && forall a :: !Enabled(scripts, s, a)
    ensures s.service.Idle? && forall i: Index :: s.cores[i].pc == |scripts[i]| && s.queues[i] == []
  {
    assert !Enabled(scripts, s, Callback(0)) && !Enabled(scripts, s, Callback(1));
    assert !Enabled(scripts, s, Pass1) && !Enabled(scripts, s, Pass2) && !Enabled(scripts, s, Notify);
    assert !Enabled(scripts, s, Take);
    forall i: Index
      ensures s.cores[i].pc == |scripts[i]| && s.queues[i] == []
    {
      assert !Enabled(scripts, s, Move(i));
      assert CoreOk(scripts, s, i) && Disciplined(START, scripts[i]);
      assert s.cores[i].pc < |scripts[i]| ==> OkAt(START, scripts[i], s.cores[i].pc);
    }
  }

  /** Every calm run that cannot be extended has carried out both scripts to the end with
      the sequential result. */
  lemma {:induction false} MaximalRunsComplete(scripts: seq<seq<Step>>, acts: seq<Action>, s: State, i: Index)
    requires AllDisciplined(scripts) && IsRun(scripts, acts, s, true) && Shape(scripts, s)
    requires forall a :: !Enabled(scripts, s, a)
    ensures s.cores[i].pc == |scripts[i]|
    ensures s.cores[i].mem == After(START, scripts[i], |scripts[i]|).mem
  {
    RunKeepsInv(scripts, acts, s);
    StuckMeansEnded(scripts, s);
    assert CoreOk(scripts, s, i);
  }
}
