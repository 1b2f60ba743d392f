/** Why a drain has to be calm.

    The stand-alone tracker's init throws away completions until there are none.  If the
    transforms of the last sequence's template are not finished by then, the training that
    follows takes their completions for its own and multiplies with the wrong transform. */
module EarlyDrain {
  import opened Shared
  import opened FftService
  import opened Trackers

  lemma RunExtends(scripts: seq<seq<Step>>, acts: seq<Action>, s: State, a: Action)
    returns (more: seq<Action>, t: State)
    requires IsRun(scripts, acts, s, false) && Shape(scripts, s) && Enabled(scripts, s, a)
    ensures IsRun(scripts, more, t, false) && t == Apply(scripts, s, a) && Shape(scripts, t)
  {
    hide Apply, Enabled;
    more, t := acts + [a], Apply(scripts, s, a);
    assert Butlast(more) == acts;
    assert StepTo(scripts, s, a, t, false);
  }

  /** A single tracker in its script, with nothing on its way. */
  function AtRest(pc: nat, v: View): State {
    State([Core(pc, v.mem, |v.out|, false, 0), CORE0], [[], []], Idle)
  }

  /** One step of the script with the server keeping up. */
  lemma StepAtRest(p: seq<Step>, acts: seq<Action>, pc: nat, v: View) returns (more: seq<Action>)
    requires pc < |p| && IsRun([p, []], acts, AtRest(pc, v), false) && (p[pc].Pend? ==> v.out != [])
    ensures IsRun([p, []], more, AtRest(pc + 1, StepView(p[pc], v)), false)
  {
    hide IsRun, FirstPass, SecondPass;
    var st := p[pc];
    if st.Put? {
      more := PutAtRest(p, acts, pc, v);
    } else if st.Drain? {
      more := DrainAtRest(p, acts, pc, v, 0);
    } else {
      var t;
      more, t := RunExtends([p, []], acts, AtRest(pc, v), Move(0));
      assert t == AtRest(pc + 1, StepView(st, v));
    }
  }

  lemma PutAtRest(p: seq<Step>, acts: seq<Action>, pc: nat, v: View) returns (more: seq<Action>)
    requires pc < |p| && IsRun([p, []], acts, AtRest(pc, v), false) && p[pc].Put?
    ensures IsRun([p, []], more, AtRest(pc + 1, StepView(p[pc], v)), false)
  {
    hide IsRun, FirstPass, SecondPass;
    var a1, s1 := RunExtends([p, []], acts, AtRest(pc, v), Move(0));
    var c := p[pc].cmd;
    assert [] + [c] == [c];
    assert s1 == State([Core(pc + 1, v.mem, |v.out|, false, 0), CORE0], [[c], []], Idle);
    var a6, s6 := Serve(p, a1, s1, [c]);
    assert [c][1..] == [] && StepView(p[pc], v) == View(Exec(c, v.mem), v.out + [c]);
    assert s6 == AtRest(pc + 1, StepView(p[pc], v));
    more := a6;
  }

  /** The server takes the oldest command, does both passes and notifies. */
  lemma Serve(p: seq<Step>, acts: seq<Action>, s: State, q: seq<Cmd>) returns (more: seq<Action>, t: State)
    requires IsRun([p, []], acts, s, false) && Shape([p, []], s)
    requires s.service.Idle? && q != [] && s.queues == [q, []] && !s.cores[0].event
    ensures IsRun([p, []], more, t, false) && Shape([p, []], t)
    ensures t == State([s.cores[0].(mem := Exec(q[0], s.cores[0].mem), sem := s.cores[0].sem + 1), s.cores[1]],
            [q[1..], []], Idle)
  {
    hide IsRun, FirstPass, SecondPass;
    var a1, s1 := RunExtends([p, []], acts, s, Take);
    assert s1 == s.(queues := [q[1..], []], service := Got(0, q[0]));
    var a2, s2 := RunExtends([p, []], a1, s1, Pass1);
    var a3, s3 := RunExtends([p, []], a2, s2, Pass2);
    var a4, s4 := RunExtends([p, []], a3, s3, Notify);
    more, t := RunExtends([p, []], a4, s4, Callback(0));
  }

  lemma {:induction false} DrainAtRest(p: seq<Step>, acts: seq<Action>, pc: nat, v: View, drained: nat)
    returns (more: seq<Action>)
    requires pc < |p| && p[pc].Drain? && drained <= |v.out|
    requires IsRun([p, []], acts, State([Core(pc, v.mem, |v.out| - drained, false, drained), CORE0], [[], []], Idle),
             false)
    ensures IsRun([p, []], more, AtRest(pc + 1, View(v.mem, [])), false)
    decreases |v.out| - drained
  {
    hide IsRun;
    var s := State([Core(pc, v.mem, |v.out| - drained, false, drained), CORE0], [[], []], Idle);
    var t;
    more, t := RunExtends([p, []], acts, s, Move(0));
    if drained < |v.out| {
      assert t == State([Core(pc, v.mem, |v.out| - (drained + 1), false, drained + 1), CORE0], [[], []], Idle);
      more := DrainAtRest(p, more, pc, v, drained + 1);
    } else {
      assert t == AtRest(pc + 1, View(v.mem, []));
    }
  }

  /** Any point of a disciplined script can be reached with nothing on its way. */
  lemma {:induction false} Reach(p: seq<Step>, pc: nat) returns (acts: seq<Action>)
    requires pc <= |p| && Disciplined(START, p)
    ensures IsRun([p, []], acts, AtRest(pc, After(START, p, pc)), false)
  {
    hide IsRun;
    if pc == 0 {
      acts := [];
      AtTheStart(p);
    } else {
      acts := Reach(p, pc - 1);
      assert OkAt(START, p, pc - 1);
      acts := StepAtRest(p, acts, pc - 1, After(START, p, pc - 1));
    }
  }

  lemma AtTheStart(p: seq<Step>)
    ensures IsRun([p, []], [], AtRest(0, START), false)
  {
  }

  // ----- Two sequences, one channel -----

  const LAST_BLEND := Compute(Chan(Tmpl, 0), Blend(true), [Chan(Tmpl, 0), Chan(Feat, 0)])

  const SQUARE := Compute(Cell(Sum), AddSquare, [Cell(Sum), Chan(TmplDft, 0)])

  /** The end of one init with a single channel. */
  function InitEnd(): seq<Step> {
    [LAST_BLEND, Put(ChannelCmd(Tmpl, TmplDft, TmplCmd, 0)), Release(Records(TrainCmd)), Release(Buffers(Feat))]
  }

  /** The start of the next, up to its first multiplication. */
  function InitBegin(): seq<Step> {
    [Compute(Cell(Roi), GivenRoi(1), []), Compute(Chan(Feat, 0), Features(1, 0, 0), [Cell(Roi)]), Drain,
     Put(ChannelCmd(Feat, TmplDft, AutoCmd, 0)), EnergyStep(1, TmplSum, Feat), Compute(Cell(Sum), Zero, []), Pend,
         SQUARE]
  }

  const CALLS := [Init(0), Init(1)]

  lemma TrainEnds() returns (h: seq<Step>)
    ensures TrainScript(Standalone, 1, true) == h + InitEnd()[..3]
  {
    hide AutoScript;
    assert BlendAll(1, true) == BlendAll(0, true) + [LAST_BLEND] == [LAST_BLEND];
    assert PutAll(1, Tmpl, TmplDft, TmplCmd) == PutAll(0, Tmpl, TmplDft, TmplCmd) + [InitEnd()[1]] == [InitEnd()[1]];
    var l := [Compute(Cell(NewAlpha), Divide, [Cell(Prob), Cell(Kernel)])] + [Release(Single(Kernel))]
             + [Compute(Cell(Alpha), Blend(true), [Cell(Alpha), Cell(NewAlpha)])] + [Release(Single(NewAlpha))];
    assert Learn(1, true) == l + [LAST_BLEND];
    var a := AutoScript(Standalone, 1) + PutAndWait(R2R, Kernel, Kernel, TrainCmd);
    h := a + l;
    assert a + Learn(1, true) == h + [LAST_BLEND];
    assert InitEnd()[..3] == [LAST_BLEND] + [InitEnd()[1]] + [Release(Records(TrainCmd))];
  }

  lemma InitEnds() returns (h: seq<Step>)
    ensures Program(Standalone, 1, [Init(0)]) == h + InitEnd()
  {
    hide TrainScript, GaussianScript, Extract;
    var t := TrainEnds();
    var i := [Compute(Cell(Roi), GivenRoi(0), [])] + Extract(1, 0, 0) + MaybeDrain(Standalone);
    assert InitEnd() == InitEnd()[..3] + [Release(Buffers(Feat))];
    assert InitScript(Standalone, 1, 0) == i + t + InitEnd();
    OneCall(Standalone, 1, Init(0));
    h := GaussianScript() + (i + t);
  }

  lemma AutoBegins()
    ensures Prefix(InitBegin()[3..], AutoScript(Standalone, 1))
  {
    hide KernelTail;
    assert PutAll(1, Feat, TmplDft, AutoCmd) == PutAll(0, Feat, TmplDft, AutoCmd) + [InitBegin()[3]] ==
           [InitBegin()[3]];
    assert AddSquares(1) == AddSquares(0) + [Pend] + [SQUARE] == [Pend] + [SQUARE];
    var a := MaybeZero(false) + PutAll(1, Feat, TmplDft, AutoCmd) + [EnergyStep(1, TmplSum, Feat)] + MaybeZero(true) +
             AddSquares(1);
    assert a == InitBegin()[3..];
    PrefixSelf(a);
    PrefixRight(a, a, KernelTail(AutoCmd, ExpAuto, [Cell(Kernel), Cell(TmplSum)]));
  }

  lemma InitBegins()
    ensures Prefix(InitBegin(), InitScript(Standalone, 1, 1))
  {
    hide AutoScript, KernelTail, Learn, QueueTemplate;
    AutoBegins();
    var b := InitBegin()[3..];
    PrefixRight(b, AutoScript(Standalone, 1), PutAndWait(R2R, Kernel, Kernel, TrainCmd));
    PrefixRight(b, AutoScript(Standalone, 1) + PutAndWait(R2R, Kernel, Kernel, TrainCmd), Learn(1, true));
    PrefixRight(b, AutoScript(Standalone, 1) + PutAndWait(R2R, Kernel, Kernel, TrainCmd) + Learn(1, true),
                QueueTemplate(Standalone, 1));
    PrefixRight(b, AutoScript(Standalone, 1) + PutAndWait(R2R, Kernel, Kernel, TrainCmd) + Learn(1, true)
                   + QueueTemplate(Standalone, 1), [Release(Records(TrainCmd))]);
    TrainThenInit(b);
  }

  lemma TrainThenInit(b: seq<Step>)
    requires b == InitBegin()[3..] && Prefix(b, TrainScript(Standalone, 1, true))
    ensures Prefix(InitBegin(), InitScript(Standalone, 1, 1))
  {
    hide TrainScript;
    assert Extract(1, 1, 0) == Extract(0, 1, 0) + [InitBegin()[1]] == [InitBegin()[1]];
    var i := [Compute(Cell(Roi), GivenRoi(1), [])] + Extract(1, 1, 0) + MaybeDrain(Standalone);
    assert i == InitBegin()[..3];
    PrefixLeft(i, b, TrainScript(Standalone, 1, true));
    assert i + b == InitBegin();
    PrefixRight(i + b, i + TrainScript(Standalone, 1, true), [Release(Buffers(Feat))]);
  }

  lemma Splits() returns (h: seq<Step>)
    ensures Program(Standalone, 1, [Init(0)]) == h + InitEnd()
    ensures Prefix(h + InitEnd() + InitBegin(), Program(Standalone, 1, CALLS))
  {
    hide InitScript, GaussianScript;
    h := InitEnds();
    InitBegins();
    assert CALLS[..1] == [Init(0)];
    PrefixLeft(h + InitEnd(), InitBegin(), InitScript(Standalone, 1, 1));
  }

  /** The twelve steps around the second init, from place h on. */
  ghost predicate CriticalAt(p: seq<Step>, h: nat) {
    && h + 12 <= |p| && p[h] == LAST_BLEND
    && p[h + 1] == Put(ChannelCmd(Tmpl, TmplDft, TmplCmd, 0))
    && p[h + 2].Release? && p[h + 3].Release?
    && p[h + 4] == Compute(Cell(Roi), GivenRoi(1), [])
    && p[h + 5] == Compute(Chan(Feat, 0), Features(1, 0, 0), [Cell(Roi)])
    && p[h + 6] == Drain
    && p[h + 7] == Put(ChannelCmd(Feat, TmplDft, AutoCmd, 0))
    && p[h + 8] == EnergyStep(1, TmplSum, Feat)
    && p[h + 9] == Compute(Cell(Sum), Zero, []) && p[h + 10] == Pend && p[h + 11] == SQUARE
  }

  lemma FindsCritical() returns (h: nat)
    ensures var p := Program(Standalone, 1, CALLS);
      CriticalAt(p, h) && Disciplined(START, p) && After(START, p, h).out == []
  {
    hide Program, Disciplined;
    var p, p1 := Program(Standalone, 1, CALLS), Program(Standalone, 1, [Init(0)]);
    DisciplinedExactly(Standalone, 1, CALLS);
    var a := Splits();
    h := |a|;
    var c := a + InitEnd() + InitBegin();
    forall k: nat | k < 12
      ensures p[h + k] == (InitEnd() + InitBegin())[k]
    {
      assert c[h + k] == (InitEnd() + InitBegin())[k];
      assert p[h + k] == p[..|c|][h + k];
    }
    assert CriticalAt(p, h);
    var w := WalkProgram(Standalone, 1, [Init(0)]);
    WalkEnd(1, START, p1, w);
    var rest := p[|p1|..];
    assert p[..|p1|] == p[..|c|][..|p1|] == p1;
    assert p == p1 + rest;
    AfterPrefix(START, p1, rest, |p1|);
    OutBefore(p, h);
  }

  /** With one command out after the end of an init there was none before it. */
  lemma OutBefore(p: seq<Step>, h: nat)
    requires CriticalAt(p, h) && |After(START, p, h + 4).out| == 1
    ensures After(START, p, h).out == []
  {
    assert After(START, p, h + 4) == StepView(p[h + 3], After(START, p, h + 3));
    assert After(START, p, h + 3) == StepView(p[h + 2], After(START, p, h + 2));
    assert After(START, p, h + 2) == StepView(p[h + 1], After(START, p, h + 1));
    assert After(START, p, h + 1) == StepView(p[h], After(START, p, h));
  }

  /** What the second init is to multiply with. */
  lemma Sequential(p: seq<Step>, h: nat)
    requires CriticalAt(p, h)
    ensures exists v ::
            At(After(START, p, h + 11).mem, Chan(TmplDft, 0)) == Transform(R2C, Computed(Features(1, 0, 0), v))
  {
    var v5 := After(START, p, h + 5);
    assert After(START, p, h + 6) == StepView(p[h + 5], v5);
    assert After(START, p, h + 7) == StepView(p[h + 6], After(START, p, h + 6));
    assert After(START, p, h + 8) == StepView(p[h + 7], After(START, p, h + 7));
    assert After(START, p, h + 9) == StepView(p[h + 8], After(START, p, h + 8));
    assert After(START, p, h + 10) == StepView(p[h + 9], After(START, p, h + 9));
    assert After(START, p, h + 11) == StepView(p[h + 10], After(START, p, h + 10));
    assert At(After(START, p, h + 11).mem, Chan(TmplDft, 0))
        == Transform(R2C, Computed(Features(1, 0, 0), AllAt(v5.mem, [Cell(Roi)])));
  }

  /** A core on its own, the server asleep with a queue. */
  function Asleep(c: Core, q: seq<Cmd>): State {
    State([c, CORE0], [q, []], Idle)
  }

  lemma MoveAlone(p: seq<Step>, acts: seq<Action>, c: Core, q: seq<Cmd>) returns (more: seq<Action>)
    requires c.pc < |p| && !p[c.pc].Pend? && IsRun([p, []], acts, Asleep(c, q), false)
    ensures IsRun([p, []], more, Asleep(MoveCore(c, p[c.pc]), StepQueue(q, p[c.pc])), false)
  {
    hide IsRun, MoveCore;
    var t;
    more, t := RunExtends([p, []], acts, Asleep(c, q), Move(0));
    assert t == Asleep(MoveCore(c, p[c.pc]), StepQueue(q, p[c.pc]));
  }

  function StepQueue(q: seq<Cmd>, st: Step): seq<Cmd> {
    if st.Put? then q + [st.cmd] else q
  }

  /** The tracker alone, from the end of one training into the next, while the server sleeps. */
  lemma Hurries(p: seq<Step>, h: nat, acts: seq<Action>, m: Memory) returns (more: seq<Action>, w: Memory)
    requires CriticalAt(p, h) && IsRun([p, []], acts, Asleep(Core(h, m, 0, false, 0), []), false)
    ensures IsRun([p, []], more, Asleep(Core(h + 8, w, 0, false, 0), [p[h + 1].cmd, p[h + 7].cmd]), false)
    ensures exists args :: At(w, Chan(Tmpl, 0)) == Computed(Blend(true), args)
  {
    hide IsRun, Asleep;
    var old1, new1 := p[h + 1].cmd, p[h + 7].cmd;
    more := MoveAlone(p, acts, Core(h, m, 0, false, 0), []);
    var m1 := StepMem(p[h], m);
    more := MoveAlone(p, more, Core(h + 1, m1, 0, false, 0), []);
    assert [] + [old1] == [old1];
    more := MoveAlone(p, more, Core(h + 2, m1, 0, false, 0), [old1]);
    more := MoveAlone(p, more, Core(h + 3, m1, 0, false, 0), [old1]);
    more := MoveAlone(p, more, Core(h + 4, m1, 0, false, 0), [old1]);
    var m5 := StepMem(p[h + 4], m1);
    more := MoveAlone(p, more, Core(h + 5, m5, 0, false, 0), [old1]);
    w := StepMem(p[h + 5], m5);
    more := MoveAlone(p, more, Core(h + 6, w, 0, false, 0), [old1]);
    more := MoveAlone(p, more, Core(h + 7, w, 0, false, 0), [old1]);
    assert [old1] + [new1] == [old1, new1];
    assert At(w, Chan(Tmpl, 0)) == Computed(Blend(true), AllAt(m, LAST_BLEND.args));
  }

  /** The completion of the old command lets the new training go on. */
  lemma TakesTheWrongOne(p: seq<Step>, h: nat, acts: seq<Action>, s: State) returns (more: seq<Action>, t: State)
    requires CriticalAt(p, h) && IsRun([p, []], acts, s, false) && Shape([p, []], s)
    requires s.queues == [[p[h + 1].cmd, p[h + 7].cmd], []] && s.service.Idle?
    requires s.cores[0] == Core(h + 8, s.cores[0].mem, 0, false, 0)
    ensures IsRun([p, []], more, t, false) && Shape([p, []], t) && t.cores[0].pc == h + 11
    ensures At(t.cores[0].mem, Chan(TmplDft, 0)) == Transform(R2C, At(s.cores[0].mem, Chan(Tmpl, 0)))
  {
    hide IsRun;
    var a1, s1 := Serve(p, acts, s, s.queues[0]);
    assert At(s1.cores[0].mem, Chan(TmplDft, 0)) == Transform(R2C, At(s.cores[0].mem, Chan(Tmpl, 0)));
    var a2, s2 := RunExtends([p, []], a1, s1, Move(0));
    var a3, s3 := RunExtends([p, []], a2, s2, Move(0));
    more, t := RunExtends([p, []], a3, s3, Move(0));
  }

  /** A run of two sequences in which the drain ends while the server still has a command: the
      second training then multiplies with the transform of the old template instead of the
      transform of the new features. */
  lemma WrongTransform() returns (acts: seq<Action>, s: State)
    ensures var p := Program(Standalone, 1, CALLS);
      && IsRun([p, []], acts, s, false) && Shape([p, []], s)
      && s.cores[0].pc < |p| && p[s.cores[0].pc] == SQUARE
      && At(s.cores[0].mem, Chan(TmplDft, 0)) != At(After(START, p, s.cores[0].pc).mem, Chan(TmplDft, 0))
  {
    hide IsRun, Program;
    var p := Program(Standalone, 1, CALLS);
    var h := FindsCritical();
    var a0 := Reach(p, h);
    var a1, m := Hurries(p, h, a0, After(START, p, h).mem);
    acts, s := TakesTheWrongOne(p, h, a1, Asleep(Core(h + 8, m, 0, false, 0), [p[h + 1].cmd, p[h + 7].cmd]));
    Sequential(p, h);
  }
}
