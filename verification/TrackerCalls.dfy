/** What the callers of a tracker owe, and what happens if they do not pay.

    A stand-alone tracker is to be initialised before it is updated, or it waits for ever; and
    nothing of it is to be at the server when it is initialised again, or its drain may miss
    completions that are still to come. */
module TrackerCalls {
  import opened FftService
  import opened ServiceCalls
  import opened Trackers

  // ----- Where the drains are -----

  /** The places of a program at which an init is called. */
  ghost function InitCalls(n: nat, calls: seq<Call>): set<nat> {
    set j | 0 <= j < |calls| && calls[j].Init? :: |Program(Standalone, n, calls[..j])|
  }

  lemma NoDrainBoth(a: seq<Step>, b: seq<Step>)
    requires NoDrain(a) && NoDrain(b)
    ensures NoDrain(a + b)
  {
  }

  lemma {:induction false} PutAllNoDrain(n: nat, src: Bank, dst: Bank, site: Site)
    ensures NoDrain(PutAll(n, src, dst, site))
  {
    if n > 0 {
      PutAllNoDrain(n - 1, src, dst, site);
    }
  }

  lemma {:induction false} PendsNoDrain(n: nat)
    ensures NoDrain(Pends(n)) && NoDrain(AddSquares(n)) && NoDrain(AddProducts(n))
  {
    if n > 0 {
      PendsNoDrain(n - 1);
    }
  }

  lemma {:induction false} BlendNoDrain(n: nat, first: bool)
    ensures NoDrain(BlendAll(n, first))
  {
    if n > 0 {
      BlendNoDrain(n - 1, first);
    }
  }

  predicate OnlyComputes(a: seq<Step>) {
    forall k: nat :: k < |a| ==> a[k].Compute?
  }

  lemma {:induction false} ExtractComputes(n: nat, frame: nat, scale: nat)
    ensures OnlyComputes(Extract(n, frame, scale)) && |Extract(n, frame, scale)| == n
  {
    if n > 0 {
      ExtractComputes(n - 1, frame, scale);
    }
  }

  lemma ExtractNoDrain(n: nat, frame: nat, scale: nat)
    ensures NoDrain(Extract(n, frame, scale))
  {
    ExtractComputes(n, frame, scale);
  }

  lemma TailNoDrain(site: Site, kind: Kind, args: seq<Buffer>)
    ensures NoDrain(KernelTail(site, kind, args))
  {
  }

  lemma AutoNoDrain(v: Variant, n: nat)
    ensures NoDrain(AutoScript(v, n))
  {
    hide PutAll, AddSquares, KernelTail;
    PutAllNoDrain(n, Feat, TmplDft, AutoCmd);
    PendsNoDrain(n);
    TailNoDrain(AutoCmd, ExpAuto, [Cell(Kernel), Cell(TmplSum)]);
    var a := MaybeZero(v.MultiCore?) + PutAll(n, Feat, TmplDft, AutoCmd) + [EnergyStep(n, TmplSum, Feat)] +
             MaybeZero(v.Standalone?);
    NoDrainBoth(a, AddSquares(n));
    NoDrainBoth(a + AddSquares(n), KernelTail(AutoCmd, ExpAuto, [Cell(Kernel), Cell(TmplSum)]));
  }

  lemma WaitNoDrain(v: Variant, n: nat, updated: bool)
    ensures NoDrain(WaitTemplate(v, n, updated))
  {
    hide Pends;
    PendsNoDrain(n);
  }

  lemma CrossNoDrain(v: Variant, n: nat, updated: bool)
    ensures NoDrain(CrossScript(v, n, updated))
  {
    hide PutAll, AddProducts, KernelTail, WaitTemplate;
    PutAllNoDrain(n, Feat, FeatHat, CrossCmd);
    PendsNoDrain(n);
    WaitNoDrain(v, n, updated);
    var t := KernelTail(CrossCmd, ExpCross, [Cell(Kernel), Cell(TmplSum), Cell(FeatSum)]);
    TailNoDrain(CrossCmd, ExpCross, [Cell(Kernel), Cell(TmplSum), Cell(FeatSum)]);
    var a := MaybeZero(v.MultiCore?) + PutAll(n, Feat, FeatHat, CrossCmd);
    NoDrainBoth(a, WaitTemplate(v, n, updated));
    a := a + WaitTemplate(v, n, updated);
    NoDrainBoth(a, MaybeZero(v.Standalone?));
    a := a + MaybeZero(v.Standalone?);
    NoDrainBoth(a, AddProducts(n));
    a := a + AddProducts(n);
    NoDrainBoth(a, [Release(Buffers(FeatHat))]);
    NoDrainBoth(a + [Release(Buffers(FeatHat))], t);
  }

  lemma LearnNoDrain(n: nat, first: bool)
    ensures NoDrain(Learn(n, first))
  {
    hide BlendAll;
    BlendNoDrain(n, first);
  }

  lemma TrainNoDrain(v: Variant, n: nat, first: bool)
    ensures NoDrain(TrainScript(v, n, first))
  {
    hide AutoScript, Learn, PutAll;
    AutoNoDrain(v, n);
    LearnNoDrain(n, first);
    PutAllNoDrain(n, Tmpl, TmplDft, TmplCmd);
    var a := AutoScript(v, n) + PutAndWait(R2R, Kernel, Kernel, TrainCmd);
    NoDrainBoth(AutoScript(v, n), PutAndWait(R2R, Kernel, Kernel, TrainCmd));
    NoDrainBoth(a, Learn(n, first));
    NoDrainBoth(a + Learn(n, first), QueueTemplate(v, n));
  }

  lemma LookNoDrain(v: Variant, n: nat, frame: nat, updated: bool, scale: nat)
    ensures NoDrain(LookScript(v, n, frame, updated, scale))
  {
    hide Extract, CrossScript;
    ExtractNoDrain(n, frame, scale);
    CrossNoDrain(v, n, updated);
    NoDrainBoth(CrossScript(v, n, updated), AfterCross(scale));
    NoDrainBoth(Extract(n, frame, scale), DetectScript(v, n, updated, scale));
  }

  lemma UpdateNoDrain(v: Variant, n: nat, frame: nat)
    ensures NoDrain(UpdateScript(v, n, frame))
  {
    hide LookScript, Extract, TrainScript, PutAll;
    LookNoDrain(v, n, frame, false, 0);
    LookNoDrain(v, n, frame, true, 1);
    LookNoDrain(v, n, frame, true, 2);
    PutAllNoDrain(n, Tmpl, TmplDft, TmplCmd);
    ExtractNoDrain(n, frame, 3);
    TrainNoDrain(v, n, false);
    var a := DetectionScript(v, n, frame) + [Compute(Cell(Roi), Locate, [Cell(Roi), Cell(Best)])];
    NoDrainBoth(a, Extract(n, frame, 3));
    NoDrainBoth(a + Extract(n, frame, 3), TrainScript(v, n, false));
  }

  lemma InitNoDrain(n: nat, frame: nat)
    ensures NoDrain(InitScript(MultiCore, n, frame))
  {
    hide Extract, TrainScript;
    ExtractNoDrain(n, frame, 0);
    TrainNoDrain(MultiCore, n, true);
    var a := [Compute(Cell(Roi), GivenRoi(frame), [])] + Extract(n, frame, 0) + MaybeDrain(MultiCore);
    NoDrainBoth(a, TrainScript(MultiCore, n, true));
  }

  /** The multi-core tracker never drains. */
  lemma {:induction false} ProgramNoDrain(n: nat, calls: seq<Call>)
    ensures NoDrain(Program(MultiCore, n, calls))
    decreases |calls|
  {
    hide InitScript, UpdateScript;
    if calls != [] {
      var before, call := calls[..|calls| - 1], calls[|calls| - 1];
      ProgramNoDrain(n, before);
      InitNoDrain(n, call.frame);
      UpdateNoDrain(MultiCore, n, call.frame);
      NoDrainBoth(Program(MultiCore, n, before), CallScript(MultiCore, n, call));
    }
  }

  /** An init of the stand-alone tracker has one drain, and only computes up to there. */
  lemma InitGuards(n: nat, frame: nat, k: nat)
    requires k < |InitScript(Standalone, n, frame)| && InitScript(Standalone, n, frame)[k].Drain?
    ensures Guards(InitScript(Standalone, n, frame), 0, k)
  {
    hide Extract, TrainScript;
    ExtractComputes(n, frame, 0);
    TrainNoDrain(Standalone, n, true);
    var a := [Compute(Cell(Roi), GivenRoi(frame), [])] + Extract(n, frame, 0);
    var b := TrainScript(Standalone, n, true) + [Release(Buffers(Feat))];
    NoDrainBoth(TrainScript(Standalone, n, true), [Release(Buffers(Feat))]);
    assert InitScript(Standalone, n, frame) == a + [Drain] + b;
  }

  lemma GuardsShift(a: seq<Step>, b: seq<Step>, e: nat, k: nat)
    requires Guards(b, e, k)
    ensures Guards(a + b, |a| + e, |a| + k)
  {
    forall x: nat | |a| + e <= x < |a| + k
      ensures (a + b)[x].Compute?
    {
      assert (a + b)[x] == b[x - |a|];
    }
  }

  lemma GuardsPrefix(a: seq<Step>, b: seq<Step>, e: nat, k: nat)
    requires Guards(a, e, k)
    ensures Guards(a + b, e, k)
  {
  }

  lemma {:induction false} DrainGuarded(n: nat, calls: seq<Call>, k: nat)
    requires k < |Program(Standalone, n, calls)| && Program(Standalone, n, calls)[k].Drain?
    ensures GuardedAt(Program(Standalone, n, calls), InitCalls(n, calls), k)
    decreases |calls|
  {
    hide InitScript, UpdateScript;
    if calls != [] {
      var m := |calls| - 1;
      var before, call := calls[..m], calls[m];
      var a, b := Program(Standalone, n, before), CallScript(Standalone, n, call);
      if k < |a| {
        DrainGuarded(n, before, k);
        var e: nat :| e in InitCalls(n, before) && Guards(a, e, k);
        GuardsPrefix(a, b, e, k);
        MoreInits(n, calls, e);
      } else {
        UpdateNoDrain(Standalone, n, call.frame);
        assert b[k - |a|].Drain?;
        InitGuards(n, call.frame, k - |a|);
        GuardsShift(a, b, 0, k - |a|);
        assert |a| in InitCalls(n, calls);
      }
    }
  }

  lemma MoreInits(n: nat, calls: seq<Call>, e: nat)
    requires calls != [] && e in InitCalls(n, calls[..|calls| - 1])
    ensures e in InitCalls(n, calls)
  {
    hide Program;
    var before := calls[..|calls| - 1];
    var j :| 0 <= j < |before| && before[j].Init? && e == |Program(Standalone, n, before[..j])|;
    assert before[..j] == calls[..j];
  }

  lemma ProgramGuarded(n: nat, calls: seq<Call>)
    ensures AllGuarded([Program(Standalone, n, calls), []], [InitCalls(n, calls), {}])
  {
    hide Program, InitCalls, GuardedAt;
    var scripts: seq<seq<Step>>, entries: seq<set<nat>> := [Program(Standalone, n, calls), []],
        [InitCalls(n, calls), {}];
    forall i: Index, k: nat | k < |scripts[i]| && scripts[i][k].Drain?
      ensures GuardedAt(scripts[i], entries[i], k)
    {
      DrainGuarded(n, calls, k);
    }
  }

  // ----- The template, under a condition at the calls -----

  /** The stand-alone tracker's template transform and energies are those of the current
      template in every run in which nothing of it is at the server whenever init is called. */
  lemma TrueIfQuietAtInit(n: nat, calls: seq<Call>, acts: seq<Action>, s: State)
    requires WellCalled(Standalone, n, calls)
    requires IsQuietRun([Program(Standalone, n, calls), []], [InitCalls(n, calls), {}], acts, s)
    requires |s.cores| == 2 && s.cores[0].pc < |Program(Standalone, n, calls)|
    requires Program(Standalone, n, calls)[s.cores[0].pc].Compute?
    ensures var st, m := Program(Standalone, n, calls)[s.cores[0].pc], s.cores[0].mem;
      && (st.kind.AddProduct? ==> exists ch: nat :: ch < n && st == ProductStep(ch)
                                    && IsDft(m, Tmpl, TmplDft, ch) && IsDft(m, Feat, FeatHat, ch))
      && (st.kind.ExpCross? ==> IsEnergy(m, n, TmplSum, Tmpl) && IsEnergy(m, n, FeatSum, Feat))
  {
    hide Program, IsDft, IsEnergy, AllGuarded, InitCalls, AllDisciplined, IsRun, IsQuietRun;
    var scripts := [Program(Standalone, n, calls), []];
    ProgramGuarded(n, calls);
    QuietRunIsCalm(scripts, [InitCalls(n, calls), {}], acts, s);
    OneTracker(n, calls);
    TemplateIsTrue(Standalone, n, calls, scripts, acts, s, 0);
  }

  /** Two multi-core trackers need no such condition: every run of theirs is calm. */
  lemma TwoTrackersAreCalm(n0: nat, calls0: seq<Call>, n1: nat, calls1: seq<Call>, acts: seq<Action>, s: State)
    requires IsRun([Program(MultiCore, n0, calls0), Program(MultiCore, n1, calls1)], acts, s, false)
    ensures IsRun([Program(MultiCore, n0, calls0), Program(MultiCore, n1, calls1)], acts, s, true)
  {
    hide Program, IsRun, NoDrain;
    ProgramNoDrain(n0, calls0);
    ProgramNoDrain(n1, calls1);
    RunIsCalm([Program(MultiCore, n0, calls0), Program(MultiCore, n1, calls1)], acts, s);
  }

  // ----- An update before any init -----

  /** What a stand-alone tracker does when it is updated first, up to the wait. */
  function BeforeTheWait(n: nat, frame: nat): seq<Step> {
    GaussianScript() + (Extract(n, frame, 0) + UpToTheWait(n))
  }

  lemma BeforeNoDrain(n: nat, frame: nat)
    ensures NoDrain(BeforeTheWait(n, frame))
  {
    hide Extract, PutAll, WaitTemplate;
    ExtractNoDrain(n, frame, 0);
    PutAllNoDrain(n, Feat, FeatHat, CrossCmd);
    WaitNoDrain(Standalone, n, false);
    var a := MaybeZero(false) + PutAll(n, Feat, FeatHat, CrossCmd);
    NoDrainBoth(a, WaitTemplate(Standalone, n, false));
    NoDrainBoth(a + WaitTemplate(Standalone, n, false), MaybeZero(true));
    NoDrainBoth(Extract(n, frame, 0), UpToTheWait(n));
    NoDrainBoth(GaussianScript(), Extract(n, frame, 0) + UpToTheWait(n));
  }

  lemma UpdateWaits(n: nat, calls: seq<Call>)
    requires n > 0 && calls != [] && calls[0].Update?
    ensures EndlessWait(Program(Standalone, n, calls), BeforeTheWait(n, calls[0].frame))
  {
    hide Walk, Program, Disciplined, NoDrain, After, Prefix, Extract, UpToTheWait, GaussianScript;
    var frame := calls[0].frame;
    var a, p := BeforeTheWait(n, frame), Program(Standalone, n, calls);
    var w := WalkToTheWait(n, frame);
    WalkIsDisciplined(n, a, w);
    WalkEnd(n, START, a, w);
    BeforeNoDrain(n, frame);
    FirstUpdate(n, calls);
    BeginsAndWaits(a, p);
  }

  lemma BeginsAndWaits(a: seq<Step>, p: seq<Step>)
    requires Prefix(a + [Pend], p)
    ensures |a| < |p| && p[..|a|] == a && p[|a|].Pend?
  {
    assert p[..|a| + 1] == a + [Pend];
    assert p[|a|] == p[..|a| + 1][|a|];
    assert p[..|a|] == p[..|a| + 1][..|a|] == a;
  }

  /** Updated before it is initialised, a stand-alone tracker with channels never gets past its
      first wait for a product, in any run; and every run that cannot be extended ends there. */
  lemma UpdateFirstWaits(n: nat, calls: seq<Call>, acts: seq<Action>, s: State)
    requires n > 0 && calls != [] && calls[0].Update?
    requires IsRun([Program(Standalone, n, calls), []], acts, s, false)
    ensures var p, k := Program(Standalone, n, calls), |BeforeTheWait(n, calls[0].frame)|;
      && k < |p| && p[k].Pend? && Shape([p, []], s) && s.cores[0].pc <= k
      && ((forall a :: !Enabled([p, []], s, a)) ==> s.cores[0].pc == k)
  {
    hide Program, Disciplined, NoDrain, IsRun, After, Enabled, BeforeTheWait;
    var p, a := Program(Standalone, n, calls), BeforeTheWait(n, calls[0].frame);
    UpdateWaits(n, calls);
    Nobody();
    NeverPast(p, a, [], acts, s);
    StopsIn(p, a, s);
    if forall act :: !Enabled([p, []], s, act) {
      EndsWaiting(p, a, [], acts, s);
    }
  }

  lemma Nobody()
    ensures Disciplined(START, []) && NoDrain([])
  {
  }

  lemma StopsIn(p: seq<Step>, a: seq<Step>, s: State)
    requires Shape([a, []], s) && |a| < |p|
    ensures Shape([p, []], s) && s.cores[0].pc <= |a|
  {
    assert s.cores[0].pc <= |[a, []][0]| && s.cores[1].pc <= |[a, []][1]|;
  }
}
