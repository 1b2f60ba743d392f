/** The trackers as clients of the FFT service.

    The multi-core tracker queues the transforms of its template at the start of an update;
    the stand-alone one at the end of a training, and remembers in a flag whether it has
    waited for them.  Both count completions by hand.  What is proved here is that their
    scripts keep the discipline the service asks for, and that the template transform and
    energy are those of the current template wherever they are used. */
module Trackers {
  import opened FftService

  datatype Variant = MultiCore | Standalone

  // ----- The scripts -----

  function PutAll(n: nat, src: Bank, dst: Bank, site: Site): seq<Step> {
    if n == 0 then [] else PutAll(n - 1, src, dst, site) + [Put(ChannelCmd(src, dst, site, n - 1))]
  }

  function ChannelCmd(src: Bank, dst: Bank, site: Site, i: nat): Cmd {
    Cmd(R2C, Chan(src, i), Chan(dst, i), Record(site, i))
  }

  function Channels(n: nat, bank: Bank): (bs: seq<Buffer>)
    ensures |bs| == n && forall i :: 0 <= i < n ==> bs[i] == Chan(bank, i)
  {
    seq(n, i requires 0 <= i < n => Chan(bank, i))
  }

  function Pends(n: nat): seq<Step> {
    if n == 0 then [] else Pends(n - 1) + [Pend]
  }

  function AddSquares(n: nat): seq<Step> {
    if n == 0 then [] else
      AddSquares(n - 1) + [Pend] + [Compute(Cell(Sum), AddSquare, [Cell(Sum), Chan(TmplDft, n - 1)])]
  }

  function AddProducts(n: nat): seq<Step> {
    if n == 0 then [] else AddProducts(n - 1) + [Pend] + [ProductStep(n - 1)]
  }

  function ProductStep(i: nat): Step {
    Compute(Cell(Sum), AddProduct, [Cell(Sum), Chan(TmplDft, i), Chan(FeatHat, i)])
  }

  function BlendAll(n: nat, first: bool): seq<Step> {
    if n == 0 then [] else
      BlendAll(n - 1, first) + [Compute(Chan(Tmpl, n - 1), Blend(first), [Chan(Tmpl, n - 1), Chan(Feat, n - 1)])]
  }

  function Extract(n: nat, frame: nat, scale: nat): seq<Step> {
    if n == 0 then [] else
      Extract(n - 1, frame, scale) + [Compute(Chan(Feat, n - 1), Features(frame, scale, n - 1), [Cell(Roi)])]
  }

  function MaybeZero(zero: bool): seq<Step> {
    if zero then [Compute(Cell(Sum), Zero, [])] else []
  }

  function EnergyStep(n: nat, dst: Name, bank: Bank): Step {
    Compute(Cell(dst), Energy, Channels(n, bank))
  }

  /** Put a command on single buffers and wait for it. */
  function PutAndWait(op: Op, src: Name, dst: Name, site: Site): seq<Step> {
    [Put(Cmd(op, Cell(src), Cell(dst), Record(site, 0)))] + [Pend]
  }

  function GaussianScript(): seq<Step> {
    [Compute(Cell(Prob), GaussianPeak, [])] + PutAndWait(R2R, Prob, Prob, PeakCmd) + [Release(Records(PeakCmd))]
  }

  /** The inverse transform of the sum, then the exponential. */
  function KernelTail(site: Site, kind: Kind, args: seq<Buffer>): seq<Step> {
    PutAndWait(C2R, Sum, Kernel, site) + [Release(Single(Sum))] + [Compute(Cell(Kernel), kind, args)]
    + [Release(Records(site))]
  }

  function AutoScript(v: Variant, n: nat): seq<Step> {
    MaybeZero(v.MultiCore?)
    + PutAll(n, Feat, TmplDft, AutoCmd)
    + [EnergyStep(n, TmplSum, Feat)]
    + MaybeZero(v.Standalone?)
    + AddSquares(n)
    + KernelTail(AutoCmd, ExpAuto, [Cell(Kernel), Cell(TmplSum)])
  }

  /** The part of a cross-correlation that waits for the template where it has to. */
  function WaitTemplate(v: Variant, n: nat, updated: bool): seq<Step> {
    if v.MultiCore? then [EnergyStep(n, TmplSum, Tmpl)] + [EnergyStep(n, FeatSum, Feat)] + Pends(n)
    else if updated then [EnergyStep(n, FeatSum, Feat)]
    else [EnergyStep(n, FeatSum, Feat)] + [EnergyStep(n, TmplSum, Tmpl)] + Pends(n)
  }

  function CrossScript(v: Variant, n: nat, updated: bool): seq<Step> {
    MaybeZero(v.MultiCore?)
    + PutAll(n, Feat, FeatHat, CrossCmd)
    + WaitTemplate(v, n, updated)
    + MaybeZero(v.Standalone?)
    + AddProducts(n)
    + [Release(Buffers(FeatHat))]
    + KernelTail(CrossCmd, ExpCross, [Cell(Kernel), Cell(TmplSum), Cell(FeatSum)])
  }

  function TrainScript(v: Variant, n: nat, first: bool): seq<Step> {
    AutoScript(v, n)
    + PutAndWait(R2R, Kernel, Kernel, TrainCmd)
    + Learn(n, first)
    + QueueTemplate(v, n)
    + [Release(Records(TrainCmd))]
  }

  /** The new coefficients, and the template moved towards the features. */
  function Learn(n: nat, first: bool): seq<Step> {
    [Compute(Cell(NewAlpha), Divide, [Cell(Prob), Cell(Kernel)])]
    + [Release(Single(Kernel))]
    + [Compute(Cell(Alpha), Blend(first), [Cell(Alpha), Cell(NewAlpha)])]
    + [Release(Single(NewAlpha))]
    + BlendAll(n, first)
  }

  /** The stand-alone tracker queues the new template at once. */
  function QueueTemplate(v: Variant, n: nat): seq<Step> {
    if v.Standalone? then PutAll(n, Tmpl, TmplDft, TmplCmd) else []
  }

  function DetectScript(v: Variant, n: nat, updated: bool, scale: nat): seq<Step> {
    CrossScript(v, n, updated) + AfterCross(scale)
  }

  function AfterCross(scale: nat): seq<Step> {
    PutAndWait(R2CN, Kernel, KernelHat, DetectCmd)
    + [Compute(Cell(KernelHat), Times, [Cell(KernelHat), Cell(Alpha)])]
    + PutAndWait(C2R, KernelHat, Kernel, DetectCmd)
    + [Release(Single(KernelHat))]
    + [Compute(Cell(Peak), FindPeak, [Cell(Kernel)])]
    + [Release(Single(Kernel))]
    + [Release(Records(DetectCmd))]
    + [Compute(Cell(Best), Choose(scale), ChooseArgs(scale))]
  }

  /** The first look at a frame is the best so far; the others are compared with it. */
  function ChooseArgs(scale: nat): seq<Buffer> {
    if scale == 0 then [Cell(Peak)] else [Cell(Best), Cell(Peak)]
  }

  /** The stand-alone tracker throws away the completions of the last sequence. */
  function MaybeDrain(v: Variant): seq<Step> {
    if v.Standalone? then [Drain] else []
  }

  function InitScript(v: Variant, n: nat, frame: nat): seq<Step> {
    [Compute(Cell(Roi), GivenRoi(frame), [])]
    + Extract(n, frame, 0)
    + MaybeDrain(v)
    + TrainScript(v, n, true)
    + [Release(Buffers(Feat))]
  }

  /** The stand-alone tracker looks at three scales; the flag is up from the first on. */
  function DetectionScript(v: Variant, n: nat, frame: nat): seq<Step> {
    if v.MultiCore? then
      PutAll(n, Tmpl, TmplDft, TmplCmd) + LookScript(v, n, frame, false, 0)
    else
      LookScript(v, n, frame, false, 0) + LookScript(v, n, frame, true, 1) + LookScript(v, n, frame, true, 2)
  }

  function LookScript(v: Variant, n: nat, frame: nat, updated: bool, scale: nat): seq<Step> {
    Extract(n, frame, scale) + DetectScript(v, n, updated, scale)
  }

  function UpdateScript(v: Variant, n: nat, frame: nat): seq<Step> {
    DetectionScript(v, n, frame)
    + [Compute(Cell(Roi), Locate, [Cell(Roi), Cell(Best)])]
    + Extract(n, frame, 3)
    + TrainScript(v, n, false)
    + [Release(Buffers(Feat))]
  }

  datatype Call = Init(frame: nat) | Update(frame: nat)

  function CallScript(v: Variant, n: nat, call: Call): seq<Step> {
    match call
    case Init(frame) => InitScript(v, n, frame)
    case Update(frame) => UpdateScript(v, n, frame)
  }

  /** createGaussianPeak, then any calls. */
  function Program(v: Variant, n: nat, calls: seq<Call>): seq<Step>
    decreases |calls|
  {
    if calls == [] then GaussianScript()
    else Program(v, n, calls[..|calls| - 1]) + CallScript(v, n, calls[|calls| - 1])
  }

  // ----- Walking through a script -----

  /** Where the template transform and the energies are used, they are those of the current
      template and the current features, and nothing on its way changes either. */
  ghost predicate Truth(n: nat, st: Step, v: View) {
    st.Compute? ==>
      && (st.kind.AddProduct? ==> exists i: nat :: i < n && st == ProductStep(i) && TrueProduct(v, i))
      && (st.kind.ExpCross? ==>
          && st.args == [Cell(Kernel), Cell(TmplSum), Cell(FeatSum)] && v.out == []
          && IsEnergy(v.mem, n, TmplSum, Tmpl) && IsEnergy(v.mem, n, FeatSum, Feat))
  }

  ghost predicate TrueProduct(v: View, i: nat) {
    && IsDft(v.mem, Tmpl, TmplDft, i) && IsDft(v.mem, Feat, FeatHat, i)
    && forall d :: d in v.out ==> !Writes(d, Chan(Tmpl, i)) && !Writes(d, Chan(Feat, i))
  }

  ghost predicate IsDft(m: Memory, a: Bank, b: Bank, i: nat) {
    At(m, Chan(b, i)) == Transform(R2C, At(m, Chan(a, i)))
  }

  ghost predicate AreDfts(m: Memory, n: nat, a: Bank, b: Bank) {
    forall i: nat :: i < n ==> IsDft(m, a, b, i)
  }

  ghost predicate IsEnergy(m: Memory, n: nat, name: Name, bank: Bank) {
    At(m, Cell(name)) == Computed(Energy, AllAt(m, Channels(n, bank)))
  }

  ghost predicate Good(n: nat, st: Step, v: View) {
    StepOk(st, v.out) && Truth(n, st, v)
  }

  ghost predicate GoodAt(n: nat, v: View, script: seq<Step>, pc: nat)
    requires pc < |script|
  {
    Good(n, script[pc], After(v, script, pc))
  }

  /** The script leads from v to w and every step of it is good. */
  ghost predicate Walk(n: nat, v: View, script: seq<Step>, w: View) {
    && w == After(v, script, |script|)
    && forall pc: nat :: pc < |script| ==> GoodAt(n, v, script, pc)
  }

  lemma {:induction false} AfterPrefix(v: View, a: seq<Step>, b: seq<Step>, pc: nat)
    requires pc <= |a|
    ensures After(v, a + b, pc) == After(v, a, pc)
  {
    if pc > 0 {
      AfterPrefix(v, a, b, pc - 1);
      assert (a + b)[pc - 1] == a[pc - 1];
    }
  }

  lemma {:induction false} AfterThen(v: View, a: seq<Step>, b: seq<Step>, k: nat)
    requires k <= |b|
    ensures After(v, a + b, |a| + k) == After(After(v, a, |a|), b, k)
  {
    if k == 0 {
      AfterPrefix(v, a, b, |a|);
    } else {
      AfterThen(v, a, b, k - 1);
      assert (a + b)[|a| + k - 1] == b[k - 1];
    }
  }

  lemma WalkThen(n: nat, v: View, a: seq<Step>, w: View, b: seq<Step>, x: View)
    requires Walk(n, v, a, w) && Walk(n, w, b, x)
    ensures Walk(n, v, a + b, x)
  {
    hide Good, After;
    AfterThen(v, a, b, |b|);
    forall pc: nat | pc < |a + b|
      ensures GoodAt(n, v, a + b, pc)
    {
      if pc < |a| {
        AfterPrefix(v, a, b, pc);
        assert GoodAt(n, v, a, pc);
      } else {
        AfterThen(v, a, b, pc - |a|);
        assert GoodAt(n, w, b, pc - |a|);
      }
    }
  }

  lemma WalkNothing(n: nat, v: View)
    ensures Walk(n, v, [], v)
  {
  }

  lemma WalkStep(n: nat, v: View, a: seq<Step>, w: View, st: Step) returns (x: View)
    requires Walk(n, v, a, w) && Good(n, st, w)
    ensures Walk(n, v, a + [st], x) && x == StepView(st, w)
  {
    x := StepView(st, w);
    assert After(w, [st], 0) == w;
    assert GoodAt(n, w, [st], 0);
    assert Walk(n, w, [st], x);
    WalkThen(n, v, a, w, [st], x);
  }

  /** What a walk keeps of the memory: everything outside some banks and cells. */
  datatype Area = InBank(bank: Bank) | InCell(name: Name)

  function AreaOf(b: Buffer): Area {
    match b
    case Chan(bank, _) => InBank(bank)
    case Cell(name) => InCell(name)
  }

  ghost predicate Frame(m: Memory, w: Memory, touched: set<Area>) {
    forall b {:trigger At(w, b)} :: AreaOf(b) !in touched ==> At(w, b) == At(m, b)
  }

  lemma FrameThen(m: Memory, u: Memory, w: Memory, touched: set<Area>)
    requires Frame(m, u, touched) && Frame(u, w, touched)
    ensures Frame(m, w, touched)
  {
    forall b {:trigger At(w, b)} | AreaOf(b) !in touched
      ensures At(w, b) == At(m, b)
    {
      assert At(u, b) == At(m, b);
    }
  }

  lemma FrameMore(m: Memory, w: Memory, some: set<Area>, touched: set<Area>)
    requires Frame(m, w, some) && some <= touched
    ensures Frame(m, w, touched)
  {
  }

  lemma ComputeFrame(m: Memory, st: Step)
    requires st.Compute?
    ensures Frame(m, StepMem(st, m), {AreaOf(st.dst)})
  {
  }

  lemma ExecFrame(c: Cmd, m: Memory)
    ensures Frame(m, Exec(c, m), {AreaOf(Middle(c)), AreaOf(c.dst)})
  {
  }

  lemma FrameDfts(m: Memory, w: Memory, touched: set<Area>, n: nat, a: Bank, b: Bank)
    requires Frame(m, w, touched) && InBank(a) !in touched && InBank(b) !in touched && AreDfts(m, n, a, b)
    ensures AreDfts(w, n, a, b)
  {
    forall i: nat | i < n
      ensures IsDft(w, a, b, i)
    {
      assert IsDft(m, a, b, i);
      assert At(w, Chan(a, i)) == At(m, Chan(a, i)) && At(w, Chan(b, i)) == At(m, Chan(b, i));
    }
  }

  lemma FrameEnergy(m: Memory, w: Memory, touched: set<Area>, n: nat, name: Name, bank: Bank)
    requires Frame(m, w, touched) && InCell(name) !in touched && InBank(bank) !in touched && IsEnergy(m, n, name, bank)
    ensures IsEnergy(w, n, name, bank)
  {
    assert At(w, Cell(name)) == At(m, Cell(name));
    var bs := Channels(n, bank);
    forall i | 0 <= i < n
      ensures AllAt(w, bs)[i] == AllAt(m, bs)[i]
    {
      assert At(w, bs[i]) == At(m, bs[i]);
    }
    assert AllAt(w, bs) == AllAt(m, bs);
  }

  // ----- The pieces -----

  /** The commands of a bank, oldest first. */
  function Cmds(n: nat, src: Bank, dst: Bank, site: Site): (cs: seq<Cmd>)
    ensures |cs| == n && forall i :: 0 <= i < n ==> cs[i] == ChannelCmd(src, dst, site, i)
  {
    seq(n, i requires 0 <= i < n => ChannelCmd(src, dst, site, i))
  }

  lemma {:induction false} WalkPutAll(n: nat, k: nat, v: View, src: Bank, dst: Bank, site: Site) returns (w: View)
    requires src != dst && forall d :: d in v.out ==> d.record.site != site
    ensures Walk(n, v, PutAll(k, src, dst, site), w)
    ensures w.out == v.out + Cmds(k, src, dst, site)
    ensures Frame(v.mem, w.mem, {InBank(dst)}) && AreDfts(w.mem, k, src, dst)
    ensures forall i: nat :: i >= k ==> At(w.mem, Chan(dst, i)) == At(v.mem, Chan(dst, i))
  {
    hide Walk;
    if k == 0 {
      w := v;
      WalkNothing(n, v);
      assert Cmds(0, src, dst, site) == [];
    } else {
      var u := WalkPutAll(n, k - 1, v, src, dst, site);
      var c := ChannelCmd(src, dst, site, k - 1);
      assert Good(n, Put(c), u);
      w := WalkStep(n, v, PutAll(k - 1, src, dst, site), u, Put(c));
      assert Cmds(k, src, dst, site) == Cmds(k - 1, src, dst, site) + [c];
      PutOneMore(k, v.mem, u.mem, w.mem, src, dst, site);
    }
  }

  /** One more channel of a bank is transformed. */
  lemma PutOneMore(k: nat, m: Memory, u: Memory, w: Memory, src: Bank, dst: Bank, site: Site)
    requires 0 < k && src != dst && w == Exec(ChannelCmd(src, dst, site, k - 1), u)
    requires Frame(m, u, {InBank(dst)}) && AreDfts(u, k - 1, src, dst)
    requires forall i: nat :: i >= k - 1 ==> At(u, Chan(dst, i)) == At(m, Chan(dst, i))
    ensures Frame(m, w, {InBank(dst)}) && AreDfts(w, k, src, dst)
    ensures forall i: nat :: i >= k ==> At(w, Chan(dst, i)) == At(m, Chan(dst, i))
  {
    var c := ChannelCmd(src, dst, site, k - 1);
    ExecFrame(c, u);
    FrameMore(u, w, {AreaOf(Middle(c)), AreaOf(c.dst)}, {InBank(dst)});
    FrameThen(m, u, w, {InBank(dst)});
    forall i: nat | i < k
      ensures IsDft(w, src, dst, i)
    {
      assert i < k - 1 ==> IsDft(u, src, dst, i);
    }
  }

  lemma {:induction false} WalkPends(n: nat, k: nat, v: View) returns (w: View)
    requires k <= |v.out|
    ensures Walk(n, v, Pends(k), w) && w == View(v.mem, v.out[k..])
  {
    hide Walk;
    if k == 0 {
      w := v;
      WalkNothing(n, v);
    } else {
      var u := WalkPends(n, k - 1, v);
      w := WalkStep(n, v, Pends(k - 1), u, Pend);
    }
  }

  lemma {:induction false} WalkAddSquares(n: nat, k: nat, v: View) returns (w: View)
    requires k <= n && v.out == Cmds(n, Feat, TmplDft, AutoCmd)
    ensures Walk(n, v, AddSquares(k), w) && w.out == v.out[k..] && Frame(v.mem, w.mem, {InCell(Sum)})
  {
    hide Walk;
    if k == 0 {
      w := v;
      WalkNothing(n, v);
    } else {
      var u := WalkAddSquares(n, k - 1, v);
      var u' := WalkStep(n, v, AddSquares(k - 1), u, Pend);
      assert u'.out == v.out[k..];
      var st := Compute(Cell(Sum), AddSquare, [Cell(Sum), Chan(TmplDft, k - 1)]);
      w := WalkStep(n, v, AddSquares(k - 1) + [Pend], u', st);
      ComputeFrame(u'.mem, st);
      FrameThen(v.mem, u'.mem, w.mem, {InCell(Sum)});
    }
  }

  lemma GoodProduct(n: nat, i: nat, v: View)
    requires i < n && v.out == Cmds(n, Feat, FeatHat, CrossCmd)[i + 1..]
    requires AreDfts(v.mem, n, Tmpl, TmplDft) && AreDfts(v.mem, n, Feat, FeatHat)
    ensures Good(n, ProductStep(i), v)
  {
    assert IsDft(v.mem, Tmpl, TmplDft, i) && IsDft(v.mem, Feat, FeatHat, i);
    assert TrueProduct(v, i);
  }

  lemma {:induction false} WalkAddProducts(n: nat, k: nat, v: View) returns (w: View)
    requires k <= n && v.out == Cmds(n, Feat, FeatHat, CrossCmd)
    requires AreDfts(v.mem, n, Tmpl, TmplDft) && AreDfts(v.mem, n, Feat, FeatHat)
    ensures Walk(n, v, AddProducts(k), w) && w.out == v.out[k..] && Frame(v.mem, w.mem, {InCell(Sum)})
  {
    hide Walk;
    if k == 0 {
      w := v;
      WalkNothing(n, v);
    } else {
      var u := WalkAddProducts(n, k - 1, v);
      assert Good(n, Pend, u);
      w := WalkProduct(n, k, v, u);
    }
  }

  lemma WalkProduct(n: nat, k: nat, v: View, u: View) returns (w: View)
    requires 0 < k <= n && v.out == Cmds(n, Feat, FeatHat, CrossCmd)
    requires AreDfts(v.mem, n, Tmpl, TmplDft) && AreDfts(v.mem, n, Feat, FeatHat)
    requires Walk(n, v, AddProducts(k - 1), u) && u.out == v.out[k - 1..] && Frame(v.mem, u.mem, {InCell(Sum)})
    requires Good(n, Pend, u)
    ensures Walk(n, v, AddProducts(k), w) && w.out == v.out[k..] && Frame(v.mem, w.mem, {InCell(Sum)})
  {
    hide Walk, AreDfts, Good, Frame;
    var u' := WalkStep(n, v, AddProducts(k - 1), u, Pend);
    assert u'.out == v.out[k..];
    FrameDfts(v.mem, u'.mem, {InCell(Sum)}, n, Tmpl, TmplDft);
    FrameDfts(v.mem, u'.mem, {InCell(Sum)}, n, Feat, FeatHat);
    GoodProduct(n, k - 1, u');
    w := WalkStep(n, v, AddProducts(k - 1) + [Pend], u', ProductStep(k - 1));
    ComputeFrame(u'.mem, ProductStep(k - 1));
    FrameThen(v.mem, u'.mem, w.mem, {InCell(Sum)});
  }

  lemma {:induction false} WalkBlendAll(n: nat, k: nat, v: View, first: bool) returns (w: View)
    requires v.out == []
    ensures Walk(n, v, BlendAll(k, first), w) && w.out == [] && Frame(v.mem, w.mem, {InBank(Tmpl)})
  {
    hide Walk;
    if k == 0 {
      w := v;
      WalkNothing(n, v);
    } else {
      var u := WalkBlendAll(n, k - 1, v, first);
      var st := Compute(Chan(Tmpl, k - 1), Blend(first), [Chan(Tmpl, k - 1), Chan(Feat, k - 1)]);
      w := WalkStep(n, v, BlendAll(k - 1, first), u, st);
      ComputeFrame(u.mem, st);
      FrameThen(v.mem, u.mem, w.mem, {InBank(Tmpl)});
    }
  }

  /** Features are extracted while the template is still being transformed. */
  ghost predicate OnlyTemplate(out: seq<Cmd>) {
    forall d :: d in out ==> d.src.Chan? && d.src.bank == Tmpl && d.dst.Chan? && d.dst.bank == TmplDft && d.op == R2C
                             && d.record.site == TmplCmd
  }

  lemma {:induction false} WalkExtract(n: nat, k: nat, v: View, frame: nat, scale: nat) returns (w: View)
    requires OnlyTemplate(v.out)
    ensures Walk(n, v, Extract(k, frame, scale), w) && w.out == v.out && Frame(v.mem, w.mem, {InBank(Feat)})
  {
    hide Walk;
    if k == 0 {
      w := v;
      WalkNothing(n, v);
    } else {
      var u := WalkExtract(n, k - 1, v, frame, scale);
      var st := Compute(Chan(Feat, k - 1), Features(frame, scale, k - 1), [Cell(Roi)]);
      w := WalkStep(n, v, Extract(k - 1, frame, scale), u, st);
      ComputeFrame(u.mem, st);
      FrameThen(v.mem, u.mem, w.mem, {InBank(Feat)});
    }
  }

  /** A walk and what it keeps. */
  ghost predicate Leads(n: nat, v: View, script: seq<Step>, w: View, touched: set<Area>) {
    Walk(n, v, script, w) && Frame(v.mem, w.mem, touched)
  }

  lemma Chain(n: nat, v: View, a: seq<Step>, u: View, b: seq<Step>, w: View, some: set<Area>, touched: set<Area>)
    requires Leads(n, v, a, u, touched) && Leads(n, u, b, w, some) && some <= touched
    ensures Leads(n, v, a + b, w, touched)
  {
    hide Walk;
    WalkThen(n, v, a, u, b, w);
    FrameThen(v.mem, u.mem, w.mem, touched);
  }

  /** One computation of the tracker. */
  lemma LeadsCompute(n: nat, v: View, st: Step) returns (w: View)
    requires st.Compute? && Good(n, st, v)
    ensures Leads(n, v, [st], w, {AreaOf(st.dst)}) && w == StepView(st, v)
  {
    hide Walk, Good;
    WalkNothing(n, v);
    w := WalkStep(n, v, [], v, st);
    assert [] + [st] == [st];
    ComputeFrame(v.mem, st);
  }

  lemma LeadsLocal(n: nat, v: View, dst: Name, kind: Kind, args: seq<Buffer>) returns (w: View)
    requires v.out == [] && Truth(n, Compute(Cell(dst), kind, args), v)
    ensures Leads(n, v, [Compute(Cell(dst), kind, args)], w, {InCell(dst)}) && w.out == []
  {
    w := LeadsCompute(n, v, Compute(Cell(dst), kind, args));
  }

  lemma LeadsRelease(n: nat, v: View, owned: Owned)
    requires forall d :: d in v.out ==> !UsesOwned(d, owned)
    ensures Leads(n, v, [Release(owned)], v, {})
  {
    hide Walk;
    WalkNothing(n, v);
    var w := WalkStep(n, v, [], v, Release(owned));
    assert [] + [Release(owned)] == [Release(owned)];
  }

  lemma WalkPutAndWait(n: nat, v: View, c: Cmd) returns (w: View)
    requires v.out == []
    ensures Walk(n, v, [Put(c), Pend], w) && w == View(Exec(c, v.mem), [])
  {
    hide Walk, Exec, Frame;
    WalkNothing(n, v);
    var x := WalkStep(n, v, [], v, Put(c));
    assert [] + [Put(c)] == [Put(c)];
    w := WalkStep(n, v, [Put(c)], x, Pend);
    assert [Put(c)] + [Pend] == [Put(c), Pend];
  }

  lemma LeadsPutAndWait(n: nat, v: View, op: Op, src: Name, dst: Name, site: Site) returns (w: View)
    requires v.out == []
    ensures Leads(n, v, PutAndWait(op, src, dst, site), w, {InCell(src), InCell(dst)}) && w.out == []
  {
    hide Walk, Exec, Frame;
    var c := Cmd(op, Cell(src), Cell(dst), Record(site, 0));
    w := WalkPutAndWait(n, v, c);
    assert PutAndWait(op, src, dst, site) == [Put(c), Pend];
    ExecFrame(c, v.mem);
    FrameMore(v.mem, w.mem, {AreaOf(Middle(c)), AreaOf(c.dst)}, {InCell(src), InCell(dst)});
  }

  /** Only forward transforms between channels are out, and none into the given bank. */
  ghost predicate ChannelOut(out: seq<Cmd>, bank: Bank) {
    forall d :: d in out ==> d.op == R2C && d.src.Chan? && d.dst.Chan? && d.dst.bank != bank
  }

  lemma LeadsEnergy(n: nat, v: View, dst: Name, bank: Bank) returns (w: View)
    requires ChannelOut(v.out, bank)
    ensures Leads(n, v, [EnergyStep(n, dst, bank)], w, {InCell(dst)}) && w.out == v.out && IsEnergy(w.mem, n, dst, bank)
  {
    w := LeadsCompute(n, v, EnergyStep(n, dst, bank));
    assert AllAt(w.mem, Channels(n, bank)) == AllAt(v.mem, Channels(n, bank));
  }

  lemma LeadsZero(n: nat, v: View, zero: bool) returns (w: View)
    requires forall d :: d in v.out ==> d.src.Chan? && d.dst.Chan?
    ensures Leads(n, v, MaybeZero(zero), w, {InCell(Sum)}) && w.out == v.out
  {
    if zero {
      w := LeadsCompute(n, v, Compute(Cell(Sum), Zero, []));
    } else {
      w := v;
      WalkNothing(n, v);
    }
  }

  lemma LeadsPutAll(n: nat, v: View, src: Bank, dst: Bank, site: Site) returns (w: View)
    requires src != dst && forall d :: d in v.out ==> d.record.site != site
    ensures Leads(n, v, PutAll(n, src, dst, site), w, {InBank(dst)})
    ensures w.out == v.out + Cmds(n, src, dst, site) && AreDfts(w.mem, n, src, dst)
  {
    w := WalkPutAll(n, n, v, src, dst, site);
  }

  lemma LeadsAddSquares(n: nat, v: View) returns (w: View)
    requires v.out == Cmds(n, Feat, TmplDft, AutoCmd)
    ensures Leads(n, v, AddSquares(n), w, {InCell(Sum)}) && w.out == []
  {
    w := WalkAddSquares(n, n, v);
  }

  lemma LeadsAddProducts(n: nat, v: View) returns (w: View)
    requires v.out == Cmds(n, Feat, FeatHat, CrossCmd)
    requires AreDfts(v.mem, n, Tmpl, TmplDft) && AreDfts(v.mem, n, Feat, FeatHat)
    ensures Leads(n, v, AddProducts(n), w, {InCell(Sum)}) && w.out == []
  {
    w := WalkAddProducts(n, n, v);
  }

  lemma LeadsBlendAll(n: nat, v: View, first: bool) returns (w: View)
    requires v.out == []
    ensures Leads(n, v, BlendAll(n, first), w, {InBank(Tmpl)}) && w.out == []
  {
    w := WalkBlendAll(n, n, v, first);
  }

  lemma LeadsExtract(n: nat, v: View, frame: nat, scale: nat) returns (w: View)
    requires OnlyTemplate(v.out)
    ensures Leads(n, v, Extract(n, frame, scale), w, {InBank(Feat)}) && w.out == v.out
  {
    w := WalkExtract(n, n, v, frame, scale);
  }

  lemma LeadsPends(n: nat, v: View) returns (w: View)
    requires n <= |v.out|
    ensures Leads(n, v, Pends(n), w, {}) && w == View(v.mem, v.out[n..])
  {
    w := WalkPends(n, n, v);
  }

  // ----- The calls -----

  const TAIL := {InCell(Sum), InCell(Kernel)}

  lemma LeadsTail(n: nat, v: View, site: Site, kind: Kind, args: seq<Buffer>) returns (w: View)
    requires v.out == [] && !kind.AddProduct?
    requires kind.ExpCross? ==>
      && args == [Cell(Kernel), Cell(TmplSum), Cell(FeatSum)]
      && IsEnergy(v.mem, n, TmplSum, Tmpl) && IsEnergy(v.mem, n, FeatSum, Feat)
    ensures Leads(n, v, KernelTail(site, kind, args), w, TAIL) && w.out == []
  {
    hide Leads, IsEnergy;
    var x := LeadsPutAndWait(n, v, C2R, Sum, Kernel, site);
    LeadsRelease(n, x, Single(Sum));
    Chain(n, v, PutAndWait(C2R, Sum, Kernel, site), x, [Release(Single(Sum))], x, {}, TAIL);
    if kind.ExpCross? {
      LeadsEnergyKept(n, v, PutAndWait(C2R, Sum, Kernel, site), x, TAIL, TmplSum, Tmpl);
      LeadsEnergyKept(n, v, PutAndWait(C2R, Sum, Kernel, site), x, TAIL, FeatSum, Feat);
    }
    w := LeadsLocal(n, x, Kernel, kind, args);
    Chain(n, v, PutAndWait(C2R, Sum, Kernel, site) + [Release(Single(Sum))], x, [Compute(Cell(Kernel), kind, args)], w,
          {InCell(Kernel)}, TAIL);
    LeadsRelease(n, w, Records(site));
    Chain(n, v, PutAndWait(C2R, Sum, Kernel, site) + [Release(Single(Sum))] + [Compute(Cell(Kernel), kind, args)], w,
          [Release(Records(site))], w, {}, TAIL);
  }

  lemma LeadsEnergyKept(n: nat, v: View, a: seq<Step>, w: View, touched: set<Area>, name: Name, bank: Bank)
    requires Leads(n, v, a, w, touched) && IsEnergy(v.mem, n, name, bank) && InCell(name) !in touched &&
             InBank(bank) !in touched
    ensures IsEnergy(w.mem, n, name, bank)
  {
    FrameEnergy(v.mem, w.mem, touched, n, name, bank);
  }

  lemma LeadsDftsKept(n: nat, v: View, a: seq<Step>, w: View, touched: set<Area>, from: Bank, to: Bank)
    requires Leads(n, v, a, w, touched) && AreDfts(v.mem, n, from, to) && InBank(from) !in touched &&
             InBank(to) !in touched
    ensures AreDfts(w.mem, n, from, to)
  {
    FrameDfts(v.mem, w.mem, touched, n, from, to);
  }

  lemma LeadsMore(n: nat, v: View, a: seq<Step>, w: View, some: set<Area>, touched: set<Area>)
    requires Leads(n, v, a, w, some) && some <= touched
    ensures Leads(n, v, a, w, touched)
  {
  }

  const AUTO := {InBank(TmplDft), InCell(Sum), InCell(Kernel), InCell(TmplSum)}

  lemma LeadsAuto(v: Variant, n: nat, s: View) returns (w: View)
    requires s.out == []
    ensures Leads(n, s, AutoScript(v, n), w, AUTO) && w.out == []
  {
    hide Leads, IsEnergy, AreDfts;
    var w1 := LeadsZero(n, s, v.MultiCore?);
    LeadsMore(n, s, MaybeZero(v.MultiCore?), w1, {InCell(Sum)}, AUTO);
    var w2 := LeadsPutAll(n, w1, Feat, TmplDft, AutoCmd);
    Chain(n, s, MaybeZero(v.MultiCore?), w1, PutAll(n, Feat, TmplDft, AutoCmd), w2, {InBank(TmplDft)}, AUTO);
    assert w2.out == Cmds(n, Feat, TmplDft, AutoCmd);
    var a := MaybeZero(v.MultiCore?) + PutAll(n, Feat, TmplDft, AutoCmd);
    var w3 := LeadsEnergy(n, w2, TmplSum, Feat);
    Chain(n, s, a, w2, [EnergyStep(n, TmplSum, Feat)], w3, {InCell(TmplSum)}, AUTO);
    a := a + [EnergyStep(n, TmplSum, Feat)];
    var w4 := LeadsZero(n, w3, v.Standalone?);
    Chain(n, s, a, w3, MaybeZero(v.Standalone?), w4, {InCell(Sum)}, AUTO);
    a := a + MaybeZero(v.Standalone?);
    var w5 := LeadsAddSquares(n, w4);
    Chain(n, s, a, w4, AddSquares(n), w5, {InCell(Sum)}, AUTO);
    a := a + AddSquares(n);
    w := LeadsTail(n, w5, AutoCmd, ExpAuto, [Cell(Kernel), Cell(TmplSum)]);
    Chain(n, s, a, w5, KernelTail(AutoCmd, ExpAuto, [Cell(Kernel), Cell(TmplSum)]), w, TAIL, AUTO);
  }

  /** The template transform is on its way, or, when the flag is up, in place with the energy. */
  ghost predicate Ready(n: nat, v: View, updated: bool) {
    && AreDfts(v.mem, n, Tmpl, TmplDft)
    && v.out == (if updated then [] else Cmds(n, Tmpl, TmplDft, TmplCmd))
    && (updated ==> IsEnergy(v.mem, n, TmplSum, Tmpl))
  }

  const SUMS := {InCell(TmplSum), InCell(FeatSum)}

  ghost predicate WaitDone(n: nat, v: View) {
    v.out == Cmds(n, Feat, FeatHat, CrossCmd) && IsEnergy(v.mem, n, TmplSum, Tmpl) && IsEnergy(v.mem, n, FeatSum, Feat)
  }

  /** Two energies, then the template commands, which are the older ones. */
  lemma LeadsFirstUse(n: nat, s: View, first: Name, bank1: Bank, second: Name, bank2: Bank) returns (w: View)
    requires s.out == Cmds(n, Tmpl, TmplDft, TmplCmd) + Cmds(n, Feat, FeatHat, CrossCmd)
    requires (first == TmplSum && bank1 == Tmpl && second == FeatSum && bank2 == Feat)
          || (first == FeatSum && bank1 == Feat && second == TmplSum && bank2 == Tmpl)
    ensures Leads(n, s, [EnergyStep(n, first, bank1)] + [EnergyStep(n, second, bank2)] + Pends(n), w, SUMS)
    ensures WaitDone(n, w)
  {
    hide Leads, IsEnergy;
    var w1 := LeadsEnergy(n, s, first, bank1);
    LeadsMore(n, s, [EnergyStep(n, first, bank1)], w1, {InCell(first)}, SUMS);
    var w2 := LeadsEnergy(n, w1, second, bank2);
    LeadsEnergyKept(n, w1, [EnergyStep(n, second, bank2)], w2, {InCell(second)}, first, bank1);
    Chain(n, s, [EnergyStep(n, first, bank1)], w1, [EnergyStep(n, second, bank2)], w2, {InCell(second)}, SUMS);
    w := LeadsPends(n, w2);
    Chain(n, s, [EnergyStep(n, first, bank1)] + [EnergyStep(n, second, bank2)], w2, Pends(n), w, {}, SUMS);
  }

  lemma LeadsWaitTemplate(v: Variant, n: nat, s: View, updated: bool) returns (w: View)
    requires v.MultiCore? ==> !updated
    requires s.out == (if updated then [] else Cmds(n, Tmpl, TmplDft, TmplCmd)) + Cmds(n, Feat, FeatHat, CrossCmd)
    requires updated ==> IsEnergy(s.mem, n, TmplSum, Tmpl)
    ensures Leads(n, s, WaitTemplate(v, n, updated), w, SUMS) && WaitDone(n, w)
  {
    hide Leads, IsEnergy;
    if v.MultiCore? {
      w := LeadsFirstUse(n, s, TmplSum, Tmpl, FeatSum, Feat);
    } else if updated {
      w := LeadsEnergy(n, s, FeatSum, Feat);
      LeadsEnergyKept(n, s, [EnergyStep(n, FeatSum, Feat)], w, {InCell(FeatSum)}, TmplSum, Tmpl);
      LeadsMore(n, s, [EnergyStep(n, FeatSum, Feat)], w, {InCell(FeatSum)}, SUMS);
    } else {
      w := LeadsFirstUse(n, s, FeatSum, Feat, TmplSum, Tmpl);
    }
  }

  const CROSS := {InBank(FeatHat), InCell(Sum), InCell(Kernel), InCell(TmplSum), InCell(FeatSum)}

  lemma LeadsCrossHead(v: Variant, n: nat, s: View, updated: bool) returns (w: View)
    requires (v.MultiCore? ==> !updated) && Ready(n, s, updated)
    ensures Leads(n, s, MaybeZero(v.MultiCore?) + PutAll(n, Feat, FeatHat, CrossCmd), w, {InBank(FeatHat), InCell(Sum)})
    ensures w.out == (if updated then [] else Cmds(n, Tmpl, TmplDft, TmplCmd)) + Cmds(n, Feat, FeatHat, CrossCmd)
    ensures updated ==> IsEnergy(w.mem, n, TmplSum, Tmpl)
    ensures AreDfts(w.mem, n, Tmpl, TmplDft) && AreDfts(w.mem, n, Feat, FeatHat)
  {
    hide Leads, IsEnergy, AreDfts;
    var areas := {InBank(FeatHat), InCell(Sum)};
    var w1 := LeadsZero(n, s, v.MultiCore?);
    LeadsMore(n, s, MaybeZero(v.MultiCore?), w1, {InCell(Sum)}, areas);
    w := LeadsPutAll(n, w1, Feat, FeatHat, CrossCmd);
    Chain(n, s, MaybeZero(v.MultiCore?), w1, PutAll(n, Feat, FeatHat, CrossCmd), w, {InBank(FeatHat)}, areas);
    var a := MaybeZero(v.MultiCore?) + PutAll(n, Feat, FeatHat, CrossCmd);
    LeadsDftsKept(n, s, a, w, areas, Tmpl, TmplDft);
    if updated {
      LeadsEnergyKept(n, s, a, w, areas, TmplSum, Tmpl);
    }
  }

  /** The cross-correlation leaves the flag up, and the template's transform and energy in place. */
  lemma LeadsCross(v: Variant, n: nat, s: View, updated: bool) returns (w: View)
    requires (v.MultiCore? ==> !updated) && Ready(n, s, updated)
    ensures Leads(n, s, CrossScript(v, n, updated), w, CROSS) && Ready(n, w, true)
  {
    hide Leads, IsEnergy, AreDfts;
    var a := MaybeZero(v.MultiCore?) + PutAll(n, Feat, FeatHat, CrossCmd);
    var w2 := LeadsCrossHead(v, n, s, updated);
    LeadsMore(n, s, a, w2, {InBank(FeatHat), InCell(Sum)}, CROSS);
    var w3 := LeadsWaitTemplate(v, n, w2, updated);
    Chain(n, s, a, w2, WaitTemplate(v, n, updated), w3, SUMS, CROSS);
    LeadsDftsKept(n, w2, WaitTemplate(v, n, updated), w3, SUMS, Tmpl, TmplDft);
    LeadsDftsKept(n, w2, WaitTemplate(v, n, updated), w3, SUMS, Feat, FeatHat);
    a := a + WaitTemplate(v, n, updated);
    var w4 := LeadsZero(n, w3, v.Standalone?);
    Chain(n, s, a, w3, MaybeZero(v.Standalone?), w4, {InCell(Sum)}, CROSS);
    KeptAll(n, w3, MaybeZero(v.Standalone?), w4, {InCell(Sum)});
    a := a + MaybeZero(v.Standalone?);
    var w5 := LeadsAddProducts(n, w4);
    Chain(n, s, a, w4, AddProducts(n), w5, {InCell(Sum)}, CROSS);
    KeptAll(n, w4, AddProducts(n), w5, {InCell(Sum)});
    a := a + AddProducts(n);
    LeadsRelease(n, w5, Buffers(FeatHat));
    Chain(n, s, a, w5, [Release(Buffers(FeatHat))], w5, {}, CROSS);
    a := a + [Release(Buffers(FeatHat))];
    var args := [Cell(Kernel), Cell(TmplSum), Cell(FeatSum)];
    w := LeadsTail(n, w5, CrossCmd, ExpCross, args);
    Chain(n, s, a, w5, KernelTail(CrossCmd, ExpCross, args), w, TAIL, CROSS);
    KeptAll(n, w5, KernelTail(CrossCmd, ExpCross, args), w, TAIL);
  }

  lemma KeptAll(n: nat, v: View, a: seq<Step>, w: View, touched: set<Area>)
    requires Leads(n, v, a, w, touched) && touched <= TAIL
    requires AreDfts(v.mem, n, Tmpl, TmplDft) && AreDfts(v.mem, n, Feat, FeatHat)
    requires IsEnergy(v.mem, n, TmplSum, Tmpl) && IsEnergy(v.mem, n, FeatSum, Feat)
    ensures AreDfts(w.mem, n, Tmpl, TmplDft) && AreDfts(w.mem, n, Feat, FeatHat)
    ensures IsEnergy(w.mem, n, TmplSum, Tmpl) && IsEnergy(w.mem, n, FeatSum, Feat)
  {
    hide Leads, IsEnergy, AreDfts;
    LeadsDftsKept(n, v, a, w, touched, Tmpl, TmplDft);
    LeadsDftsKept(n, v, a, w, touched, Feat, FeatHat);
    LeadsEnergyKept(n, v, a, w, touched, TmplSum, Tmpl);
    LeadsEnergyKept(n, v, a, w, touched, FeatSum, Feat);
  }

  const DETECT := CROSS + {InCell(KernelHat), InCell(Peak), InCell(Best)}

  lemma LeadsDetect(v: Variant, n: nat, s: View, updated: bool, scale: nat) returns (w: View)
    requires (v.MultiCore? ==> !updated) && Ready(n, s, updated)
    ensures Leads(n, s, DetectScript(v, n, updated, scale), w, DETECT) && Ready(n, w, true)
  {
    hide Leads, IsEnergy, AreDfts;
    var a := CrossScript(v, n, updated);
    var w1 := LeadsCross(v, n, s, updated);
    LeadsMore(n, s, a, w1, CROSS, DETECT);
    var b := AfterCross(scale);
    w := LeadsAfterCross(n, w1, scale);
    Chain(n, s, a, w1, b, w, AFTER_CROSS, DETECT);
    LeadsDftsKept(n, w1, b, w, AFTER_CROSS, Tmpl, TmplDft);
    LeadsEnergyKept(n, w1, b, w, AFTER_CROSS, TmplSum, Tmpl);
  }

  const AFTER_CROSS := {InCell(Kernel), InCell(KernelHat), InCell(Peak), InCell(Best)}

  lemma LeadsAfterCross(n: nat, s: View, scale: nat) returns (w: View)
    requires s.out == []
    ensures Leads(n, s, AfterCross(scale), w, AFTER_CROSS) && w.out == []
  {
    hide Leads, IsEnergy, AreDfts;
    var a := PutAndWait(R2CN, Kernel, KernelHat, DetectCmd);
    var w1 := LeadsPutAndWait(n, s, R2CN, Kernel, KernelHat, DetectCmd);
    LeadsMore(n, s, a, w1, {InCell(Kernel), InCell(KernelHat)}, AFTER_CROSS);
    var st := Compute(Cell(KernelHat), Times, [Cell(KernelHat), Cell(Alpha)]);
    var w2 := LeadsLocal(n, w1, KernelHat, Times, [Cell(KernelHat), Cell(Alpha)]);
    Chain(n, s, a, w1, [st], w2, {InCell(KernelHat)}, AFTER_CROSS);
    a := a + [st];
    var w3 := LeadsPutAndWait(n, w2, C2R, KernelHat, Kernel, DetectCmd);
    Chain(n, s, a, w2, PutAndWait(C2R, KernelHat, Kernel, DetectCmd), w3, {InCell(KernelHat), InCell(Kernel)},
        AFTER_CROSS);
    a := a + PutAndWait(C2R, KernelHat, Kernel, DetectCmd);
    LeadsRelease(n, w3, Single(KernelHat));
    Chain(n, s, a, w3, [Release(Single(KernelHat))], w3, {}, AFTER_CROSS);
    a := a + [Release(Single(KernelHat))];
    var w4 := LeadsLocal(n, w3, Peak, FindPeak, [Cell(Kernel)]);
    Chain(n, s, a, w3, [Compute(Cell(Peak), FindPeak, [Cell(Kernel)])], w4, {InCell(Peak)}, AFTER_CROSS);
    a := a + [Compute(Cell(Peak), FindPeak, [Cell(Kernel)])];
    LeadsRelease(n, w4, Single(Kernel));
    Chain(n, s, a, w4, [Release(Single(Kernel))], w4, {}, AFTER_CROSS);
    a := a + [Release(Single(Kernel))];
    LeadsRelease(n, w4, Records(DetectCmd));
    Chain(n, s, a, w4, [Release(Records(DetectCmd))], w4, {}, AFTER_CROSS);
    a := a + [Release(Records(DetectCmd))];
    w := LeadsLocal(n, w4, Best, Choose(scale), ChooseArgs(scale));
    Chain(n, s, a, w4, [Compute(Cell(Best), Choose(scale), ChooseArgs(scale))], w, {InCell(Best)}, AFTER_CROSS);
  }

  const TRAIN := AUTO + {InCell(NewAlpha), InCell(Alpha), InBank(Tmpl)}

  lemma LeadsTrain(v: Variant, n: nat, s: View, first: bool) returns (w: View)
    requires s.out == []
    ensures Leads(n, s, TrainScript(v, n, first), w, TRAIN)
    ensures v.MultiCore? ==> w.out == []
    ensures v.Standalone? ==> Ready(n, w, false)
  {
    hide Leads, IsEnergy, AreDfts;
    var a := AutoScript(v, n);
    var w1 := LeadsAuto(v, n, s);
    LeadsMore(n, s, a, w1, AUTO, TRAIN);
    var w2 := LeadsPutAndWait(n, w1, R2R, Kernel, Kernel, TrainCmd);
    Chain(n, s, a, w1, PutAndWait(R2R, Kernel, Kernel, TrainCmd), w2, {InCell(Kernel), InCell(Kernel)}, TRAIN);
    a := a + PutAndWait(R2R, Kernel, Kernel, TrainCmd);
    var w3 := LeadsLearn(n, w2, first);
    Chain(n, s, a, w2, Learn(n, first), w3, LEARN, TRAIN);
    a := a + Learn(n, first);
    w := w3;
    if v.Standalone? {
      w := LeadsPutAll(n, w3, Tmpl, TmplDft, TmplCmd);
      Chain(n, s, a, w3, PutAll(n, Tmpl, TmplDft, TmplCmd), w, {InBank(TmplDft)}, TRAIN);
    } else {
      WalkNothing(n, w);
      LeadsNothing(n, w);
      Chain(n, s, a, w, [], w, {}, TRAIN);
    }
    a := a + QueueTemplate(v, n);
    LeadsRelease(n, w, Records(TrainCmd));
    Chain(n, s, a, w, [Release(Records(TrainCmd))], w, {}, TRAIN);
  }

  lemma LeadsNothing(n: nat, v: View)
    ensures Leads(n, v, [], v, {})
  {
  }

  const LEARN := {InCell(NewAlpha), InCell(Alpha), InBank(Tmpl)}

  lemma LeadsLearn(n: nat, s: View, first: bool) returns (w: View)
    requires s.out == []
    ensures Leads(n, s, Learn(n, first), w, LEARN) && w.out == []
  {
    hide Leads, IsEnergy, AreDfts;
    var w1 := LeadsLocal(n, s, NewAlpha, Divide, [Cell(Prob), Cell(Kernel)]);
    var a := [Compute(Cell(NewAlpha), Divide, [Cell(Prob), Cell(Kernel)])];
    LeadsMore(n, s, a, w1, {InCell(NewAlpha)}, LEARN);
    LeadsRelease(n, w1, Single(Kernel));
    Chain(n, s, a, w1, [Release(Single(Kernel))], w1, {}, LEARN);
    a := a + [Release(Single(Kernel))];
    var st := Compute(Cell(Alpha), Blend(first), [Cell(Alpha), Cell(NewAlpha)]);
    var w2 := LeadsLocal(n, w1, Alpha, Blend(first), [Cell(Alpha), Cell(NewAlpha)]);
    Chain(n, s, a, w1, [st], w2, {InCell(Alpha)}, LEARN);
    a := a + [st];
    LeadsRelease(n, w2, Single(NewAlpha));
    Chain(n, s, a, w2, [Release(Single(NewAlpha))], w2, {}, LEARN);
    a := a + [Release(Single(NewAlpha))];
    w := LeadsBlendAll(n, w2, first);
    Chain(n, s, a, w2, BlendAll(n, first), w, {InBank(Tmpl)}, LEARN);
  }

  // ----- Whole programs -----

  /** Between two calls the multi-core tracker has waited for everything; the stand-alone one,
      once it has been initialised, has exactly the transforms of its template on their way. */
  ghost predicate Between(v: Variant, n: nat, s: View, started: bool) {
    if v.Standalone? && started then Ready(n, s, false) else s.out == []
  }

  lemma LeadsInit(v: Variant, n: nat, s: View, frame: nat, started: bool) returns (w: View)
    requires Between(v, n, s, started)
    ensures Walk(n, s, InitScript(v, n, frame), w) && Between(v, n, w, true)
  {
    hide Walk, IsEnergy, AreDfts;
    assert OnlyTemplate(s.out);
    var a := [Compute(Cell(Roi), GivenRoi(frame), [])];
    var w1 := LeadsCompute(n, s, Compute(Cell(Roi), GivenRoi(frame), []));
    var w2 := LeadsExtract(n, w1, frame, 0);
    WalkThen(n, s, a, w1, Extract(n, frame, 0), w2);
    a := a + Extract(n, frame, 0);
    var w3 := w2.(out := []);
    WalkMaybeDrain(v, n, w2);
    WalkThen(n, s, a, w2, MaybeDrain(v), w3);
    a := a + MaybeDrain(v);
    var w4 := LeadsTrain(v, n, w3, true);
    WalkThen(n, s, a, w3, TrainScript(v, n, true), w4);
    a := a + TrainScript(v, n, true);
    w := w4;
    LeadsRelease(n, w, Buffers(Feat));
    WalkThen(n, s, a, w, [Release(Buffers(Feat))], w);
  }

  lemma WalkMaybeDrain(v: Variant, n: nat, s: View)
    requires v.MultiCore? ==> s.out == []
    ensures Walk(n, s, MaybeDrain(v), s.(out := []))
  {
    hide Walk;
    WalkNothing(n, s);
    if v.Standalone? {
      var x := WalkStep(n, s, [], s, Drain);
      assert [] + [Drain] == [Drain];
    }
  }

  /** One look at the current frame, with the template ready. */
  lemma WalkLook(v: Variant, n: nat, s: View, frame: nat, updated: bool, scale: nat) returns (w: View)
    requires (v.MultiCore? ==> !updated) && Ready(n, s, updated)
    ensures Walk(n, s, LookScript(v, n, frame, updated, scale), w) && Ready(n, w, true)
  {
    hide Leads, IsEnergy, AreDfts;
    assert OnlyTemplate(s.out);
    var w1 := LeadsExtract(n, s, frame, scale);
    LeadsDftsKept(n, s, Extract(n, frame, scale), w1, {InBank(Feat)}, Tmpl, TmplDft);
    if updated {
      LeadsEnergyKept(n, s, Extract(n, frame, scale), w1, {InBank(Feat)}, TmplSum, Tmpl);
    }
    w := LeadsDetect(v, n, w1, updated, scale);
    LeadsWalk(n, s, Extract(n, frame, scale), w1, {InBank(Feat)});
    LeadsWalk(n, w1, DetectScript(v, n, updated, scale), w, DETECT);
    WalkThen(n, s, Extract(n, frame, scale), w1, DetectScript(v, n, updated, scale), w);
  }

  lemma LeadsWalk(n: nat, v: View, a: seq<Step>, w: View, touched: set<Area>)
    requires Leads(n, v, a, w, touched)
    ensures Walk(n, v, a, w)
  {
  }

  lemma WalkDetection(v: Variant, n: nat, s: View, frame: nat) returns (w: View)
    requires if v.MultiCore? then s.out == [] else Ready(n, s, false)
    ensures Walk(n, s, DetectionScript(v, n, frame), w) && Ready(n, w, true)
  {
    hide Walk, IsEnergy, AreDfts, LookScript;
    if v.MultiCore? {
      var w1 := LeadsPutAll(n, s, Tmpl, TmplDft, TmplCmd);
      assert s.out + Cmds(n, Tmpl, TmplDft, TmplCmd) == Cmds(n, Tmpl, TmplDft, TmplCmd);
      w := WalkLook(v, n, w1, frame, false, 0);
      WalkThen(n, s, PutAll(n, Tmpl, TmplDft, TmplCmd), w1, LookScript(v, n, frame, false, 0), w);
    } else {
      var w1 := WalkLook(v, n, s, frame, false, 0);
      var w2 := WalkLook(v, n, w1, frame, true, 1);
      w := WalkLook(v, n, w2, frame, true, 2);
      WalkThen(n, s, LookScript(v, n, frame, false, 0), w1, LookScript(v, n, frame, true, 1), w2);
      WalkThen(n, s, LookScript(v, n, frame, false, 0) + LookScript(v, n, frame, true, 1), w2,
               LookScript(v, n, frame, true, 2), w);
    }
  }

  lemma LeadsUpdate(v: Variant, n: nat, s: View, frame: nat) returns (w: View)
    requires if v.MultiCore? then s.out == [] else Ready(n, s, false)
    ensures Walk(n, s, UpdateScript(v, n, frame), w) && Between(v, n, w, true)
  {
    hide Walk, IsEnergy, AreDfts;
    var a := DetectionScript(v, n, frame);
    var w1 := WalkDetection(v, n, s, frame);
    var st := Compute(Cell(Roi), Locate, [Cell(Roi), Cell(Best)]);
    var w2 := LeadsLocal(n, w1, Roi, Locate, [Cell(Roi), Cell(Best)]);
    WalkThen(n, s, a, w1, [st], w2);
    a := a + [st];
    var w3 := LeadsExtract(n, w2, frame, 3);
    WalkThen(n, s, a, w2, Extract(n, frame, 3), w3);
    a := a + Extract(n, frame, 3);
    var w4 := LeadsTrain(v, n, w3, false);
    WalkThen(n, s, a, w3, TrainScript(v, n, false), w4);
    a := a + TrainScript(v, n, false);
    w := w4;
    LeadsRelease(n, w, Buffers(Feat));
    WalkThen(n, s, a, w, [Release(Buffers(Feat))], w);
  }

  lemma WalkGaussian(n: nat) returns (w: View)
    ensures Walk(n, START, GaussianScript(), w) && w.out == []
  {
    hide Walk;
    var w1 := LeadsLocal(n, START, Prob, GaussianPeak, []);
    var w2 := LeadsPutAndWait(n, w1, R2R, Prob, Prob, PeakCmd);
    WalkThen(n, START, [Compute(Cell(Prob), GaussianPeak, [])], w1, PutAndWait(R2R, Prob, Prob, PeakCmd), w2);
    LeadsRelease(n, w2, Records(PeakCmd));
    w := w2;
    WalkThen(n, START, [Compute(Cell(Prob), GaussianPeak, [])] + PutAndWait(R2R, Prob, Prob, PeakCmd), w,
             [Release(Records(PeakCmd))], w);
  }

  /** What a caller of the tracker owes: the stand-alone one is initialised before it is updated. */
  predicate WellCalled(v: Variant, n: nat, calls: seq<Call>) {
    v.MultiCore? || n == 0 || calls == [] || calls[0].Init?
  }

  lemma NoDfts(m: Memory)
    ensures AreDfts(m, 0, Tmpl, TmplDft)
  {
  }

  lemma {:induction false} WalkProgram(v: Variant, n: nat, calls: seq<Call>) returns (w: View)
    requires WellCalled(v, n, calls)
    ensures Walk(n, START, Program(v, n, calls), w) && Between(v, n, w, calls != [])
    decreases |calls|
  {
    hide Walk, AreDfts;
    if calls == [] {
      w := WalkGaussian(n);
    } else {
      var before, call := calls[..|calls| - 1], calls[|calls| - 1];
      var u := WalkProgram(v, n, before);
      if call.Init? {
        w := LeadsInit(v, n, u, call.frame, before != []);
      } else {
        if before == [] && n == 0 {
          NoDfts(u.mem);
          assert Cmds(0, Tmpl, TmplDft, TmplCmd) == [];
        }
        w := LeadsUpdate(v, n, u, call.frame);
      }
      WalkThen(n, START, Program(v, n, before), u, CallScript(v, n, call), w);
    }
  }

  /** A program keeps the discipline of the service exactly when it is called as it should be:
      a stand-alone tracker that is updated first waits for completions that never come. */
  lemma DisciplinedExactly(v: Variant, n: nat, calls: seq<Call>)
    ensures Disciplined(START, Program(v, n, calls)) <==> WellCalled(v, n, calls)
  {
    if WellCalled(v, n, calls) {
      var w := WalkProgram(v, n, calls);
      WalkIsDisciplined(n, Program(v, n, calls), w);
    } else {
      UpdateFirst(n, calls);
    }
  }

  lemma WalkIsDisciplined(n: nat, script: seq<Step>, w: View)
    requires Walk(n, START, script, w)
    ensures Disciplined(START, script)
  {
    forall pc: nat | pc < |script|
      ensures OkAt(START, script, pc)
    {
      assert GoodAt(n, START, script, pc);
    }
  }

  ghost predicate Prefix(a: seq<Step>, s: seq<Step>) {
    |a| <= |s| && s[..|a|] == a
  }

  lemma PrefixSelf(a: seq<Step>)
    ensures Prefix(a, a)
  {
  }

  lemma PrefixRight(a: seq<Step>, s: seq<Step>, more: seq<Step>)
    requires Prefix(a, s)
    ensures Prefix(a, s + more)
  {
    assert (s + more)[..|a|] == s[..|a|];
  }

  lemma PrefixLeft(x: seq<Step>, a: seq<Step>, s: seq<Step>)
    requires Prefix(a, s)
    ensures Prefix(x + a, x + s)
  {
    assert s == a + s[|a|..];
    assert (x + s)[..|x + a|] == x + a;
  }

  lemma {:induction false} ProductsBegin(n: nat)
    requires n > 0
    ensures Prefix([Pend], AddProducts(n))
  {
    if n == 1 {
      assert AddProducts(1) == [] + [Pend] + [ProductStep(0)];
    } else {
      ProductsBegin(n - 1);
      PrefixRight([Pend], AddProducts(n - 1), [Pend]);
      PrefixRight([Pend], AddProducts(n - 1) + [Pend], [ProductStep(n - 1)]);
    }
  }

  /** What a first update does up to the wait that never ends. */
  function UpToTheWait(n: nat): seq<Step> {
    MaybeZero(false) + PutAll(n, Feat, FeatHat, CrossCmd) + WaitTemplate(Standalone, n, false) + MaybeZero(true)
  }

  lemma WaitsInVain(n: nat, s: View) returns (w: View)
    requires s.out == []
    ensures Walk(n, s, UpToTheWait(n), w) && w.out == []
  {
    hide Walk, IsEnergy, AreDfts;
    var w1 := LeadsZero(n, s, false);
    var w2 := LeadsPutAll(n, w1, Feat, FeatHat, CrossCmd);
    var a := MaybeZero(false);
    WalkThen(n, s, a, w1, PutAll(n, Feat, FeatHat, CrossCmd), w2);
    a := a + PutAll(n, Feat, FeatHat, CrossCmd);
    assert w2.out == Cmds(n, Feat, FeatHat, CrossCmd);
    var w3 := LeadsEnergy(n, w2, FeatSum, Feat);
    var w4 := LeadsEnergy(n, w3, TmplSum, Tmpl);
    WalkThen(n, w2, [EnergyStep(n, FeatSum, Feat)], w3, [EnergyStep(n, TmplSum, Tmpl)], w4);
    var w5 := LeadsPends(n, w4);
    WalkThen(n, w2, [EnergyStep(n, FeatSum, Feat)] + [EnergyStep(n, TmplSum, Tmpl)], w4, Pends(n), w5);
    WalkThen(n, s, a, w2, WaitTemplate(Standalone, n, false), w5);
    a := a + WaitTemplate(Standalone, n, false);
    w := LeadsZero(n, w5, true);
    WalkThen(n, s, a, w5, MaybeZero(true), w);
  }

  lemma WalkToTheWait(n: nat, frame: nat) returns (w: View)
    ensures Walk(n, START, GaussianScript() + (Extract(n, frame, 0) + UpToTheWait(n)), w) && w.out == []
  {
    hide Walk, PutAll, Pends, Extract, UpToTheWait, GaussianScript;
    var w1 := WalkGaussian(n);
    var w2 := LeadsExtract(n, w1, frame, 0);
    LeadsWalk(n, w1, Extract(n, frame, 0), w2, {InBank(Feat)});
    w := WaitsInVain(n, w2);
    WalkThen(n, w1, Extract(n, frame, 0), w2, UpToTheWait(n), w);
    WalkThen(n, START, GaussianScript(), w1, Extract(n, frame, 0) + UpToTheWait(n), w);
  }

  lemma UpdateFirst(n: nat, calls: seq<Call>)
    requires n > 0 && calls != [] && calls[0].Update?
    ensures !Disciplined(START, Program(Standalone, n, calls))
  {
    hide Walk, Extract, Prefix, UpToTheWait, Program, GaussianScript, Disciplined;
    var frame := calls[0].frame;
    var w := WalkToTheWait(n, frame);
    FirstUpdate(n, calls);
    WaitsForNothing(n, GaussianScript() + (Extract(n, frame, 0) + UpToTheWait(n)), w, Program(Standalone, n, calls));
  }

  lemma WaitsForNothing(n: nat, a: seq<Step>, w: View, p: seq<Step>)
    requires Walk(n, START, a, w) && w.out == [] && Prefix(a + [Pend], p)
    ensures !Disciplined(START, p)
  {
    var rest := p[|a|..];
    assert p == a + rest;
    AfterPrefix(START, a, rest, |a|);
    assert p[|a|] == (a + [Pend])[|a|];
    assert !OkAt(START, p, |a|);
  }

  lemma WalkEnd(n: nat, v: View, a: seq<Step>, w: View)
    requires Walk(n, v, a, w)
    ensures w == After(v, a, |a|)
  {
  }

  lemma FirstUpdate(n: nat, calls: seq<Call>)
    requires n > 0 && calls != [] && calls[0].Update?
    ensures Prefix(GaussianScript() + (Extract(n, calls[0].frame, 0) + UpToTheWait(n)) + [Pend],
            Program(Standalone, n, calls))
  {
    hide PutAll, Pends, Extract, WaitTemplate, AddProducts, KernelTail, AfterCross, TrainScript, GaussianScript,
        MaybeZero;
    var frame := calls[0].frame;
    var b := UpToTheWait(n) + [Pend];
    ProductsBegin(n);
    PrefixLeft(UpToTheWait(n), [Pend], AddProducts(n));
    PrefixRight(b, UpToTheWait(n) + AddProducts(n), [Release(Buffers(FeatHat))]);
    PrefixRight(b, UpToTheWait(n) + AddProducts(n) + [Release(Buffers(FeatHat))],
                KernelTail(CrossCmd, ExpCross, [Cell(Kernel), Cell(TmplSum), Cell(FeatSum)]));
    assert Prefix(b, CrossScript(Standalone, n, false));
    PrefixRight(b, CrossScript(Standalone, n, false), AfterCross(0));
    PrefixLeft(Extract(n, frame, 0), b, DetectScript(Standalone, n, false, 0));
    var c := Extract(n, frame, 0) + b;
    LookBegins(n, frame, c);
    PrefixLeft(GaussianScript(), c, UpdateScript(Standalone, n, frame));
    assert GaussianScript() + c == GaussianScript() + (Extract(n, frame, 0) + UpToTheWait(n)) + [Pend];
    ProgramBegins(Standalone, n, calls, 1);
    OneCall(Standalone, n, calls[0]);
    assert calls[..1] == [calls[0]];
    PrefixTrans(GaussianScript() + c, Program(Standalone, n, calls[..1]), Program(Standalone, n, calls));
  }

  lemma OneCall(v: Variant, n: nat, call: Call)
    ensures Program(v, n, [call]) == GaussianScript() + CallScript(v, n, call)
  {
    assert [call][..0] == [];
  }

  lemma PrefixTrans(a: seq<Step>, b: seq<Step>, c: seq<Step>)
    requires Prefix(a, b) && Prefix(b, c)
    ensures Prefix(a, c)
  {
    assert c[..|a|] == b[..|a|];
  }

  lemma LookBegins(n: nat, frame: nat, c: seq<Step>)
    requires Prefix(c, LookScript(Standalone, n, frame, false, 0))
    ensures Prefix(c, UpdateScript(Standalone, n, frame))
  {
    hide Prefix, LookScript, Extract, TrainScript;
    var d := DetectionScript(Standalone, n, frame);
    PrefixRight(c, LookScript(Standalone, n, frame, false, 0), LookScript(Standalone, n, frame, true, 1));
    PrefixRight(c, LookScript(Standalone, n, frame, false, 0) + LookScript(Standalone, n, frame, true, 1),
                LookScript(Standalone, n, frame, true, 2));
    var st := Compute(Cell(Roi), Locate, [Cell(Roi), Cell(Best)]);
    PrefixRight(c, d, [st]);
    PrefixRight(c, d + [st], Extract(n, frame, 3));
    PrefixRight(c, d + [st] + Extract(n, frame, 3), TrainScript(Standalone, n, false));
    PrefixRight(c, d + [st] + Extract(n, frame, 3) + TrainScript(Standalone, n, false), [Release(Buffers(Feat))]);
  }

  lemma {:induction false} ProgramBegins(v: Variant, n: nat, calls: seq<Call>, k: nat)
    requires k <= |calls|
    ensures Prefix(Program(v, n, calls[..k]), Program(v, n, calls))
    decreases |calls|
  {
    hide Prefix, CallScript, GaussianScript;
    if k == |calls| {
      assert calls[..k] == calls;
      PrefixSelf(Program(v, n, calls));
    } else {
      var before := calls[..|calls| - 1];
      ProgramBegins(v, n, before, k);
      assert before[..k] == calls[..k];
      PrefixRight(Program(v, n, calls[..k]), Program(v, n, before), CallScript(v, n, calls[|calls| - 1]));
    }
  }

  // ----- The trackers on the service -----

  /** Two multi-core trackers, or a stand-alone one with nobody beside it, may be run together. */
  lemma TwoTrackers(n0: nat, calls0: seq<Call>, n1: nat, calls1: seq<Call>)
    ensures AllDisciplined([Program(MultiCore, n0, calls0), Program(MultiCore, n1, calls1)])
  {
    hide Disciplined, Program;
    DisciplinedExactly(MultiCore, n0, calls0);
    DisciplinedExactly(MultiCore, n1, calls1);
  }

  lemma NoScript()
    ensures Disciplined(START, [])
  {
  }

  lemma OneTracker(n: nat, calls: seq<Call>)
    requires WellCalled(Standalone, n, calls)
    ensures AllDisciplined([Program(Standalone, n, calls), []])
  {
    hide Disciplined, Program;
    DisciplinedExactly(Standalone, n, calls);
    NoScript();
  }

  /** Under any interleaving: at every multiplication of a cross-correlation the channel of the
      template transform is the transform of that channel of the template as it is now, and the
      same for the features; at the exponential both energies are the current ones. */
  lemma TemplateIsTrue(v: Variant, n: nat, calls: seq<Call>, scripts: seq<seq<Step>>, acts: seq<Action>, s: State,
                       i: Index)
    requires AllDisciplined(scripts) && scripts[i] == Program(v, n, calls) && WellCalled(v, n, calls)
    requires IsRun(scripts, acts, s, true) && Shape(scripts, s)
    requires s.cores[i].pc < |scripts[i]| && scripts[i][s.cores[i].pc].Compute?
    ensures var st, m := scripts[i][s.cores[i].pc], s.cores[i].mem;
      && (st.kind.AddProduct? ==> exists ch: nat :: ch < n && st == ProductStep(ch)
                                    && IsDft(m, Tmpl, TmplDft, ch) && IsDft(m, Feat, FeatHat, ch))
      && (st.kind.ExpCross? ==> IsEnergy(m, n, TmplSum, Tmpl) && IsEnergy(m, n, FeatSum, Feat))
  {
    hide AllDisciplined, IsRun, IsEnergy, IsDft, Program, Settled, Undone;
    var pc := s.cores[i].pc;
    var w := WalkProgram(v, n, calls);
    var now := After(START, scripts[i], pc);
    assert GoodAt(n, START, scripts[i], pc);
    var st := scripts[i][pc];
    if st.kind.ExpCross? {
      WaitedMeansQuiet(scripts, acts, s, i);
    } else if st.kind.AddProduct? {
      var ch: nat :| ch < n && st == ProductStep(ch) && TrueProduct(now, ch);
      ReadsAreSequential(scripts, acts, s, i);
      StillThere(scripts, acts, s, i, Chan(Tmpl, ch));
      StillThere(scripts, acts, s, i, Chan(Feat, ch));
      SameDfts(s.cores[i].mem, now.mem, ch);
    }
  }

  lemma SameDfts(m: Memory, w: Memory, ch: nat)
    requires AllAt(m, ProductStep(ch).args) == AllAt(w, ProductStep(ch).args)
    requires At(m, Chan(Tmpl, ch)) == At(w, Chan(Tmpl, ch)) && At(m, Chan(Feat, ch)) == At(w, Chan(Feat, ch))
    requires IsDft(w, Tmpl, TmplDft, ch) && IsDft(w, Feat, FeatHat, ch)
    ensures IsDft(m, Tmpl, TmplDft, ch) && IsDft(m, Feat, FeatHat, ch)
  {
    var args := ProductStep(ch).args;
    assert AllAt(m, args)[1] == AllAt(w, args)[1] && AllAt(m, args)[2] == AllAt(w, args)[2];
  }

  /** A buffer no command under way writes has its sequential value. */
  lemma StillThere(scripts: seq<seq<Step>>, acts: seq<Action>, s: State, i: Index, b: Buffer)
    requires AllDisciplined(scripts) && IsRun(scripts, acts, s, true) && Shape(scripts, s)
    requires forall d :: d in After(START, scripts[i], s.cores[i].pc).out ==> !Writes(d, b)
    ensures At(s.cores[i].mem, b) == At(After(START, scripts[i], s.cores[i].pc).mem, b)
  {
    RunKeepsInv(scripts, acts, s);
    assert CoreOk(scripts, s, i);
    UndoneOf(scripts[i], s.cores[i], s.queues[i], s.service, i);
    SettledLeaves(s.service, s.queues[i], i, s.cores[i].mem, b);
  }

  /** When createGaussianPeak or a call returns, nothing of a multi-core tracker is left at the
      server and its semaphore is 0; a stand-alone tracker that has been initialised has then
      exactly the n transforms of its template not waited for, done or still to be done. */
  lemma OnReturn(v: Variant, n: nat, calls: seq<Call>, k: nat, scripts: seq<seq<Step>>, acts: seq<Action>, s: State,
                 i: Index)
    requires AllDisciplined(scripts) && scripts[i] == Program(v, n, calls) && WellCalled(v, n, calls) && k <= |calls|
    requires IsRun(scripts, acts, s, true) && Shape(scripts, s) && s.cores[i].pc == |Program(v, n, calls[..k])|
    ensures v.MultiCore? || k == 0 ==>
      Quiet(s, i) && s.cores[i].sem == 0 && s.cores[i].mem == After(START, scripts[i], s.cores[i].pc).mem
    ensures v.Standalone? && k > 0 ==>
      IsTail(Undone(s.service, s.queues[i], i), Done(s.service, s.cores[i], i), Cmds(n, Tmpl, TmplDft, TmplCmd))
  {
    hide AllDisciplined, IsRun, Program, Walk, AreDfts;
    ProgramBegins(v, n, calls, k);
    var a := Program(v, n, calls[..k]);
    assert scripts[i] == a + scripts[i][|a|..];
    AfterPrefix(START, a, scripts[i][|a|..], |a|);
    var w := WalkProgram(v, n, calls[..k]);
    WalkEnd(n, START, a, w);
    if v.MultiCore? || k == 0 {
      WaitedMeansQuiet(scripts, acts, s, i);
    } else {
      CompletionsInOrder(scripts, acts, s, i);
    }
  }

  // ----- The tracker as a program -----

  lemma Assoc(a: seq<Step>, b: seq<Step>, c: seq<Step>)
    ensures a + b + c == a + (b + c)
  {
  }

  lemma TraceGrows(n: nat, trace: seq<Step>, v: View, script: seq<Step>, w: View)
    requires Walk(n, START, trace, v) && Walk(n, v, script, w)
    ensures Walk(n, START, trace + script, w) && After(START, trace + script, |trace + script|) == w
  {
    WalkThen(n, START, trace, v, script, w);
    WalkEnd(n, START, trace + script, w);
  }

  /** What the flag tells: it is up exactly if none of the template commands is outstanding,
      and down exactly if all of them are. */
  lemma FlagTells(n: nat, v: View, updated: bool)
    requires n > 0 && Ready(n, v, updated)
    ensures updated <==> v.out == []
    ensures !updated <==> |v.out| == n
  {
    hide AreDfts, IsEnergy;
  }

  lemma BetweenIs(v: Variant, n: nat, s: View, started: bool)
    ensures Between(v, n, s, started) <==> if v.Standalone? && started then Ready(n, s, false) else s.out == []
  {
    hide Ready;
  }

  lemma NothingReady(s: View)
    requires s.out == []
    ensures Ready(0, s, false)
  {
    assert Cmds(0, Tmpl, TmplDft, TmplCmd) == [];
  }

  /** A tracker, with the flag of the stand-alone variant and the steps it has taken: commands
      put, waits, and its own computations, in order. */
  class Tracker {
    const variant: Variant
    const channels: nat
    var updated: bool
    var trace: seq<Step>
    ghost var started: bool

    /** Memory and commands outstanding after the steps taken. */
    ghost function Now(): View
      reads this
    {
      After(START, trace, |trace|)
    }

    /** Every step so far kept the discipline of the service and used true transforms. */
    ghost predicate Sound()
      reads this
    {
      Walk(channels, START, trace, Now())
    }

    /** Nothing is outstanding. */
    ghost predicate Idle()
      reads this
    {
      Sound() && Now().out == []
    }

    /** The flag is truthful: the template transforms are outstanding, or in place, as it says,
        and when it is up the energy is that of the template too. */
    ghost predicate FlagTrue(flag: bool)
      reads this
    {
      Sound() && Ready(channels, Now(), flag)
    }

    /** Between calls: a stand-alone tracker that has been initialised has its flag down,
        truthfully; otherwise nothing is outstanding. */
    ghost predicate Valid()
      reads this
    {
      !updated && if variant.Standalone? && started then FlagTrue(updated) else Idle()
    }

    constructor (variant: Variant, channels: nat)
      ensures this.variant == variant && this.channels == channels && !updated && trace == []
      ensures Valid() && !started
    {
      this.variant, this.channels := variant, channels;
      updated, trace := false, [];
      started := false;
      new;
      WalkNothing(channels, START);
    }

    method QueueChannels(src: Bank, dst: Bank, site: Site)
      modifies this`trace
      ensures trace == old(trace) + PutAll(channels, src, dst, site)
    {
      for i := 0 to channels
        invariant trace == old(trace) + PutAll(i, src, dst, site)
      {
        trace := trace + [Put(ChannelCmd(src, dst, site, i))];
      }
    }

    method WaitAll()
      modifies this`trace
      ensures trace == old(trace) + Pends(channels)
    {
      for i := 0 to channels
        invariant trace == old(trace) + Pends(i)
      {
        trace := trace + [Pend];
      }
    }

    method ExtractFeatures(frame: nat, scale: nat)
      modifies this`trace
      ensures trace == old(trace) + Extract(channels, frame, scale)
    {
      for i := 0 to channels
        invariant trace == old(trace) + Extract(i, frame, scale)
      {
        trace := trace + [Compute(Chan(Feat, i), Features(frame, scale, i), [Cell(Roi)])];
      }
    }

    method FinishKernel(site: Site, kind: Kind, args: seq<Buffer>)
      modifies this`trace
      ensures trace == old(trace) + KernelTail(site, kind, args)
    {
      trace := trace + [Put(Cmd(C2R, Cell(Sum), Cell(Kernel), Record(site, 0)))];
      trace := trace + [Pend];
      trace := trace + [Release(Single(Sum))];
      trace := trace + [Compute(Cell(Kernel), kind, args)];
      trace := trace + [Release(Records(site))];
    }

    method CreateGaussianPeak()
      modifies this`trace
      requires trace == []
      ensures trace == GaussianScript() && Idle()
    {
      trace := trace + [Compute(Cell(Prob), GaussianPeak, [])];
      trace := trace + [Put(Cmd(R2R, Cell(Prob), Cell(Prob), Record(PeakCmd, 0)))];
      trace := trace + [Pend];
      trace := trace + [Release(Records(PeakCmd))];
      assert trace == GaussianScript();
      hide Walk, After;
      ghost var w := WalkGaussian(channels);
      WalkEnd(channels, START, trace, w);
    }

    /** The channels of the features are transformed into the template's buffer. */
    method GaussAutoCorrelation()
      modifies this`trace
      ensures trace == old(trace) + AutoScript(variant, channels)
      ensures old(Idle()) ==> Idle()
    {
      ghost var v := Now();
      hide PutAll, MaybeZero, KernelTail, Walk, After;
      ghost var a := MaybeZero(variant.MultiCore?);
      trace := trace + MaybeZero(variant.MultiCore?);
      QueueChannels(Feat, TmplDft, AutoCmd);
      Assoc(old(trace), a, PutAll(channels, Feat, TmplDft, AutoCmd));
      a := a + PutAll(channels, Feat, TmplDft, AutoCmd);
      trace := trace + [EnergyStep(channels, TmplSum, Feat)];
      Assoc(old(trace), a, [EnergyStep(channels, TmplSum, Feat)]);
      a := a + [EnergyStep(channels, TmplSum, Feat)];
      trace := trace + MaybeZero(variant.Standalone?);
      Assoc(old(trace), a, MaybeZero(variant.Standalone?));
      a := a + MaybeZero(variant.Standalone?);
      MultiplySquares();
      Assoc(old(trace), a, AddSquares(channels));
      a := a + AddSquares(channels);
      FinishKernel(AutoCmd, ExpAuto, [Cell(Kernel), Cell(TmplSum)]);
      Assoc(old(trace), a, KernelTail(AutoCmd, ExpAuto, [Cell(Kernel), Cell(TmplSum)]));
      if old(Idle()) {
        hide AutoScript;
        ghost var w := LeadsAuto(variant, channels, v);
        LeadsWalk(channels, v, AutoScript(variant, channels), w, AUTO);
        TraceGrows(channels, old(trace), v, AutoScript(variant, channels), w);
      }
    }

    method MultiplySquares()
      modifies this`trace
      ensures trace == old(trace) + AddSquares(channels)
    {
      for i := 0 to channels
        invariant trace == old(trace) + AddSquares(i)
      {
        trace := trace + [Pend];
        trace := trace + [Compute(Cell(Sum), AddSquare, [Cell(Sum), Chan(TmplDft, i)])];
      }
    }

    /** The stand-alone tracker waits for the template only while the flag is down. */
    method WaitForTemplate()
      modifies this
      ensures trace == old(trace) + WaitTemplate(variant, channels, old(updated))
      ensures updated == (variant.Standalone? || old(updated)) && started == old(started)
    {
      hide Pends;
      ghost var e, f := EnergyStep(channels, TmplSum, Tmpl), EnergyStep(channels, FeatSum, Feat);
      hide EnergyStep;
      if variant.MultiCore? {
        trace := trace + [EnergyStep(channels, TmplSum, Tmpl)];
        trace := trace + [EnergyStep(channels, FeatSum, Feat)];
        Assoc(old(trace), [e], [f]);
        WaitAll();
        Assoc(old(trace), [e] + [f], Pends(channels));
      } else {
        trace := trace + [EnergyStep(channels, FeatSum, Feat)];
        if !updated {
          trace := trace + [EnergyStep(channels, TmplSum, Tmpl)];
          Assoc(old(trace), [f], [e]);
          WaitAll();
          Assoc(old(trace), [f] + [e], Pends(channels));
          updated := true;
        }
      }
    }

    method MultiplyProducts()
      modifies this`trace
      ensures trace == old(trace) + AddProducts(channels)
    {
      for i := 0 to channels
        invariant trace == old(trace) + AddProducts(i)
      {
        trace := trace + [Pend];
        trace := trace + [ProductStep(i)];
      }
    }

    method GaussCrossCorrelation()
      modifies this
      ensures trace == old(trace) + CrossScript(variant, channels, old(updated))
      ensures updated == (variant.Standalone? || old(updated)) && started == old(started)
      ensures old(FlagTrue(updated) && (variant.MultiCore? ==> !updated)) ==> FlagTrue(true)
    {
      ghost var v := Now();
      hide PutAll, MaybeZero, KernelTail, WaitTemplate, Walk, After, Ready;
      ghost var a := MaybeZero(variant.MultiCore?);
      trace := trace + MaybeZero(variant.MultiCore?);
      QueueChannels(Feat, FeatHat, CrossCmd);
      Assoc(old(trace), a, PutAll(channels, Feat, FeatHat, CrossCmd));
      a := a + PutAll(channels, Feat, FeatHat, CrossCmd);
      WaitForTemplate();
      Assoc(old(trace), a, WaitTemplate(variant, channels, old(updated)));
      a := a + WaitTemplate(variant, channels, old(updated));
      trace := trace + MaybeZero(variant.Standalone?);
      Assoc(old(trace), a, MaybeZero(variant.Standalone?));
      a := a + MaybeZero(variant.Standalone?);
      MultiplyProducts();
      Assoc(old(trace), a, AddProducts(channels));
      a := a + AddProducts(channels);
      trace := trace + [Release(Buffers(FeatHat))];
      Assoc(old(trace), a, [Release(Buffers(FeatHat))]);
      a := a + [Release(Buffers(FeatHat))];
      FinishKernel(CrossCmd, ExpCross, [Cell(Kernel), Cell(TmplSum), Cell(FeatSum)]);
      Assoc(old(trace), a, KernelTail(CrossCmd, ExpCross, [Cell(Kernel), Cell(TmplSum), Cell(FeatSum)]));
      if old(FlagTrue(updated) && (variant.MultiCore? ==> !updated)) {
        hide CrossScript;
        ghost var w := LeadsCross(variant, channels, v, old(updated));
        LeadsWalk(channels, v, CrossScript(variant, channels, old(updated)), w, CROSS);
        TraceGrows(channels, old(trace), v, CrossScript(variant, channels, old(updated)), w);
      }
    }

    method BlendTemplate(first: bool)
      modifies this`trace
      ensures trace == old(trace) + BlendAll(channels, first)
    {
      for i := 0 to channels
        invariant trace == old(trace) + BlendAll(i, first)
      {
        trace := trace + [Compute(Chan(Tmpl, i), Blend(first), [Chan(Tmpl, i), Chan(Feat, i)])];
      }
    }

    method LearnFromFeatures(first: bool)
      modifies this`trace
      ensures trace == old(trace) + Learn(channels, first)
    {
      hide BlendAll;
      trace := trace + [Compute(Cell(NewAlpha), Divide, [Cell(Prob), Cell(Kernel)])];
      trace := trace + [Release(Single(Kernel))];
      trace := trace + [Compute(Cell(Alpha), Blend(first), [Cell(Alpha), Cell(NewAlpha)])];
      trace := trace + [Release(Single(NewAlpha))];
      ghost var a := [Compute(Cell(NewAlpha), Divide, [Cell(Prob), Cell(Kernel)])] + [Release(Single(Kernel))]
                     + [Compute(Cell(Alpha), Blend(first), [Cell(Alpha), Cell(NewAlpha)])] +
                         [Release(Single(NewAlpha))];
      assert trace == old(trace) + a;
      BlendTemplate(first);
      Assoc(old(trace), a, BlendAll(channels, first));
    }

    /** Training lowers the flag: the template's transform has to be waited for again. */
    method Train(first: bool)
      modifies this
      ensures trace == old(trace) + TrainScript(variant, channels, first)
      ensures updated == (variant.MultiCore? && old(updated)) && started == old(started)
      ensures old(Idle()) ==> if variant.Standalone? then FlagTrue(updated) else Idle()
    {
      ghost var v := Now();
      hide AutoScript, Learn, PutAll, Walk, After, Ready;
      GaussAutoCorrelation();
      ghost var a := AutoScript(variant, channels);
      trace := trace + [Put(Cmd(R2R, Cell(Kernel), Cell(Kernel), Record(TrainCmd, 0)))] + [Pend];
      Assoc(old(trace), a, PutAndWait(R2R, Kernel, Kernel, TrainCmd));
      a := a + PutAndWait(R2R, Kernel, Kernel, TrainCmd);
      LearnFromFeatures(first);
      Assoc(old(trace), a, Learn(channels, first));
      a := a + Learn(channels, first);
      if variant.Standalone? {
        QueueChannels(Tmpl, TmplDft, TmplCmd);
        updated := false;
      }
      Assoc(old(trace), a, QueueTemplate(variant, channels));
      a := a + QueueTemplate(variant, channels);
      assert trace == old(trace) + a;
      trace := trace + [Release(Records(TrainCmd))];
      Assoc(old(trace), a, [Release(Records(TrainCmd))]);
      if old(Idle()) {
        hide TrainScript;
        ghost var w := LeadsTrain(variant, channels, v, first);
        LeadsWalk(channels, v, TrainScript(variant, channels, first), w, TRAIN);
        TraceGrows(channels, old(trace), v, TrainScript(variant, channels, first), w);
      }
    }

    method Detect(scale: nat)
      modifies this
      ensures trace == old(trace) + DetectScript(variant, channels, old(updated), scale)
      ensures updated == (variant.Standalone? || old(updated)) && started == old(started)
      ensures old(FlagTrue(updated) && (variant.MultiCore? ==> !updated)) ==> FlagTrue(true)
    {
      ghost var v := Now();
      hide CrossScript, AfterCross, Walk, After, Ready;
      GaussCrossCorrelation();
      trace := trace + AfterCross(scale);
      Assoc(old(trace), CrossScript(variant, channels, old(updated)), AfterCross(scale));
      if old(FlagTrue(updated) && (variant.MultiCore? ==> !updated)) {
        hide DetectScript;
        ghost var w := LeadsDetect(variant, channels, v, old(updated), scale);
        LeadsWalk(channels, v, DetectScript(variant, channels, old(updated), scale), w, DETECT);
        TraceGrows(channels, old(trace), v, DetectScript(variant, channels, old(updated), scale), w);
      }
    }

    method Initialise(frame: nat)
      modifies this
      ensures trace == old(trace) + InitScript(variant, channels, frame)
      ensures updated == (variant.MultiCore? && old(updated)) && started
      ensures old(Valid()) ==> Valid()
    {
      ghost var v := Now();
      hide TrainScript, Extract, MaybeDrain, Walk, After, Ready;
      ghost var a := [Compute(Cell(Roi), GivenRoi(frame), [])];
      trace := trace + [Compute(Cell(Roi), GivenRoi(frame), [])];
      ExtractFeatures(frame, 0);
      Assoc(old(trace), a, Extract(channels, frame, 0));
      a := a + Extract(channels, frame, 0);
      trace := trace + MaybeDrain(variant);
      Assoc(old(trace), a, MaybeDrain(variant));
      a := a + MaybeDrain(variant);
      Train(true);
      Assoc(old(trace), a, TrainScript(variant, channels, true));
      a := a + TrainScript(variant, channels, true);
      trace := trace + [Release(Buffers(Feat))];
      Assoc(old(trace), a, [Release(Buffers(Feat))]);
      started := true;
      if old(Valid()) {
        hide InitScript;
        BetweenIs(variant, channels, v, old(started));
        ghost var w := LeadsInit(variant, channels, v, frame, old(started));
        TraceGrows(channels, old(trace), v, InitScript(variant, channels, frame), w);
        BetweenIs(variant, channels, w, true);
      }
    }

    method Look(frame: nat, scale: nat)
      modifies this
      ensures trace == old(trace) + LookScript(variant, channels, frame, old(updated), scale)
      ensures updated == (variant.Standalone? || old(updated)) && started == old(started)
    {
      hide Extract, DetectScript;
      ExtractFeatures(frame, scale);
      Detect(scale);
      Assoc(old(trace), Extract(channels, frame, scale), DetectScript(variant, channels, old(updated), scale));
    }

    /** The multi-core tracker queues its template, the stand-alone one looks at three scales. */
    method DetectIn(frame: nat)
      requires !updated
      modifies this
      ensures trace == old(trace) + DetectionScript(variant, channels, frame) && updated == variant.Standalone?
      ensures started == old(started)
    {
      hide PutAll, LookScript;
      if variant.MultiCore? {
        QueueChannels(Tmpl, TmplDft, TmplCmd);
        Look(frame, 0);
        Assoc(old(trace), PutAll(channels, Tmpl, TmplDft, TmplCmd), LookScript(variant, channels, frame, false, 0));
      } else {
        Look(frame, 0);
        Look(frame, 1);
        ghost var a := LookScript(variant, channels, frame, false, 0);
        Assoc(old(trace), a, LookScript(variant, channels, frame, true, 1));
        a := a + LookScript(variant, channels, frame, true, 1);
        Look(frame, 2);
        Assoc(old(trace), a, LookScript(variant, channels, frame, true, 2));
      }
    }

    /** A stand-alone tracker with channels has to have been initialised. */
    method UpdateWith(frame: nat)
      requires !updated
      modifies this
      ensures trace == old(trace) + UpdateScript(variant, channels, frame) && !updated
      ensures variant.MultiCore? || old(started) || channels == 0 ==> started && (old(Valid()) ==> Valid())
      ensures !(variant.MultiCore? || old(started) || channels == 0) ==> !started
    {
      ghost var v := Now();
      hide Extract, DetectionScript, TrainScript, Walk, After, Ready;
      ghost var a := DetectionScript(variant, channels, frame);
      DetectIn(frame);
      trace := trace + [Compute(Cell(Roi), Locate, [Cell(Roi), Cell(Best)])];
      Assoc(old(trace), a, [Compute(Cell(Roi), Locate, [Cell(Roi), Cell(Best)])]);
      a := a + [Compute(Cell(Roi), Locate, [Cell(Roi), Cell(Best)])];
      ExtractFeatures(frame, 3);
      Assoc(old(trace), a, Extract(channels, frame, 3));
      a := a + Extract(channels, frame, 3);
      Train(false);
      Assoc(old(trace), a, TrainScript(variant, channels, false));
      a := a + TrainScript(variant, channels, false);
      trace := trace + [Release(Buffers(Feat))];
      Assoc(old(trace), a, [Release(Buffers(Feat))]);
      if variant.MultiCore? || started || channels == 0 {
        started := true;
        if old(Valid()) {
          hide UpdateScript;
          BetweenIs(variant, channels, v, old(started));
          if channels == 0 && !old(started) {
            NothingReady(v);
          }
          ghost var w := LeadsUpdate(variant, channels, v, frame);
          TraceGrows(channels, old(trace), v, UpdateScript(variant, channels, frame), w);
          BetweenIs(variant, channels, w, true);
        }
      }
    }
  }

  /** A tracker's life.  Its trace is the program the theorems about runs speak of; and if it is
      called as it should be its flag is truthful after every call, and the service can run it. */
  method Track(variant: Variant, channels: nat, calls: seq<Call>) returns (t: Tracker)
    ensures fresh(t) && t.variant == variant && t.channels == channels
    ensures t.trace == Program(variant, channels, calls) && !t.updated
    ensures WellCalled(variant, channels, calls) ==> t.Valid() && Disciplined(START, t.trace)
    ensures WellCalled(variant, channels, calls) && calls != [] ==> t.started
  {
    hide InitScript, UpdateScript, GaussianScript, Ready, Walk, After;
    t := new Tracker(variant, channels);
    t.CreateGaussianPeak();
    assert calls[..0] == [];
    for k := 0 to |calls|
      invariant fresh(t) && t.variant == variant && t.channels == channels && !t.updated
      invariant t.trace == Program(variant, channels, calls[..k])
      invariant WellCalled(variant, channels, calls) ==> t.Valid() && t.started == (k > 0)
    {
      match calls[k] {
        case Init(frame) => t.Initialise(frame);
        case Update(frame) => t.UpdateWith(frame);
      }
      assert calls[..k + 1][..k] == calls[..k];
    }
    assert calls[..|calls|] == calls;
    if WellCalled(variant, channels, calls) {
      WalkIsDisciplined(channels, t.trace, t.Now());
    }
  }
}
