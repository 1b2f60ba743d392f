/** What the trackers compute.

    The algorithm is written down once without buffers, commands, waits or flags, as functions
    on terms: kernels of features, coefficients, the template, the region.  Both trackers are
    proved to leave exactly these terms in their memory, call after call, and so does every
    run on the service that is calm. */
module TrackerValues {
  import opened Shared
  import opened FftService
  import opened Trackers
  import opened ServiceCalls
  import opened TrackerCalls

  // ----- The algorithm -----

  /** Each channel transformed. */
  function Dfts(vs: seq<Value>): (ds: seq<Value>)
    ensures |ds| == |vs|
  {
    seq(|vs|, i requires 0 <= i < |vs| => Transform(R2C, vs[i]))
  }

  /** From zero on, the square of each channel in turn. */
  function SumOfSquares(ds: seq<Value>): Value
    decreases |ds|
  {
    if ds == [] then Computed(Zero, []) else Computed(AddSquare, [SumOfSquares(Butlast(ds)), ds[|ds| - 1]])
  }

  /** From zero on, the product of each channel with the same channel of the other in turn. */
  function SumOfProducts(ts: seq<Value>, zs: seq<Value>): Value
    requires |ts| == |zs|
    decreases |ts|
  {
    if ts == [] then Computed(Zero, [])
    else Computed(AddProduct, [SumOfProducts(Butlast(ts), Butlast(zs)), ts[|ts| - 1], zs[|zs| - 1]])
  }

  function AutoKernel(x: seq<Value>): Value {
    Computed(ExpAuto, [Transform(C2R, SumOfSquares(Dfts(x))), Computed(Energy, x)])
  }

  function CrossKernel(t: seq<Value>, z: seq<Value>): Value
    requires |t| == |z|
  {
    Computed(ExpCross, [Transform(C2R, SumOfProducts(Dfts(t), Dfts(z))), Computed(Energy, t), Computed(Energy, z)])
  }

  /** What a tracker knows between calls. */
  datatype Model = Model(tmpl: seq<Value>, alpha: Value, prob: Value, roi: Value)

  /** The features of a region of a frame. */
  function Extracted(n: nat, roi: Value, frame: nat, scale: nat): (x: seq<Value>)
    ensures |x| == n
  {
    seq(n, i requires 0 <= i < n => Computed(Features(frame, scale, i), [roi]))
  }

  function Blended(first: bool, t: seq<Value>, x: seq<Value>): (r: seq<Value>)
    requires |t| == |x|
    ensures |r| == |t|
  {
    seq(|t|, i requires 0 <= i < |t| => Computed(Blend(first), [t[i], x[i]]))
  }

  /** The coefficients that answer the features with the peak. */
  function Coefficients(prob: Value, x: seq<Value>): Value {
    Computed(Divide, [prob, Transform(R2R, AutoKernel(x))])
  }

  function Trained(s: Model, x: seq<Value>, first: bool): Model
    requires |x| == |s.tmpl|
  {
    s.(tmpl := Blended(first, s.tmpl, x), alpha := Computed(Blend(first), [s.alpha, Coefficients(s.prob, x)]))
  }

  /** The response to features, and where it peaks. */
  function PeakOf(s: Model, z: seq<Value>): Value
    requires |z| == |s.tmpl|
  {
    Computed(FindPeak,
             [Transform(C2R, Computed(Times, [Transform(R2CN, CrossKernel(s.tmpl, z)), s.alpha]))])
  }

  function Look(s: Model, frame: nat, scale: nat): Value {
    PeakOf(s, Extracted(|s.tmpl|, s.roi, frame, scale))
  }

  /** One look at the frame, or the best of three. */
  function BestOf(v: Variant, s: Model, frame: nat): Value {
    var one := Computed(Choose(0), [Look(s, frame, 0)]);
    if v.MultiCore? then one
    else Computed(Choose(2), [Computed(Choose(1), [one, Look(s, frame, 1)]), Look(s, frame, 2)])
  }

  /** A call: where the object is, and what is learned from there. */
  function Called(v: Variant, s: Model, call: Call): Model {
    match call
    case Init(frame) =>
      var at := s.(roi := Computed(GivenRoi(frame), []));
      Trained(at, Extracted(|s.tmpl|, at.roi, frame, 0), true)
    case Update(frame) =>
      var at := s.(roi := Computed(Locate, [s.roi, BestOf(v, s, frame)]));
      Trained(at, Extracted(|s.tmpl|, at.roi, frame, 3), false)
  }

  /** A tracker's life. */
  function Life(v: Variant, n: nat, calls: seq<Call>): (s: Model)
    ensures |s.tmpl| == n
    decreases |calls|
  {
    if calls == [] then
      Model(seq(n, i requires 0 <= i < n => Unset), Unset, Transform(R2R, Computed(GaussianPeak, [])), Unset)
    else Called(v, Life(v, n, Butlast(calls)), calls[|calls| - 1])
  }

  // ----- The memory after a script -----

  function MemAfter(m: Memory, script: seq<Step>): Memory
    decreases |script|
  {
    if script == [] then m else StepMem(script[|script| - 1], MemAfter(m, Butlast(script)))
  }

  lemma {:induction false} MemIs(v: View, script: seq<Step>)
    ensures After(v, script, |script|).mem == MemAfter(v.mem, script)
    decreases |script|
  {
    if script != [] {
      var shorter := Butlast(script);
      MemIs(v, shorter);
      AfterPrefix(v, shorter, [script[|script| - 1]], |shorter|);
      assert script == shorter + [script[|script| - 1]];
    }
  }

  lemma {:induction false} MemThen(m: Memory, a: seq<Step>, b: seq<Step>)
    ensures MemAfter(m, a + b) == MemAfter(MemAfter(m, a), b)
    decreases |b|
  {
    if b == [] {
      assert a + b == a;
    } else {
      MemThen(m, a, Butlast(b));
      assert Butlast(a + b) == a + Butlast(b);
    }
  }

  /** The script makes w of m and touches nothing else. */
  ghost predicate Makes(m: Memory, script: seq<Step>, w: Memory, touched: set<Area>) {
    w == MemAfter(m, script) && Frame(m, w, touched)
  }

  lemma Link(m: Memory, a: seq<Step>, u: Memory, some: set<Area>, b: seq<Step>, w: Memory, more: set<Area>,
             touched: set<Area>)
    requires Makes(m, a, u, some) && Makes(u, b, w, more) && some <= touched && more <= touched
    ensures Makes(m, a + b, w, touched)
  {
    hide Frame;
    MemThen(m, a, b);
    FrameMore(m, u, some, touched);
    FrameMore(u, w, more, touched);
    FrameThen(m, u, w, touched);
  }

  lemma OneStep(m: Memory, st: Step)
    ensures MemAfter(m, [st]) == StepMem(st, m)
  {
    assert Butlast([st]) == [];
    assert MemAfter(m, []) == m;
  }

  /** One computation. */
  lemma MakesCompute(m: Memory, st: Step) returns (w: Memory)
    requires st.Compute?
    ensures Makes(m, [st], w, {AreaOf(st.dst)}) && At(w, st.dst) == Computed(st.kind, AllAt(m, st.args))
  {
    OneStep(m, st);
    w := StepMem(st, m);
    ComputeFrame(m, st);
  }

  predicate Idles(st: Step) {
    st.Pend? || st.Release? || st.Drain?
  }

  lemma {:induction false} MakesNothing(m: Memory, script: seq<Step>)
    requires forall k :: 0 <= k < |script| ==> Idles(script[k])
    ensures Makes(m, script, m, {})
    decreases |script|
  {
    if script != [] {
      MakesNothing(m, Butlast(script));
    }
  }

  lemma {:induction false} PendsIdle(n: nat)
    ensures forall k :: 0 <= k < |Pends(n)| ==> Idles(Pends(n)[k])
  {
    if n > 0 {
      PendsIdle(n - 1);
    }
  }

  /** A command put and waited for: its destination holds the transform. */
  lemma MakesPutAndWait(m: Memory, op: Op, src: Name, dst: Name, site: Site) returns (w: Memory)
    ensures Makes(m, PutAndWait(op, src, dst, site), w, {InCell(src), InCell(dst)})
    ensures At(w, Cell(dst)) == Transform(op, At(m, Cell(src)))
    ensures !op.C2R? && src != dst ==> At(w, Cell(src)) == At(m, Cell(src))
  {
    var c := Cmd(op, Cell(src), Cell(dst), Record(site, 0));
    OneStep(m, Put(c));
    w := Exec(c, m);
    ExecFrame(c, m);
    MakesNothing(w, [Pend]);
    Link(m, [Put(c)], w, {AreaOf(Middle(c)), AreaOf(c.dst)}, [Pend], w, {}, {InCell(src), InCell(dst)});
  }

  /** The values of a bank. */
  function Vals(m: Memory, n: nat, bank: Bank): (vs: seq<Value>)
    ensures |vs| == n && forall i :: 0 <= i < n ==> vs[i] == At(m, Chan(bank, i))
  {
    AllAt(m, Channels(n, bank))
  }

  lemma ValsKept(m: Memory, w: Memory, touched: set<Area>, n: nat, bank: Bank)
    requires Frame(m, w, touched) && InBank(bank) !in touched
    ensures Vals(w, n, bank) == Vals(m, n, bank)
  {
    hide AllAt;
    forall i | 0 <= i < n
      ensures Vals(w, n, bank)[i] == Vals(m, n, bank)[i]
    {
      assert At(w, Chan(bank, i)) == At(m, Chan(bank, i));
    }
  }

  /** A bank put channel by channel: the other one holds the transforms. */
  lemma {:induction false} MakesPutAll(m: Memory, n: nat, src: Bank, dst: Bank, site: Site) returns (w: Memory)
    requires src != dst
    ensures Makes(m, PutAll(n, src, dst, site), w, {InBank(dst)})
    ensures Vals(w, n, dst) == Dfts(Vals(m, n, src))
  {
    if n == 0 {
      w := m;
      assert Vals(w, 0, dst) == [];
    } else {
      var u := MakesPutAll(m, n - 1, src, dst, site);
      var c := ChannelCmd(src, dst, site, n - 1);
      w := Exec(c, u);
      OneStep(u, Put(c));
      ExecFrame(c, u);
      Link(m, PutAll(n - 1, src, dst, site), u, {InBank(dst)}, [Put(c)], w, {InBank(dst)}, {InBank(dst)});
      assert At(u, Chan(src, n - 1)) == At(m, Chan(src, n - 1));
      forall i | 0 <= i < n
        ensures Vals(w, n, dst)[i] == Dfts(Vals(m, n, src))[i]
      {
        if i < n - 1 {
          ExecLeaves(c, u, Chan(dst, i));
          assert Vals(u, n - 1, dst)[i] == Dfts(Vals(m, n - 1, src))[i];
        }
      }
    }
  }

  lemma Kept(m: Memory, script: seq<Step>, w: Memory, touched: set<Area>, b: Buffer)
    requires Makes(m, script, w, touched) && AreaOf(b) !in touched
    ensures At(w, b) == At(m, b)
  {
  }

  lemma ValsShorter(m: Memory, n: nat, bank: Bank)
    requires n > 0
    ensures var vs := Vals(m, n, bank); Butlast(vs) == Vals(m, n - 1, bank) && vs[n - 1] == At(m, Chan(bank, n - 1))
  {
    hide AllAt;
  }

  lemma One(m: Memory, b: Buffer)
    ensures AllAt(m, [b]) == [At(m, b)]
  {
  }

  lemma Two(m: Memory, b: Buffer, c: Buffer)
    ensures AllAt(m, [b, c]) == [At(m, b), At(m, c)]
  {
  }

  lemma Three(m: Memory, b: Buffer, c: Buffer, d: Buffer)
    ensures AllAt(m, [b, c, d]) == [At(m, b), At(m, c), At(m, d)]
  {
  }

  /** Wait for a completion and add to the sum. */
  lemma MakesAddend(m: Memory, script: seq<Step>, u: Memory, st: Step) returns (w: Memory)
    requires Makes(m, script, u, {InCell(Sum)}) && st.Compute? && st.dst == Cell(Sum)
    ensures Makes(m, script + [Pend] + [st], w, {InCell(Sum)})
    ensures At(w, Cell(Sum)) == Computed(st.kind, AllAt(u, st.args))
  {
    hide Makes, AllAt, At;
    MakesNothing(u, [Pend]);
    Link(m, script, u, {InCell(Sum)}, [Pend], u, {}, {InCell(Sum)});
    w := MakesCompute(u, st);
    Link(m, script + [Pend], u, {InCell(Sum)}, [st], w, {InCell(Sum)}, {InCell(Sum)});
  }

  lemma {:induction false} MakesSquares(m: Memory, n: nat) returns (w: Memory)
    requires At(m, Cell(Sum)) == Computed(Zero, [])
    ensures Makes(m, AddSquares(n), w, {InCell(Sum)})
    ensures At(w, Cell(Sum)) == SumOfSquares(Vals(m, n, TmplDft))
  {
    if n == 0 {
      w := m;
      MakesNothing(m, []);
      FrameMore(m, m, {}, {InCell(Sum)});
    } else {
      hide Makes, AllAt, At, Transform;
      var u := MakesSquares(m, n - 1);
      var b := Chan(TmplDft, n - 1);
      Kept(m, AddSquares(n - 1), u, {InCell(Sum)}, b);
      var st := Compute(Cell(Sum), AddSquare, [Cell(Sum), b]);
      w := MakesAddend(m, AddSquares(n - 1), u, st);
      ValsShorter(m, n, TmplDft);
      Two(u, Cell(Sum), b);
    }
  }

  lemma {:induction false} MakesProducts(m: Memory, n: nat) returns (w: Memory)
    requires At(m, Cell(Sum)) == Computed(Zero, [])
    ensures Makes(m, AddProducts(n), w, {InCell(Sum)})
    ensures At(w, Cell(Sum)) == SumOfProducts(Vals(m, n, TmplDft), Vals(m, n, FeatHat))
  {
    if n == 0 {
      w := m;
      MakesNothing(m, []);
      FrameMore(m, m, {}, {InCell(Sum)});
    } else {
      hide Makes, AllAt, At, Transform, Vals, SumOfProducts;
      var u := MakesProducts(m, n - 1);
      var b, c := Chan(TmplDft, n - 1), Chan(FeatHat, n - 1);
      Kept(m, AddProducts(n - 1), u, {InCell(Sum)}, b);
      Kept(m, AddProducts(n - 1), u, {InCell(Sum)}, c);
      w := MakesAddend(m, AddProducts(n - 1), u, ProductStep(n - 1));
      Three(u, Cell(Sum), b, c);
      OneMoreProduct(m, n);
    }
  }

  lemma OneMoreProduct(m: Memory, n: nat)
    requires n > 0
    ensures SumOfProducts(Vals(m, n, TmplDft), Vals(m, n, FeatHat)) ==
            Computed(AddProduct, [SumOfProducts(Vals(m, n - 1, TmplDft), Vals(m, n - 1, FeatHat)),
                                  At(m, Chan(TmplDft, n - 1)), At(m, Chan(FeatHat, n - 1))])
  {
    hide AllAt, At;
    ValsShorter(m, n, TmplDft);
    ValsShorter(m, n, FeatHat);
  }

  lemma {:induction false} MakesBlend(m: Memory, n: nat, first: bool) returns (w: Memory)
    ensures Makes(m, BlendAll(n, first), w, {InBank(Tmpl)})
    ensures Vals(w, n, Tmpl) == Blended(first, Vals(m, n, Tmpl), Vals(m, n, Feat))
    ensures forall i: nat :: i >= n ==> At(w, Chan(Tmpl, i)) == At(m, Chan(Tmpl, i))
  {
    if n == 0 {
      w := m;
      MakesNothing(m, []);
      FrameMore(m, m, {}, {InBank(Tmpl)});
    } else {
      hide Makes, AllAt, At, Vals, Blended;
      var u := MakesBlend(m, n - 1, first);
      var b, c := Chan(Tmpl, n - 1), Chan(Feat, n - 1);
      Kept(m, BlendAll(n - 1, first), u, {InBank(Tmpl)}, c);
      var st := Compute(b, Blend(first), [b, c]);
      w := MakesCompute(u, st);
      Link(m, BlendAll(n - 1, first), u, {InBank(Tmpl)}, [st], w, {InBank(Tmpl)}, {InBank(Tmpl)});
      Two(u, b, c);
      OnlyOne(u, st, w);
      BlendMore(m, u, w, n, first);
    }
  }

  /** One computation changes one buffer. */
  lemma OnlyOne(u: Memory, st: Step, w: Memory)
    requires st.Compute? && w == MemAfter(u, [st])
    ensures forall b :: b != st.dst ==> At(w, b) == At(u, b)
  {
    OneStep(u, st);
  }

  lemma BlendMore(m: Memory, u: Memory, w: Memory, n: nat, first: bool)
    requires n > 0 && Vals(u, n - 1, Tmpl) == Blended(first, Vals(m, n - 1, Tmpl), Vals(m, n - 1, Feat))
    requires forall i: nat :: i < n - 1 ==> At(w, Chan(Tmpl, i)) == At(u, Chan(Tmpl, i))
    requires At(w, Chan(Tmpl, n - 1)) == Computed(Blend(first), [At(m, Chan(Tmpl, n - 1)), At(m, Chan(Feat, n - 1))])
    ensures Vals(w, n, Tmpl) == Blended(first, Vals(m, n, Tmpl), Vals(m, n, Feat))
  {
    hide AllAt, At;
    forall i | 0 <= i < n
      ensures Vals(w, n, Tmpl)[i] == Blended(first, Vals(m, n, Tmpl), Vals(m, n, Feat))[i]
    {
      if i < n - 1 {
        assert Vals(u, n - 1, Tmpl)[i] == Blended(first, Vals(m, n - 1, Tmpl), Vals(m, n - 1, Feat))[i];
      }
    }
  }

  lemma {:induction false} MakesExtract(m: Memory, n: nat, frame: nat, scale: nat) returns (w: Memory)
    ensures Makes(m, Extract(n, frame, scale), w, {InBank(Feat)})
    ensures Vals(w, n, Feat) == Extracted(n, At(m, Cell(Roi)), frame, scale)
  {
    if n == 0 {
      w := m;
    } else {
      var u := MakesExtract(m, n - 1, frame, scale);
      var st := Compute(Chan(Feat, n - 1), Features(frame, scale, n - 1), [Cell(Roi)]);
      hide Makes, AllAt, At;
      w := MakesCompute(u, st);
      OnlyOne(u, st, w);
      Link(m, Extract(n - 1, frame, scale), u, {InBank(Feat)}, [st], w, {InBank(Feat)}, {InBank(Feat)});
      Kept(m, Extract(n - 1, frame, scale), u, {InBank(Feat)}, Cell(Roi));
      One(u, Cell(Roi));
      forall i | 0 <= i < n
        ensures Vals(w, n, Feat)[i] == Extracted(n, At(m, Cell(Roi)), frame, scale)[i]
      {
        if i < n - 1 {
          assert Vals(u, n - 1, Feat)[i] == Extracted(n - 1, At(m, Cell(Roi)), frame, scale)[i];
        }
      }
    }
  }

  lemma MakesZero(m: Memory, zero: bool) returns (w: Memory)
    ensures Makes(m, MaybeZero(zero), w, {InCell(Sum)})
    ensures zero ==> At(w, Cell(Sum)) == Computed(Zero, [])
    ensures !zero ==> w == m
  {
    if zero {
      w := MakesCompute(m, Compute(Cell(Sum), Zero, []));
    } else {
      w := m;
    }
  }

  lemma MakesEnergy(m: Memory, n: nat, dst: Name, bank: Bank) returns (w: Memory)
    ensures Makes(m, [EnergyStep(n, dst, bank)], w, {InCell(dst)})
    ensures At(w, Cell(dst)) == Computed(Energy, Vals(m, n, bank))
  {
    w := MakesCompute(m, EnergyStep(n, dst, bank));
  }

  // ----- Kernels, training and detection -----

  lemma MakesTail(m: Memory, site: Site, kind: Kind, more: seq<Buffer>) returns (w: Memory)
    requires forall b :: b in more ==> b.Cell? && b.name != Sum && b.name != Kernel
    ensures Makes(m, KernelTail(site, kind, [Cell(Kernel)] + more), w, TAIL)
    ensures At(w, Cell(Kernel)) == Computed(kind, [Transform(C2R, At(m, Cell(Sum)))] + AllAt(m, more))
  {
    hide Makes;
    var a := PutAndWait(C2R, Sum, Kernel, site);
    var u := MakesPutAndWait(m, C2R, Sum, Kernel, site);
    MakesNothing(u, [Release(Single(Sum))]);
    Link(m, a, u, TAIL, [Release(Single(Sum))], u, {}, TAIL);
    a := a + [Release(Single(Sum))];
    var args := [Cell(Kernel)] + more;
    w := MakesCompute(u, Compute(Cell(Kernel), kind, args));
    forall i | 0 <= i < |args|
      ensures AllAt(u, args)[i] == ([Transform(C2R, At(m, Cell(Sum)))] + AllAt(m, more))[i]
    {
      if i > 0 {
        assert args[i] in more;
        Kept(m, a, u, TAIL, args[i]);
      }
    }
    assert AllAt(u, args) == [Transform(C2R, At(m, Cell(Sum)))] + AllAt(m, more);
    Link(m, a, u, TAIL, [Compute(Cell(Kernel), kind, args)], w, {InCell(Kernel)}, TAIL);
    a := a + [Compute(Cell(Kernel), kind, args)];
    MakesNothing(w, [Release(Records(site))]);
    Link(m, a, w, TAIL, [Release(Records(site))], w, {}, TAIL);
  }

  lemma Vals1(m: Memory, script: seq<Step>, w: Memory, touched: set<Area>, n: nat, bank: Bank)
    requires Makes(m, script, w, touched) && InBank(bank) !in touched
    ensures Vals(w, n, bank) == Vals(m, n, bank)
  {
    ValsKept(m, w, touched, n, bank);
  }

  /** The auto-correlation leaves the kernel of the features. */
  lemma MakesAuto(v: Variant, m: Memory, n: nat) returns (w: Memory)
    ensures Makes(m, AutoScript(v, n), w, AUTO) && At(w, Cell(Kernel)) == AutoKernel(Vals(m, n, Feat))
  {
    hide Makes, KernelTail, AddSquares, PutAll, MaybeZero, EnergyStep, Vals, AllAt, At, Transform, SumOfSquares, Dfts;
    var x := Vals(m, n, Feat);
    var a := MaybeZero(v.MultiCore?);
    var m1 := MakesZero(m, v.MultiCore?);
    Vals1(m, a, m1, {InCell(Sum)}, n, Feat);
    var m2 := MakesPutAll(m1, n, Feat, TmplDft, AutoCmd);
    Vals1(m1, PutAll(n, Feat, TmplDft, AutoCmd), m2, {InBank(TmplDft)}, n, Feat);
    Kept(m1, PutAll(n, Feat, TmplDft, AutoCmd), m2, {InBank(TmplDft)}, Cell(Sum));
    Link(m, a, m1, {InCell(Sum)}, PutAll(n, Feat, TmplDft, AutoCmd), m2, {InBank(TmplDft)}, AUTO);
    a := a + PutAll(n, Feat, TmplDft, AutoCmd);
    var e := [EnergyStep(n, TmplSum, Feat)];
    var m3 := MakesEnergy(m2, n, TmplSum, Feat);
    Kept(m2, e, m3, {InCell(TmplSum)}, Cell(Sum));
    Vals1(m2, e, m3, {InCell(TmplSum)}, n, TmplDft);
    Link(m, a, m2, AUTO, e, m3, {InCell(TmplSum)}, AUTO);
    a := a + e;
    var m4 := MakesZero(m3, v.Standalone?);
    Kept(m3, MaybeZero(v.Standalone?), m4, {InCell(Sum)}, Cell(TmplSum));
    Vals1(m3, MaybeZero(v.Standalone?), m4, {InCell(Sum)}, n, TmplDft);
    Link(m, a, m3, AUTO, MaybeZero(v.Standalone?), m4, {InCell(Sum)}, AUTO);
    a := a + MaybeZero(v.Standalone?);
    var m5 := MakesSquares(m4, n);
    Kept(m4, AddSquares(n), m5, {InCell(Sum)}, Cell(TmplSum));
    Link(m, a, m4, AUTO, AddSquares(n), m5, {InCell(Sum)}, AUTO);
    a := a + AddSquares(n);
    w := MakesTail(m5, AutoCmd, ExpAuto, [Cell(TmplSum)]);
    assert [Cell(Kernel)] + [Cell(TmplSum)] == [Cell(Kernel), Cell(TmplSum)];
    One(m5, Cell(TmplSum));
    Link(m, a, m5, AUTO, KernelTail(AutoCmd, ExpAuto, [Cell(Kernel), Cell(TmplSum)]), w, TAIL, AUTO);
  }

  /** The template's transform is in place; if the flag is up, its energy is too. */
  ghost predicate TemplateIn(m: Memory, n: nat, updated: bool) {
    && Vals(m, n, TmplDft) == Dfts(Vals(m, n, Tmpl))
    && (updated ==> At(m, Cell(TmplSum)) == Computed(Energy, Vals(m, n, Tmpl)))
  }

  lemma TemplateKept(m: Memory, script: seq<Step>, w: Memory, touched: set<Area>, n: nat, updated: bool)
    requires Makes(m, script, w, touched) && TemplateIn(m, n, updated)
    requires {InBank(Tmpl), InBank(TmplDft), InCell(TmplSum)} !! touched
    ensures TemplateIn(w, n, updated)
  {
    Vals1(m, script, w, touched, n, Tmpl);
    Vals1(m, script, w, touched, n, TmplDft);
    Kept(m, script, w, touched, Cell(TmplSum));
  }

  /** Both energies are in place, whether or not the flag was up. */
  lemma MakesWait(v: Variant, m: Memory, n: nat, updated: bool) returns (w: Memory)
    requires (v.MultiCore? ==> !updated) && TemplateIn(m, n, updated)
    ensures Makes(m, WaitTemplate(v, n, updated), w, SUMS)
    ensures At(w, Cell(TmplSum)) == Computed(Energy, Vals(m, n, Tmpl))
    ensures At(w, Cell(FeatSum)) == Computed(Energy, Vals(m, n, Feat))
  {
    hide Makes, EnergyStep, Vals, AllAt, At, Transform, Dfts;
    var e, f := [EnergyStep(n, TmplSum, Tmpl)], [EnergyStep(n, FeatSum, Feat)];
    if v.Standalone? && updated {
      w := MakesEnergy(m, n, FeatSum, Feat);
      Kept(m, f, w, {InCell(FeatSum)}, Cell(TmplSum));
      MakesNothing(m, []);
      Link(m, [], m, {}, f, w, {InCell(FeatSum)}, SUMS);
      assert [] + f == f;
    } else {
      var first, second := if v.MultiCore? then TmplSum else FeatSum, if v.MultiCore? then FeatSum else TmplSum;
      var u := MakesEnergy(m, n, first, if v.MultiCore? then Tmpl else Feat);
      var a, b := if v.MultiCore? then e else f, if v.MultiCore? then f else e;
      Vals1(m, a, u, {InCell(first)}, n, Tmpl);
      Vals1(m, a, u, {InCell(first)}, n, Feat);
      w := MakesEnergy(u, n, second, if v.MultiCore? then Feat else Tmpl);
      Kept(u, b, w, {InCell(second)}, Cell(first));
      Link(m, a, u, {InCell(first)}, b, w, {InCell(second)}, SUMS);
      PendsIdle(n);
      MakesNothing(w, Pends(n));
      Link(m, a + b, w, SUMS, Pends(n), w, {}, SUMS);
    }
  }

  /** The cross-correlation leaves the kernel of the template and the features: the sum that is
      transformed back has one product for each channel. */
  lemma MakesCross(v: Variant, m: Memory, n: nat, updated: bool) returns (w: Memory)
    requires (v.MultiCore? ==> !updated) && TemplateIn(m, n, updated)
    ensures Makes(m, CrossScript(v, n, updated), w, CROSS) && TemplateIn(w, n, true)
    ensures At(w, Cell(Kernel)) == CrossKernel(Vals(m, n, Tmpl), Vals(m, n, Feat))
  {
    hide Makes, KernelTail, AddProducts, PutAll, MaybeZero, WaitTemplate, Vals, AllAt, At, Transform, SumOfProducts,
        Dfts;
    var zero := MaybeZero(v.MultiCore?);
    var a := zero;
    var m1 := MakesZero(m, v.MultiCore?);
    Vals1(m, a, m1, {InCell(Sum)}, n, Feat);
    Vals1(m, a, m1, {InCell(Sum)}, n, Tmpl);
    TemplateKept(m, a, m1, {InCell(Sum)}, n, updated);
    var p := PutAll(n, Feat, FeatHat, CrossCmd);
    var m2 := MakesPutAll(m1, n, Feat, FeatHat, CrossCmd);
    Vals1(m1, p, m2, {InBank(FeatHat)}, n, Feat);
    Vals1(m1, p, m2, {InBank(FeatHat)}, n, Tmpl);
    TemplateKept(m1, p, m2, {InBank(FeatHat)}, n, updated);
    Kept(m1, p, m2, {InBank(FeatHat)}, Cell(Sum));
    Link(m, a, m1, {InCell(Sum)}, p, m2, {InBank(FeatHat)}, CROSS);
    a := a + p;
    var m3 := MakesWait(v, m2, n, updated);
    CrossWaited(v, m2, m3, n, updated);
    Link(m, a, m2, CROSS, WaitTemplate(v, n, updated), m3, SUMS, CROSS);
    a := a + WaitTemplate(v, n, updated);
    var m4 := MakesZero(m3, v.Standalone?);
    CrossKept(m3, MaybeZero(v.Standalone?), m4, n);
    Vals1(m3, MaybeZero(v.Standalone?), m4, {InCell(Sum)}, n, FeatHat);
    Vals1(m3, MaybeZero(v.Standalone?), m4, {InCell(Sum)}, n, TmplDft);
    Link(m, a, m3, CROSS, MaybeZero(v.Standalone?), m4, {InCell(Sum)}, CROSS);
    a := a + MaybeZero(v.Standalone?);
    var m5 := MakesProducts(m4, n);
    CrossKept(m4, AddProducts(n), m5, n);
    Link(m, a, m4, CROSS, AddProducts(n), m5, {InCell(Sum)}, CROSS);
    a := a + AddProducts(n);
    MakesNothing(m5, [Release(Buffers(FeatHat))]);
    Link(m, a, m5, CROSS, [Release(Buffers(FeatHat))], m5, {}, CROSS);
    a := a + [Release(Buffers(FeatHat))];
    w := MakesTail(m5, CrossCmd, ExpCross, [Cell(TmplSum), Cell(FeatSum)]);
    assert [Cell(Kernel)] + [Cell(TmplSum), Cell(FeatSum)] == [Cell(Kernel), Cell(TmplSum), Cell(FeatSum)];
    var tail := KernelTail(CrossCmd, ExpCross, [Cell(Kernel), Cell(TmplSum), Cell(FeatSum)]);
    Two(m5, Cell(TmplSum), Cell(FeatSum));
    TemplateKept(m5, tail, w, TAIL, n, true);
    Link(m, a, m5, CROSS, tail, w, TAIL, CROSS);
  }

  /** What the wait for the template leaves alone. */
  lemma CrossWaited(v: Variant, m: Memory, w: Memory, n: nat, updated: bool)
    requires Makes(m, WaitTemplate(v, n, updated), w, SUMS) && TemplateIn(m, n, updated)
    requires At(w, Cell(TmplSum)) == Computed(Energy, Vals(m, n, Tmpl))
    ensures TemplateIn(w, n, true) && Vals(w, n, FeatHat) == Vals(m, n, FeatHat)
    ensures Vals(w, n, TmplDft) == Vals(m, n, TmplDft) && At(w, Cell(Sum)) == At(m, Cell(Sum))
  {
    hide WaitTemplate, Dfts, Makes, Vals, At;
    var a := WaitTemplate(v, n, updated);
    Vals1(m, a, w, SUMS, n, Tmpl);
    Vals1(m, a, w, SUMS, n, TmplDft);
    Vals1(m, a, w, SUMS, n, FeatHat);
    Kept(m, a, w, SUMS, Cell(Sum));
  }

  /** Only the sum changes. */
  lemma CrossKept(m: Memory, a: seq<Step>, w: Memory, n: nat)
    requires Makes(m, a, w, {InCell(Sum)}) && TemplateIn(m, n, true)
    ensures TemplateIn(w, n, true)
    ensures At(w, Cell(TmplSum)) == At(m, Cell(TmplSum)) && At(w, Cell(FeatSum)) == At(m, Cell(FeatSum))
  {
    TemplateKept(m, a, w, {InCell(Sum)}, n, true);
    Kept(m, a, w, {InCell(Sum)}, Cell(TmplSum));
    Kept(m, a, w, {InCell(Sum)}, Cell(FeatSum));
  }

  /** The memory holds what the algorithm says the tracker knows. */
  ghost predicate Shows(m: Memory, n: nat, s: Model) {
    && |s.tmpl| == n && Vals(m, n, Tmpl) == s.tmpl
    && At(m, Cell(Alpha)) == s.alpha && At(m, Cell(Prob)) == s.prob && At(m, Cell(Roi)) == s.roi
  }

  lemma ShowsKept(m: Memory, script: seq<Step>, w: Memory, touched: set<Area>, n: nat, s: Model)
    requires Makes(m, script, w, touched) && Shows(m, n, s)
    requires {InBank(Tmpl), InCell(Alpha), InCell(Prob), InCell(Roi)} !! touched
    ensures Shows(w, n, s)
  {
    Vals1(m, script, w, touched, n, Tmpl);
    Kept(m, script, w, touched, Cell(Alpha));
    Kept(m, script, w, touched, Cell(Prob));
    Kept(m, script, w, touched, Cell(Roi));
  }

  lemma MakesLearn(m: Memory, n: nat, first: bool) returns (w: Memory)
    ensures Makes(m, Learn(n, first), w, LEARN)
    ensures At(w, Cell(Alpha)) ==
            Computed(Blend(first), [At(m, Cell(Alpha)), Computed(Divide, [At(m, Cell(Prob)), At(m, Cell(Kernel))])])
    ensures Vals(w, n, Tmpl) == Blended(first, Vals(m, n, Tmpl), Vals(m, n, Feat))
  {
    hide Makes, Vals, AllAt, At, Blended, BlendAll;
    var st := Compute(Cell(NewAlpha), Divide, [Cell(Prob), Cell(Kernel)]);
    var a := [st];
    var m1 := MakesCompute(m, st);
    Two(m, Cell(Prob), Cell(Kernel));
    Kept(m, a, m1, {InCell(NewAlpha)}, Cell(Alpha));
    Vals1(m, a, m1, {InCell(NewAlpha)}, n, Tmpl);
    Vals1(m, a, m1, {InCell(NewAlpha)}, n, Feat);
    MakesNothing(m1, [Release(Single(Kernel))]);
    Link(m, a, m1, {InCell(NewAlpha)}, [Release(Single(Kernel))], m1, {}, LEARN);
    a := a + [Release(Single(Kernel))];
    st := Compute(Cell(Alpha), Blend(first), [Cell(Alpha), Cell(NewAlpha)]);
    var m2 := MakesCompute(m1, st);
    Two(m1, Cell(Alpha), Cell(NewAlpha));
    Vals1(m1, [st], m2, {InCell(Alpha)}, n, Tmpl);
    Vals1(m1, [st], m2, {InCell(Alpha)}, n, Feat);
    Link(m, a, m1, LEARN, [st], m2, {InCell(Alpha)}, LEARN);
    a := a + [st];
    MakesNothing(m2, [Release(Single(NewAlpha))]);
    Link(m, a, m2, LEARN, [Release(Single(NewAlpha))], m2, {}, LEARN);
    a := a + [Release(Single(NewAlpha))];
    w := MakesBlend(m2, n, first);
    Kept(m2, BlendAll(n, first), w, {InBank(Tmpl)}, Cell(Alpha));
    Link(m, a, m2, LEARN, BlendAll(n, first), w, {InBank(Tmpl)}, LEARN);
  }

  /** Training does what the algorithm says, and the stand-alone tracker puts the new template's
      transform in place. */
  lemma MakesTrain(v: Variant, m: Memory, n: nat, first: bool, s: Model) returns (w: Memory)
    requires Shows(m, n, s)
    ensures Makes(m, TrainScript(v, n, first), w, TRAIN)
    ensures Shows(w, n, Trained(s, Vals(m, n, Feat), first)) && (v.Standalone? ==> TemplateIn(w, n, false))
  {
    hide Makes, Vals, AllAt, At, AutoScript, Learn, QueueTemplate, AutoKernel, Transform, Dfts, Blended;
    var x := Vals(m, n, Feat);
    var a := AutoScript(v, n);
    var m1 := MakesAuto(v, m, n);
    ShowsKept(m, a, m1, AUTO, n, s);
    Vals1(m, a, m1, AUTO, n, Feat);
    var p := PutAndWait(R2R, Kernel, Kernel, TrainCmd);
    var m2 := MakesPutAndWait(m1, R2R, Kernel, Kernel, TrainCmd);
    assert {InCell(Kernel), InCell(Kernel)} == {InCell(Kernel)};
    hide PutAndWait;
    ShowsKept(m1, p, m2, {InCell(Kernel)}, n, s);
    Vals1(m1, p, m2, {InCell(Kernel)}, n, Feat);
    Link(m, a, m1, AUTO, p, m2, {InCell(Kernel)}, TRAIN);
    a := a + p;
    var m3 := MakesLearn(m2, n, first);
    Kept(m2, Learn(n, first), m3, LEARN, Cell(Prob));
    Kept(m2, Learn(n, first), m3, LEARN, Cell(Roi));
    var t := Trained(s, x, first);
    assert Shows(m3, n, t);
    Link(m, a, m2, TRAIN, Learn(n, first), m3, LEARN, TRAIN);
    a := a + Learn(n, first);
    var m4 := MakesQueue(v, m3, n, t);
    Link(m, a, m3, TRAIN, QueueTemplate(v, n), m4, {InBank(TmplDft)}, TRAIN);
    a := a + QueueTemplate(v, n);
    MakesNothing(m4, [Release(Records(TrainCmd))]);
    w := m4;
    Link(m, a, m4, TRAIN, [Release(Records(TrainCmd))], w, {}, TRAIN);
  }

  lemma MakesQueue(v: Variant, m: Memory, n: nat, s: Model) returns (w: Memory)
    requires Shows(m, n, s)
    ensures Makes(m, QueueTemplate(v, n), w, {InBank(TmplDft)})
    ensures Shows(w, n, s) && (v.Standalone? ==> TemplateIn(w, n, false))
  {
    hide Makes, Vals, At, Dfts;
    if v.Standalone? {
      w := MakesPutAll(m, n, Tmpl, TmplDft, TmplCmd);
      ShowsKept(m, QueueTemplate(v, n), w, {InBank(TmplDft)}, n, s);
    } else {
      w := m;
      MakesNothing(m, []);
      Link(m, [], m, {}, [], m, {}, {InBank(TmplDft)});
      assert [] + [] == QueueTemplate(v, n);
    }
  }

  lemma MakesAfterCross(m: Memory, scale: nat) returns (w: Memory)
    ensures Makes(m, AfterCross(scale), w, AFTER_CROSS)
    ensures var peak := Computed(FindPeak,
                                 [Transform(C2R,
                                     Computed(Times, [Transform(R2CN, At(m, Cell(Kernel))), At(m, Cell(Alpha))]))]);
      At(w, Cell(Best)) == Computed(Choose(scale), if scale == 0 then [peak] else [At(m, Cell(Best)), peak])
  {
    hide Makes, Vals, AllAt, At, Transform, PutAndWait;
    var a := PutAndWait(R2CN, Kernel, KernelHat, DetectCmd);
    var m1 := MakesPutAndWait(m, R2CN, Kernel, KernelHat, DetectCmd);
    Kept(m, a, m1, {InCell(Kernel), InCell(KernelHat)}, Cell(Alpha));
    Kept(m, a, m1, {InCell(Kernel), InCell(KernelHat)}, Cell(Best));
    var st := Compute(Cell(KernelHat), Times, [Cell(KernelHat), Cell(Alpha)]);
    var m2 := MakesCompute(m1, st);
    Two(m1, Cell(KernelHat), Cell(Alpha));
    Kept(m1, [st], m2, {InCell(KernelHat)}, Cell(Best));
    Link(m, a, m1, {InCell(Kernel), InCell(KernelHat)}, [st], m2, {InCell(KernelHat)}, AFTER_CROSS);
    a := a + [st];
    var p := PutAndWait(C2R, KernelHat, Kernel, DetectCmd);
    var m3 := MakesPutAndWait(m2, C2R, KernelHat, Kernel, DetectCmd);
    Kept(m2, p, m3, {InCell(KernelHat), InCell(Kernel)}, Cell(Best));
    Link(m, a, m2, AFTER_CROSS, p, m3, {InCell(KernelHat), InCell(Kernel)}, AFTER_CROSS);
    a := a + p;
    MakesNothing(m3, [Release(Single(KernelHat))]);
    Link(m, a, m3, AFTER_CROSS, [Release(Single(KernelHat))], m3, {}, AFTER_CROSS);
    a := a + [Release(Single(KernelHat))];
    st := Compute(Cell(Peak), FindPeak, [Cell(Kernel)]);
    var m4 := MakesCompute(m3, st);
    One(m3, Cell(Kernel));
    Kept(m3, [st], m4, {InCell(Peak)}, Cell(Best));
    Link(m, a, m3, AFTER_CROSS, [st], m4, {InCell(Peak)}, AFTER_CROSS);
    a := a + [st];
    MakesNothing(m4, [Release(Single(Kernel))]);
    Link(m, a, m4, AFTER_CROSS, [Release(Single(Kernel))], m4, {}, AFTER_CROSS);
    a := a + [Release(Single(Kernel))];
    MakesNothing(m4, [Release(Records(DetectCmd))]);
    Link(m, a, m4, AFTER_CROSS, [Release(Records(DetectCmd))], m4, {}, AFTER_CROSS);
    a := a + [Release(Records(DetectCmd))];
    st := Compute(Cell(Best), Choose(scale), ChooseArgs(scale));
    w := MakesCompute(m4, st);
    One(m4, Cell(Peak));
    Two(m4, Cell(Best), Cell(Peak));
    Link(m, a, m4, AFTER_CROSS, [st], w, {InCell(Best)}, AFTER_CROSS);
  }

  const LOOK := DETECT + {InBank(Feat)}

  /** A look at a frame compares its peak with the best so far. */
  lemma MakesLook(v: Variant, m: Memory, n: nat, frame: nat, updated: bool, scale: nat, s: Model) returns (w: Memory)
    requires (v.MultiCore? ==> !updated) && TemplateIn(m, n, updated) && Shows(m, n, s)
    ensures Makes(m, LookScript(v, n, frame, updated, scale), w, LOOK)
    ensures TemplateIn(w, n, true) && Shows(w, n, s)
    ensures At(w, Cell(Best)) ==
      Computed(Choose(scale),
          if scale == 0 then [Look(s, frame, scale)] else [At(m, Cell(Best)), Look(s, frame, scale)])
  {
    hide Makes, Vals, AllAt, At, Transform, CrossKernel, CrossScript, AfterCross, Extract, Dfts, Extracted;
    var a := Extract(n, frame, scale);
    var m1 := MakesExtract(m, n, frame, scale);
    TemplateKept(m, a, m1, {InBank(Feat)}, n, updated);
    ShowsKept(m, a, m1, {InBank(Feat)}, n, s);
    Kept(m, a, m1, {InBank(Feat)}, Cell(Best));
    var c := CrossScript(v, n, updated);
    var m2 := MakesCross(v, m1, n, updated);
    ShowsKept(m1, c, m2, CROSS, n, s);
    Kept(m1, c, m2, CROSS, Cell(Best));
    w := MakesAfterCross(m2, scale);
    TemplateKept(m2, AfterCross(scale), w, AFTER_CROSS, n, true);
    ShowsKept(m2, AfterCross(scale), w, AFTER_CROSS, n, s);
    Link(m1, c, m2, CROSS, AfterCross(scale), w, AFTER_CROSS, DETECT);
    Link(m, a, m1, {InBank(Feat)}, c + AfterCross(scale), w, DETECT, LOOK);
  }

  lemma MakesDetection(v: Variant, m: Memory, n: nat, frame: nat, s: Model) returns (w: Memory)
    requires Shows(m, n, s) && (v.Standalone? ==> TemplateIn(m, n, false))
    ensures Makes(m, DetectionScript(v, n, frame), w, LOOK + {InBank(TmplDft)})
    ensures Shows(w, n, s) && At(w, Cell(Best)) == BestOf(v, s, frame)
  {
    hide Makes, Vals, At, Look, LookScript, PutAll, Dfts;
    var all := LOOK + {InBank(TmplDft)};
    if v.MultiCore? {
      var p := PutAll(n, Tmpl, TmplDft, TmplCmd);
      var m1 := MakesPutAll(m, n, Tmpl, TmplDft, TmplCmd);
      ShowsKept(m, p, m1, {InBank(TmplDft)}, n, s);
      w := MakesLook(v, m1, n, frame, false, 0, s);
      Link(m, p, m1, {InBank(TmplDft)}, LookScript(v, n, frame, false, 0), w, LOOK, all);
    } else {
      var a := LookScript(v, n, frame, false, 0);
      var m1 := MakesLook(v, m, n, frame, false, 0, s);
      var m2 := MakesLook(v, m1, n, frame, true, 1, s);
      Link(m, a, m1, LOOK, LookScript(v, n, frame, true, 1), m2, LOOK, LOOK);
      a := a + LookScript(v, n, frame, true, 1);
      w := MakesLook(v, m2, n, frame, true, 2, s);
      Link(m, a, m2, LOOK, LookScript(v, n, frame, true, 2), w, LOOK, all);
    }
  }

  lemma ExtractTrain(v: Variant, m: Memory, n: nat, frame: nat, scale: nat, gap: seq<Step>, first: bool, s: Model)
    returns (w: Memory)
    requires Shows(m, n, s) && forall k :: 0 <= k < |gap| ==> Idles(gap[k])
    ensures var x := Extracted(n, s.roi, frame, scale);
      && w == MemAfter(m, Extract(n, frame, scale) + gap + TrainScript(v, n, first) + [Release(Buffers(Feat))])
      && Shows(w, n, Trained(s, x, first)) && (v.Standalone? ==> TemplateIn(w, n, false))
  {
    hide Vals, At, Extract, TrainScript, Extracted, Trained, Dfts;
    var a := Extract(n, frame, scale);
    var m1 := MakesExtract(m, n, frame, scale);
    ShowsKept(m, a, m1, {InBank(Feat)}, n, s);
    MakesNothing(m1, gap);
    MemThen(m, a, gap);
    a := a + gap;
    w := MakesTrain(v, m1, n, first, s);
    MemThen(m, a, TrainScript(v, n, first));
    a := a + TrainScript(v, n, first);
    MakesNothing(w, [Release(Buffers(Feat))]);
    MemThen(m, a, [Release(Buffers(Feat))]);
  }

  /** Only the region is set. */
  lemma SetsRoi(m: Memory, n: nat, st: Step, s: Model) returns (w: Memory)
    requires Shows(m, n, s) && st.Compute? && st.dst == Cell(Roi)
    ensures w == MemAfter(m, [st]) && Shows(w, n, s.(roi := Computed(st.kind, AllAt(m, st.args))))
  {
    w := MakesCompute(m, st);
    hide Makes, Vals, AllAt, At;
    Vals1(m, [st], w, {InCell(Roi)}, n, Tmpl);
    Kept(m, [st], w, {InCell(Roi)}, Cell(Alpha));
    Kept(m, [st], w, {InCell(Roi)}, Cell(Prob));
  }

  lemma MakesInit(v: Variant, m: Memory, n: nat, frame: nat, s: Model)
    requires Shows(m, n, s)
    ensures var w := MemAfter(m, InitScript(v, n, frame));
      Shows(w, n, Called(v, s, Init(frame))) && (v.Standalone? ==> TemplateIn(w, n, false))
  {
    hide Shows, TemplateIn, Vals, At, Extract, TrainScript, Extracted, Trained;
    var st := Compute(Cell(Roi), GivenRoi(frame), []);
    var m1 := SetsRoi(m, n, st, s);
    assert AllAt(m, []) == [];
    var at := s.(roi := Computed(GivenRoi(frame), []));
    assert |s.tmpl| == n by {
      ShowsSize(m, n, s);
    }
    var w := ExtractTrain(v, m1, n, frame, 0, MaybeDrain(v), true, at);
    var x, d, t, r := Extract(n, frame, 0), MaybeDrain(v), TrainScript(v, n, true), [Release(Buffers(Feat))];
    MemThen(m, [st], x + d + t + r);
    assert [st] + (x + d + t + r) == [st] + x + d + t + r;
  }

  lemma ShowsSize(m: Memory, n: nat, s: Model)
    requires Shows(m, n, s)
    ensures |s.tmpl| == n && At(m, Cell(Roi)) == s.roi
  {
  }

  lemma MakesUpdate(v: Variant, m: Memory, n: nat, frame: nat, s: Model)
    requires Shows(m, n, s) && (v.Standalone? ==> TemplateIn(m, n, false))
    ensures var w := MemAfter(m, UpdateScript(v, n, frame));
      Shows(w, n, Called(v, s, Update(frame))) && (v.Standalone? ==> TemplateIn(w, n, false))
  {
    hide Shows, TemplateIn, Vals, At, Extract, TrainScript, DetectionScript, Extracted, Trained, BestOf;
    var a := DetectionScript(v, n, frame);
    var m1 := MakesDetection(v, m, n, frame, s);
    ShowsSize(m1, n, s);
    var st := Compute(Cell(Roi), Locate, [Cell(Roi), Cell(Best)]);
    var m2 := SetsRoi(m1, n, st, s);
    Two(m1, Cell(Roi), Cell(Best));
    var at := s.(roi := Computed(Locate, [s.roi, BestOf(v, s, frame)]));
    var w := ExtractTrain(v, m2, n, frame, 3, [], false, at);
    var x, t, r := Extract(n, frame, 3), TrainScript(v, n, false), [Release(Buffers(Feat))];
    MemThen(m, a, [st]);
    MemThen(m, a + [st], x + [] + t + r);
    assert a + [st] + (x + [] + t + r) == a + [st] + x + t + r;
  }

  /** A call leaves what the algorithm says. */
  lemma MakesCall(v: Variant, m: Memory, n: nat, call: Call, s: Model)
    requires Shows(m, n, s) && (v.Standalone? && call.Update? ==> TemplateIn(m, n, false))
    ensures var w := MemAfter(m, CallScript(v, n, call));
      Shows(w, n, Called(v, s, call)) && (v.Standalone? ==> TemplateIn(w, n, false))
  {
    hide Shows, TemplateIn, MemAfter, InitScript, UpdateScript, Called;
    match call
    case Init(frame) => MakesInit(v, m, n, frame, s);
    case Update(frame) => MakesUpdate(v, m, n, frame, s);
  }

  // ----- A tracker's life -----

  lemma MakesGaussian(n: nat)
    ensures Shows(MemAfter(map[], GaussianScript()), n, Life(MultiCore, n, []))
  {
    var st := Compute(Cell(Prob), GaussianPeak, []);
    var m1 := MakesCompute(map[], st);
    assert AllAt(map[], []) == [];
    hide Vals, AllAt, At, Transform;
    var p := PutAndWait(R2R, Prob, Prob, PeakCmd);
    var m2 := MakesPutAndWait(m1, R2R, Prob, Prob, PeakCmd);
    assert {InCell(Prob), InCell(Prob)} == {InCell(Prob)};
    Link(map[], [st], m1, {InCell(Prob)}, p, m2, {InCell(Prob)}, {InCell(Prob)});
    MakesNothing(m2, [Release(Records(PeakCmd))]);
    Link(map[], [st] + p, m2, {InCell(Prob)}, [Release(Records(PeakCmd))], m2, {}, {InCell(Prob)});
    hide PutAndWait;
    NothingSet(n);
    Vals1(map[], GaussianScript(), m2, {InCell(Prob)}, n, Tmpl);
    Kept(map[], GaussianScript(), m2, {InCell(Prob)}, Cell(Alpha));
    Kept(map[], GaussianScript(), m2, {InCell(Prob)}, Cell(Roi));
  }

  lemma NothingSet(n: nat)
    ensures Vals(map[], n, Tmpl) == seq(n, i requires 0 <= i < n => Unset)
    ensures At(map[], Cell(Alpha)) == Unset && At(map[], Cell(Roi)) == Unset
  {
    var vs := Vals(map[], n, Tmpl);
    assert forall i :: 0 <= i < n ==> vs[i] == Unset;
  }

  lemma NoChannels(m: Memory)
    ensures TemplateIn(m, 0, false)
  {
  }

  /** However a tracker is called, as long as a stand-alone one with channels is initialised
      first: its program leaves in memory what the algorithm says. */
  lemma {:induction false} ProgramComputes(v: Variant, n: nat, calls: seq<Call>)
    requires WellCalled(v, n, calls)
    ensures var m := MemAfter(map[], Program(v, n, calls));
      Shows(m, n, Life(v, n, calls)) && (v.Standalone? && calls != [] ==> TemplateIn(m, n, false))
    decreases |calls|
  {
    hide Shows, TemplateIn, Called;
    if calls == [] {
      MakesGaussian(n);
    } else {
      var before, call := Butlast(calls), calls[|calls| - 1];
      ProgramComputes(v, n, before);
      var m := MemAfter(map[], Program(v, n, before));
      if n == 0 {
        NoChannels(m);
      }
      MakesCall(v, m, n, call, Life(v, n, before));
      MemThen(map[], Program(v, n, before), CallScript(v, n, call));
    }
  }

  /** A whole update: where the object is found, and how coefficients and template move there. */
  lemma UpdateIs(v: Variant, s: Model, frame: nat)
    ensures var t := Called(v, s, Update(frame));
      var x := Extracted(|s.tmpl|, t.roi, frame, 3);
      && t.roi == Computed(Locate, [s.roi, BestOf(v, s, frame)])
      && t.alpha == Computed(Blend(false), [s.alpha, Computed(Divide, [s.prob, Transform(R2R, AutoKernel(x))])])
      && |t.tmpl| == |s.tmpl| && t.prob == s.prob
      && forall i :: 0 <= i < |t.tmpl| ==> t.tmpl[i] == Computed(Blend(false), [s.tmpl[i], x[i]])
  {
  }

  // ----- On the service -----

  lemma ProgramView(v: Variant, n: nat, calls: seq<Call>, script: seq<Step>, k: nat)
    requires script == Program(v, n, calls) && k <= |calls|
    ensures var a := Program(v, n, calls[..k]);
      |a| <= |script| && After(START, script, |a|).mem == MemAfter(map[], a)
  {
    hide Program, MemAfter, After;
    ProgramBegins(v, n, calls, k);
    var a := Program(v, n, calls[..k]);
    assert script == a + script[|a|..];
    AfterPrefix(START, a, script[|a|..], |a|);
    MemIs(START, a);
  }

  lemma TemplateCmdsWrite(n: nat, d: Cmd)
    requires d in Cmds(n, Tmpl, TmplDft, TmplCmd)
    ensures !Writes(d, Cell(Alpha)) && !Writes(d, Cell(Prob)) && !Writes(d, Cell(Roi))
    ensures forall i: nat :: !Writes(d, Chan(Tmpl, i))
  {
  }

  lemma CallsBegin(v: Variant, n: nat, calls: seq<Call>, k: nat)
    requires WellCalled(v, n, calls) && k <= |calls|
    ensures WellCalled(v, n, calls[..k])
  {
  }

  /** Whenever the k-th call of a tracker has returned, in any calm run, whatever the other client
      does: template, coefficients and region are those of the algorithm. */
  lemma CallsCompute(v: Variant, n: nat, calls: seq<Call>, k: nat, scripts: seq<seq<Step>>, acts: seq<Action>, s: State,
                     i: Index)
    requires AllDisciplined(scripts) && scripts[i] == Program(v, n, calls) && WellCalled(v, n, calls) && k <= |calls|
    requires IsRun(scripts, acts, s, true) && Shape(scripts, s) && s.cores[i].pc == |Program(v, n, calls[..k])|
    ensures Shows(s.cores[i].mem, n, Life(v, n, calls[..k]))
  {
    hide AllDisciplined, IsRun, Program, Life, At, Vals;
    var a := Program(v, n, calls[..k]);
    var now := After(START, scripts[i], |a|);
    ProgramView(v, n, calls, scripts[i], k);
    CallsBegin(v, n, calls, k);
    ProgramComputes(v, n, calls[..k]);
    assert forall d :: d in now.out ==> d in Cmds(n, Tmpl, TmplDft, TmplCmd) by {
      OutAtReturn(v, n, calls, k, scripts[i]);
    }
    var m := s.cores[i].mem;
    forall b | b in [Cell(Alpha), Cell(Prob), Cell(Roi)] || (b.Chan? && b.bank == Tmpl)
      ensures At(m, b) == At(now.mem, b)
    {
      forall d | d in now.out
        ensures !Writes(d, b)
      {
        TemplateCmdsWrite(n, d);
      }
      StillThere(scripts, acts, s, i, b);
    }
    SameShown(m, now.mem, n, Life(v, n, calls[..k]));
  }

  lemma SameShown(m: Memory, w: Memory, n: nat, s: Model)
    requires Shows(w, n, s)
    requires forall b :: b in [Cell(Alpha), Cell(Prob), Cell(Roi)] || (b.Chan? && b.bank == Tmpl) ==>
             At(m, b) == At(w, b)
    ensures Shows(m, n, s)
  {
    assert Cell(Alpha) in [Cell(Alpha), Cell(Prob), Cell(Roi)] && Cell(Prob) in [Cell(Alpha), Cell(Prob), Cell(Roi)];
    assert Cell(Roi) in [Cell(Alpha), Cell(Prob), Cell(Roi)];
    hide At;
    forall i | 0 <= i < n
      ensures Vals(m, n, Tmpl)[i] == Vals(w, n, Tmpl)[i]
    {
      assert At(m, Chan(Tmpl, i)) == At(w, Chan(Tmpl, i));
    }
  }

  /** Nothing but template commands is outstanding when a call has returned. */
  lemma OutAtReturn(v: Variant, n: nat, calls: seq<Call>, k: nat, script: seq<Step>)
    requires script == Program(v, n, calls) && WellCalled(v, n, calls) && k <= |calls|
    ensures var a := Program(v, n, calls[..k]);
      |a| <= |script| && forall d :: d in After(START, script, |a|).out ==> d in Cmds(n, Tmpl, TmplDft, TmplCmd)
  {
    hide Program, Walk, AreDfts, IsEnergy;
    ProgramBegins(v, n, calls, k);
    var a := Program(v, n, calls[..k]);
    assert script == a + script[|a|..];
    AfterPrefix(START, a, script[|a|..], |a|);
    CallsBegin(v, n, calls, k);
    var w := WalkProgram(v, n, calls[..k]);
    WalkEnd(n, START, a, w);
  }

  /** Two multi-core trackers on one server, in any interleaving: each computes as if it were
      alone. */
  lemma TwoTrackersCompute(n0: nat, calls0: seq<Call>, n1: nat, calls1: seq<Call>, acts: seq<Action>, s: State,
                           k0: nat, k1: nat)
    requires IsRun([Program(MultiCore, n0, calls0), Program(MultiCore, n1, calls1)], acts, s, false)
    requires Shape([Program(MultiCore, n0, calls0), Program(MultiCore, n1, calls1)], s)
    requires k0 <= |calls0| && s.cores[0].pc == |Program(MultiCore, n0, calls0[..k0])|
    requires k1 <= |calls1| && s.cores[1].pc == |Program(MultiCore, n1, calls1[..k1])|
    ensures Shows(s.cores[0].mem, n0, Life(MultiCore, n0, calls0[..k0]))
    ensures Shows(s.cores[1].mem, n1, Life(MultiCore, n1, calls1[..k1]))
  {
    hide Program, Life, Shows, IsRun;
    var scripts := [Program(MultiCore, n0, calls0), Program(MultiCore, n1, calls1)];
    TwoTrackersAreCalm(n0, calls0, n1, calls1, acts, s);
    TwoTrackers(n0, calls0, n1, calls1);
    CallsCompute(MultiCore, n0, calls0, k0, scripts, acts, s, 0);
    CallsCompute(MultiCore, n1, calls1, k1, scripts, acts, s, 1);
  }

  /** A stand-alone tracker with the server quiet at its calls of init. */
  lemma StandaloneComputes(n: nat, calls: seq<Call>, acts: seq<Action>, s: State, k: nat)
    requires WellCalled(Standalone, n, calls) && k <= |calls|
    requires IsQuietRun([Program(Standalone, n, calls), []], [InitCalls(n, calls), {}], acts, s)
    requires |s.cores| == 2 && s.cores[0].pc == |Program(Standalone, n, calls[..k])|
    ensures Shows(s.cores[0].mem, n, Life(Standalone, n, calls[..k]))
  {
    hide Program, Life, Shows, IsQuietRun, InitCalls;
    var scripts := [Program(Standalone, n, calls), []];
    ProgramGuarded(n, calls);
    QuietRunIsCalm(scripts, [InitCalls(n, calls), {}], acts, s);
    DisciplinedExactly(Standalone, n, calls);
    Nobody();
    BothDisciplined(scripts[0], scripts[1]);
    CallsCompute(Standalone, n, calls, k, scripts, acts, s, 0);
  }
}
