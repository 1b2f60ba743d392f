/** When clients of the FFT service may drain, and where they wait in vain.

    A drain is harmless when nothing of its client is on its way at the moment it ends.  A
    caller cannot look at that moment, but it can look at the moment of the call: if only
    computations lie between the call and the drain, the one is quiet exactly if the other is
    bound to be. */
module ServiceCalls {
  import opened Shared
  import opened FftService

  // ----- From the call to the drain -----

  /** From state s the actions lead to state t. */
  ghost predicate Goes(scripts: seq<seq<Step>>, s: State, acts: seq<Action>, t: State)
    decreases |acts|
  {
    if acts == [] then Shape(scripts, s) && s == t
    else exists r :: Goes(scripts, s, Butlast(acts), r) && StepTo(scripts, r, acts[|acts| - 1], t, false)
  }

  /** How many commands the server takes. */
  function Takes(acts: seq<Action>): nat
    decreases |acts|
  {
    if acts == [] then 0 else Takes(Butlast(acts)) + (if acts[|acts| - 1].Take? then 1 else 0)
  }

  lemma TakesHigh(scripts: seq<seq<Step>>, s: State, a: Action)
    requires Shape(scripts, s) && Enabled(scripts, s, a) && (a.Take? ==> s.queues[0] != [])
    ensures var t := Apply(scripts, s, a);
      s.queues[1] <= t.queues[1] && |t.queues[0]| + (if a.Take? then 1 else 0) >= |s.queues[0]|
  {
    hide FirstPass, SecondPass, StepMem;
  }

  /** High priority first: a queued command of core 1 waits, besides the one in service, for
      those of core 1 in front of it only.  Up to then no command of core 2 is taken. */
  lemma {:induction false} HighPriorityFirst(scripts: seq<seq<Step>>, s: State, acts: seq<Action>, t: State)
    requires Shape(scripts, s) && Goes(scripts, s, acts, t) && Takes(acts) <= |s.queues[0]|
    ensures Shape(scripts, t) && s.queues[1] <= t.queues[1] && |t.queues[0]| + Takes(acts) >= |s.queues[0]|
    decreases |acts|
  {
    hide Apply, Enabled;
    if acts != [] {
      var a := acts[|acts| - 1];
      var r :| Goes(scripts, s, Butlast(acts), r) && StepTo(scripts, r, a, t, false);
      HighPriorityFirst(scripts, s, Butlast(acts), r);
      TakesHigh(scripts, r, a);
    }
  }

  /** Only computations from step e up to the drain at step k. */
  ghost predicate Guards(script: seq<Step>, e: nat, k: nat) {
    e <= k < |script| && script[k].Drain? && forall x: nat :: e <= x < k ==> script[x].Compute?
  }

  /** A client that puts nothing stays quiet. */
  lemma StaysQuiet(scripts: seq<seq<Step>>, s: State, a: Action, i: Index)
    requires Shape(scripts, s) && Enabled(scripts, s, a) && Quiet(s, i)
    requires a == Move(i) ==> !scripts[i][s.cores[i].pc].Put?
    ensures Quiet(Apply(scripts, s, a), i)
  {
    hide FirstPass, SecondPass, StepMem;
  }

  lemma StepByStep(scripts: seq<seq<Step>>, s: State, a: Action, i: Index)
    requires Shape(scripts, s) && Enabled(scripts, s, a)
    ensures var t := Apply(scripts, s, a);
      t.cores[i].pc == s.cores[i].pc || (a == Move(i) && t.cores[i].pc == s.cores[i].pc + 1)
  {
    hide FirstPass, SecondPass, StepMem;
  }

  lemma {:induction false} QuietUpTo(scripts: seq<seq<Step>>, s: State, acts: seq<Action>, t: State, i: Index, e: nat,
                                     k: nat)
    requires Shape(scripts, s) && s.cores[i].pc == e && Guards(scripts[i], e, k) && Quiet(s, i)
    requires Goes(scripts, s, acts, t) && |t.cores| == 2 && t.cores[i].pc <= k
    ensures Shape(scripts, t) && Quiet(t, i) && e <= t.cores[i].pc
    decreases |acts|
  {
    hide Quiet, Apply, Enabled;
    if acts != [] {
      var a := acts[|acts| - 1];
      var r :| Goes(scripts, s, Butlast(acts), r) && StepTo(scripts, r, a, t, false);
      StepByStep(scripts, r, a, i);
      QuietUpTo(scripts, s, Butlast(acts), r, i, e, k);
      StaysQuiet(scripts, r, a, i);
    }
  }

  lemma GoesOn(scripts: seq<seq<Step>>, s: State, acts: seq<Action>, r: State, a: Action) returns (more: seq<Action>)
    requires Goes(scripts, s, acts, r) && Shape(scripts, r) && Enabled(scripts, r, a)
    ensures Goes(scripts, s, more, Apply(scripts, r, a))
  {
    hide Apply, Enabled;
    more := acts + [a];
    assert Butlast(more) == acts;
    assert StepTo(scripts, r, a, Apply(scripts, r, a), false);
  }

  /** The drain at step k is about to end. */
  ghost predicate DrainEnding(t: State, i: Index, k: nat)
    requires |t.cores| == 2
  {
    t.cores[i].pc == k && t.cores[i].sem == 0
  }

  /** Nothing keeps the client from going on alone to the end of the drain. */
  lemma {:induction false} RushAhead(scripts: seq<seq<Step>>, s: State, acts: seq<Action>, r: State, i: Index, e: nat,
                                     k: nat)
    returns (more: seq<Action>, t: State)
    requires Goes(scripts, s, acts, r) && Shape(scripts, r) && Guards(scripts[i], e, k) && e <= r.cores[i].pc <= k
    ensures Goes(scripts, s, more, t) && Shape(scripts, t) && DrainEnding(t, i, k) && (Quiet(t, i) <==> Quiet(r, i))
    decreases k - r.cores[i].pc, r.cores[i].sem
  {
    hide StepMem, Goes;
    if DrainEnding(r, i, k) {
      more, t := acts, r;
    } else {
      more := GoesOn(scripts, s, acts, r, Move(i));
      var next := Apply(scripts, r, Move(i));
      more, t := RushAhead(scripts, s, more, next, i, e, k);
    }
  }

  /** Seen from the call: every way from it to the end of the drain is calm exactly if the
      client is quiet at the call. */
  lemma CallSafeExactly(scripts: seq<seq<Step>>, s: State, i: Index, e: nat, k: nat)
    requires Shape(scripts, s) && s.cores[i].pc == e && Guards(scripts[i], e, k)
    ensures Quiet(s, i) <==>
      forall acts, t :: Goes(scripts, s, acts, t) && Shape(scripts, t) && DrainEnding(t, i, k) ==>
             Calm(scripts, t, Move(i))
  {
    hide Quiet, Goes;
    if Quiet(s, i) {
      forall acts, t | Goes(scripts, s, acts, t) && Shape(scripts, t) && DrainEnding(t, i, k)
        ensures Calm(scripts, t, Move(i))
      {
        QuietUpTo(scripts, s, acts, t, i, e, k);
      }
    } else {
      StartsHere(scripts, s);
      var acts, t := RushAhead(scripts, s, [], s, i, e, k);
      assert !Calm(scripts, t, Move(i));
    }
  }

  lemma StartsHere(scripts: seq<seq<Step>>, s: State)
    requires Shape(scripts, s)
    ensures Goes(scripts, s, [], s)
  {
  }

  /** From a call that is not quiet the client can get past the drain with as many of its
      commands still at the server, or on their way back, as there were at the call: it counts
      none of them. */
  lemma BusyCallLosesCount(scripts: seq<seq<Step>>, s: State, i: Index, e: nat, k: nat)
    returns (acts: seq<Action>, t: State)
    requires Shape(scripts, s) && s.cores[i].pc == e && Guards(scripts[i], e, k) && !Quiet(s, i)
    ensures Goes(scripts, s, acts, t) && Shape(scripts, t) && t.cores[i].pc == k + 1
    ensures After(START, scripts[i], k + 1).out == [] && !Quiet(t, i)
  {
    hide Goes;
    StartsHere(scripts, s);
    var r;
    acts, r := RushAhead(scripts, s, [], s, i, e, k);
    acts := GoesOn(scripts, s, acts, r, Move(i));
    t := Apply(scripts, r, Move(i));
  }

  // ----- Runs that are quiet at the calls -----

  /** Every drain is reached by computations only from one of these steps. */
  ghost predicate AllGuarded(scripts: seq<seq<Step>>, entries: seq<set<nat>>) {
    && |scripts| == 2 && |entries| == 2
    && forall i: Index, k: nat :: k < |scripts[i]| && scripts[i][k].Drain? ==> GuardedAt(scripts[i], entries[i], k)
  }

  ghost predicate GuardedAt(script: seq<Step>, entries: set<nat>, k: nat) {
    exists e: nat :: e in entries && Guards(script, e, k)
  }

  /** A run in which a client is quiet whenever it takes one of these steps. */
  ghost predicate IsQuietRun(scripts: seq<seq<Step>>, entries: seq<set<nat>>, acts: seq<Action>, s: State)
    requires |entries| == 2
    decreases |acts|
  {
    if acts == [] then |scripts| == 2 && s == INITIAL
    else exists r ::
      IsQuietRun(scripts, entries, Butlast(acts), r) && QuietStep(scripts, entries, r, acts[|acts| - 1], s)
  }

  ghost predicate QuietStep(scripts: seq<seq<Step>>, entries: seq<set<nat>>, r: State, a: Action, s: State)
    requires |entries| == 2
  {
    StepTo(scripts, r, a, s, false) && (a.Move? && r.cores[a.i].pc in entries[a.i] ==> Quiet(r, a.i))
  }

  /** Between a call and its drain the client is quiet. */
  ghost predicate InStretch(scripts: seq<seq<Step>>, entries: seq<set<nat>>, s: State, i: Index)
    requires Shape(scripts, s) && |entries| == 2
  {
    forall e: nat, k: nat :: e in entries[i] && Guards(scripts[i], e, k) && e < s.cores[i].pc <= k ==> Quiet(s, i)
  }

  lemma StretchKept(scripts: seq<seq<Step>>, entries: seq<set<nat>>, r: State, a: Action, s: State, i: Index)
    requires Shape(scripts, r) && |entries| == 2 && InStretch(scripts, entries, r, i) &&
             QuietStep(scripts, entries, r, a, s)
    ensures InStretch(scripts, entries, s, i)
  {
    hide Quiet, Apply, Enabled;
    StepByStep(scripts, r, a, i);
    forall e: nat, k: nat | e in entries[i] && Guards(scripts[i], e, k) && e < s.cores[i].pc <= k
      ensures Quiet(s, i)
    {
      assert Quiet(r, i);
      StaysQuiet(scripts, r, a, i);
    }
  }

  /** Such a run is calm: it is enough to be quiet at the calls. */
  lemma {:induction false} QuietRunIsCalm(scripts: seq<seq<Step>>, entries: seq<set<nat>>, acts: seq<Action>, s: State)
    requires AllGuarded(scripts, entries) && IsQuietRun(scripts, entries, acts, s)
    ensures IsRun(scripts, acts, s, true) && Shape(scripts, s) && forall i: Index :: InStretch(scripts, entries, s, i)
    decreases |acts|
  {
    if acts != [] {
      hide AllGuarded, InStretch, Apply, Enabled, Quiet, QuietStep;
      var a := acts[|acts| - 1];
      var r :| IsQuietRun(scripts, entries, Butlast(acts), r) && QuietStep(scripts, entries, r, a, s);
      QuietRunIsCalm(scripts, entries, Butlast(acts), r);
      StepIsCalm(scripts, entries, r, a, s);
      forall i: Index
        ensures InStretch(scripts, entries, s, i)
      {
        StretchKept(scripts, entries, r, a, s, i);
      }
    }
  }

  lemma StepIsCalm(scripts: seq<seq<Step>>, entries: seq<set<nat>>, r: State, a: Action, s: State)
    requires AllGuarded(scripts, entries) && Shape(scripts, r) && QuietStep(scripts, entries, r, a, s)
    requires forall i: Index :: InStretch(scripts, entries, r, i)
    ensures StepTo(scripts, r, a, s, true) && Shape(scripts, s)
  {
    hide Quiet, Apply;
    if a.Move? && scripts[a.i][r.cores[a.i].pc].Drain? {
      var k := r.cores[a.i].pc;
      assert GuardedAt(scripts[a.i], entries[a.i], k);
      var e: nat :| e in entries[a.i] && Guards(scripts[a.i], e, k);
      assert InStretch(scripts, entries, r, a.i);
    }
  }

  // ----- A wait for nothing -----

  ghost predicate NoDrain(script: seq<Step>) {
    forall k: nat :: k < |script| ==> !script[k].Drain?
  }

  /** Where nobody drains every run is calm. */
  lemma {:induction false} RunIsCalm(scripts: seq<seq<Step>>, acts: seq<Action>, s: State)
    requires IsRun(scripts, acts, s, false) && |scripts| == 2 && forall i: Index :: NoDrain(scripts[i])
    ensures IsRun(scripts, acts, s, true)
    decreases |acts|
  {
    if acts != [] {
      hide Apply, Enabled, Quiet;
      var a := acts[|acts| - 1];
      var r :| IsRun(scripts, Butlast(acts), r, false) && StepTo(scripts, r, a, s, false);
      RunIsCalm(scripts, Butlast(acts), r);
      assert scripts == [scripts[0], scripts[1]];
      NoDrainIsCalm(scripts[0], scripts[1], r, a);
      assert StepTo(scripts, r, a, s, true);
    }
  }

  /** The script p begins with a and then waits, with nothing outstanding. */
  ghost predicate EndlessWait(p: seq<Step>, a: seq<Step>) {
    && |a| < |p| && p[..|a|] == a && p[|a|].Pend?
    && Disciplined(START, a) && NoDrain(a) && After(START, a, |a|).out == []
  }

  lemma SameStep(p: seq<Step>, a: seq<Step>, other: seq<Step>, r: State, act: Action)
    requires EndlessWait(p, a) && Shape([a, other], r) && Enabled([p, other], r, act)
    requires act == Move(0) ==> r.cores[0].pc < |a|
    ensures Shape([p, other], r) && Enabled([a, other], r, act) &&
            Apply([a, other], r, act) == Apply([p, other], r, act)
  {
    hide Disciplined, After, NoDrain, FirstPass, SecondPass, StepMem;
    assert act == Move(0) ==> p[r.cores[0].pc] == p[..|a|][r.cores[0].pc];
  }

  /** In no run does the client get past that wait. */
  lemma {:induction false} NeverPast(p: seq<Step>, a: seq<Step>, other: seq<Step>, acts: seq<Action>, s: State)
    requires EndlessWait(p, a) && Disciplined(START, other) && NoDrain(other) && IsRun([p, other], acts, s, false)
    ensures IsRun([a, other], acts, s, true) && Shape([a, other], s)
    decreases |acts|
  {
    hide Disciplined, After, Apply, Enabled, Quiet;
    if acts != [] {
      var act := acts[|acts| - 1];
      var r :| IsRun([p, other], Butlast(acts), r, false) && StepTo([p, other], r, act, s, false);
      NeverPast(p, a, other, Butlast(acts), r);
      if act == Move(0) && r.cores[0].pc == |a| {
        NothingToWaitFor(p, a, other, Butlast(acts), r);
      }
      SameStep(p, a, other, r, act);
      NoDrainIsCalm(a, other, r, act);
      assert StepTo([a, other], r, act, s, true);
    }
  }

  lemma NoDrainIsCalm(a: seq<Step>, other: seq<Step>, r: State, act: Action)
    requires NoDrain(a) && NoDrain(other) && Shape([a, other], r) && Enabled([a, other], r, act)
    ensures Calm([a, other], r, act)
  {
    hide Quiet;
  }

  lemma NothingToWaitFor(p: seq<Step>, a: seq<Step>, other: seq<Step>, acts: seq<Action>, r: State)
    requires EndlessWait(p, a) && Disciplined(START, other) && IsRun([a, other], acts, r, true)
    requires Shape([a, other], r) && Shape([p, other], r) && r.cores[0].pc == |a|
    ensures !Enabled([p, other], r, Move(0))
  {
    BothDisciplined(a, other);
    hide Disciplined, IsRun, AllDisciplined, After;
    assert [a, other][0] == a;
    WaitedMeansQuiet([a, other], acts, r, 0);
  }

  lemma BothDisciplined(a: seq<Step>, other: seq<Step>)
    requires Disciplined(START, a) && Disciplined(START, other)
    ensures AllDisciplined([a, other])
  {
    hide Disciplined;
  }

  /** And every run that cannot be extended ends there. */
  lemma EndsWaiting(p: seq<Step>, a: seq<Step>, other: seq<Step>, acts: seq<Action>, s: State)
    requires EndlessWait(p, a) && Disciplined(START, other) && NoDrain(other) && IsRun([p, other], acts, s, false)
    requires Shape([p, other], s) && forall act :: !Enabled([p, other], s, act)
    ensures s.cores[0].pc == |a|
  {
    NeverPast(p, a, other, acts, s);
    BothDisciplined(a, other);
    forall act
      ensures !Enabled([a, other], s, act)
    {
      assert !Enabled([p, other], s, act);
      assert act == Move(0) && s.cores[0].pc < |a| ==> p[s.cores[0].pc] == p[..|a|][s.cores[0].pc];
    }
    hide Disciplined, IsRun, AllDisciplined, After, Enabled;
    RunKeepsInv([a, other], acts, s);
    StuckMeansEnded([a, other], s);
    assert [a, other][0] == a;
  }
}
