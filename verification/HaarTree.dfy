/** The walk over a tree of cascade stages.

    Stages are linked by three indices: the first child, the next sibling and the parent.  The
    walk goes down where a stage passes and otherwise on to the next sibling, of the stage or
    of its nearest ancestor that has one.  It uses no stack; the proof keeps one. */
module HaarTree {

  datatype Option<T> = None | Some(value: T)

  /** The links of a stage. */
  datatype Links = Links(child: Option<nat>, next: Option<nat>, parent: Option<nat>)

  /** A stage with its subtrees, as the links are meant. */
  datatype Tree = Node(stage: nat, kids: seq<Tree>)

  // ----- What is to be decided -----

  /** Some path from the root of the tree down to a leaf passes at every stage. */
  predicate Accepts(pass: nat -> bool, t: Tree)
    decreases t
  {
    pass(t.stage) && (t.kids == [] || AnyAccepts(pass, t.kids))
  }

  predicate AnyAccepts(pass: nat -> bool, ts: seq<Tree>)
    decreases ts
  {
    ts != [] && (Accepts(pass, ts[0]) || AnyAccepts(pass, ts[1..]))
  }

  /** A path of stages from the root of t down to a leaf. */
  ghost predicate IsPath(t: Tree, path: seq<nat>)
    decreases |path|
  {
    && path != [] && path[0] == t.stage
    && (if t.kids == [] then |path| == 1 else exists k :: 0 <= k < |t.kids| && IsPath(t.kids[k], path[1..]))
  }

  ghost predicate AllPass(pass: nat -> bool, path: seq<nat>) {
    forall i :: 0 <= i < |path| ==> pass(path[i])
  }

  lemma {:induction false} AcceptsHasPath(pass: nat -> bool, t: Tree) returns (path: seq<nat>)
    requires Accepts(pass, t)
    ensures IsPath(t, path) && AllPass(pass, path)
    decreases t
  {
    if t.kids == [] {
      path := [t.stage];
    } else {
      var k, rest := AnyHasPath(pass, t.kids);
      path := [t.stage] + rest;
      assert path[1..] == rest;
    }
  }

  lemma {:induction false} AnyHasPath(pass: nat -> bool, ts: seq<Tree>) returns (k: nat, path: seq<nat>)
    requires AnyAccepts(pass, ts)
    ensures k < |ts| && IsPath(ts[k], path) && AllPass(pass, path)
    decreases ts
  {
    if Accepts(pass, ts[0]) {
      k := 0;
      path := AcceptsHasPath(pass, ts[0]);
    } else {
      var j;
      j, path := AnyHasPath(pass, ts[1..]);
      k := j + 1;
    }
  }

  lemma {:induction false} PathAccepts(pass: nat -> bool, t: Tree, path: seq<nat>)
    requires IsPath(t, path) && AllPass(pass, path)
    ensures Accepts(pass, t)
    decreases |path|
  {
    assert pass(path[0]);
    if t.kids != [] {
      var k :| 0 <= k < |t.kids| && IsPath(t.kids[k], path[1..]);
      assert AllPass(pass, path[1..]);
      PathAccepts(pass, t.kids[k], path[1..]);
      OneAccepts(pass, t.kids, k);
    }
  }

  lemma {:induction false} OneAccepts(pass: nat -> bool, ts: seq<Tree>, k: nat)
    requires k < |ts| && Accepts(pass, ts[k])
    ensures AnyAccepts(pass, ts)
    decreases |ts|
  {
    if k > 0 {
      OneAccepts(pass, ts[1..], k - 1);
    }
  }

  /** What the walk computes, said of paths. */
  lemma AcceptsExactly(pass: nat -> bool, forest: seq<Tree>)
    ensures AnyAccepts(pass, forest) <==>
            exists k, path :: 0 <= k < |forest| && IsPath(forest[k], path) && AllPass(pass, path)
  {
    if AnyAccepts(pass, forest) {
      var k, path := AnyHasPath(pass, forest);
      assert IsPath(forest[k], path);
    }
    forall k, path | 0 <= k < |forest| && IsPath(forest[k], path) && AllPass(pass, path)
      ensures AnyAccepts(pass, forest)
    {
      PathAccepts(pass, forest[k], path);
      OneAccepts(pass, forest, k);
    }
  }

  // ----- The links of a forest -----

  function Root(ts: seq<Tree>): Option<nat> {
    if ts == [] then None else Some(ts[0].stage)
  }

  /** The links of these siblings, and of everything below them, are right. */
  predicate Linked(links: seq<Links>, ts: seq<Tree>, parent: Option<nat>)
    decreases ts
  {
    ts == [] || (LinkedTree(links, ts[0], Root(ts[1..]), parent) && Linked(links, ts[1..], parent))
  }

  predicate LinkedTree(links: seq<Links>, t: Tree, next: Option<nat>, parent: Option<nat>)
    decreases t
  {
    && t.stage < |links| && links[t.stage] == Links(Root(t.kids), next, parent)
    && Linked(links, t.kids, Some(t.stage))
  }

  function Stages(ts: seq<Tree>): set<nat>
    decreases ts
  {
    if ts == [] then {} else TreeStages(ts[0]) + Stages(ts[1..])
  }

  function TreeStages(t: Tree): set<nat>
    decreases t
  {
    {t.stage} + Stages(t.kids)
  }

  /** No stage occurs twice. */
  predicate Distinct(ts: seq<Tree>)
    decreases ts
  {
    ts == [] || (DistinctTree(ts[0]) && Distinct(ts[1..]) && TreeStages(ts[0]) !! Stages(ts[1..]))
  }

  predicate DistinctTree(t: Tree)
    decreases t
  {
    t.stage !in Stages(t.kids) && Distinct(t.kids)
  }

  function Size(ts: seq<Tree>): nat
    decreases ts
  {
    if ts == [] then 0 else 1 + Size(ts[0].kids) + Size(ts[1..])
  }

  /** What the loader builds: the stages of a forest, stage 0 its first root. */
  ghost predicate IsForest(links: seq<Links>, forest: seq<Tree>) {
    forest != [] && forest[0].stage == 0 && Linked(links, forest, None) && Distinct(forest)
  }

  // ----- The stack of the proof -----

  /** On top the siblings from the current stage on; below, for each ancestor, its siblings
      from itself on. */
  datatype Stack = Bottom | Level(siblings: seq<Tree>, below: Stack)

  predicate IsStack(links: seq<Links>, s: Stack) {
    match s
    case Bottom => true
    case Level(ts, below) =>
      && ts != [] && Linked(links, ts, Owner(below)) && IsStack(links, below)
      && Distinct(ts) && Stages(ts) !! Waiting(below)
  }

  /** The ancestor whose children are on top. */
  function Owner(s: Stack): Option<nat> {
    if s.Bottom? then None else Root(s.siblings)
  }

  /** The stages that may still be looked at once the current level is done. */
  function Waiting(s: Stack): set<nat> {
    match s
    case Bottom => {}
    case Level(ts, below) => (if ts == [] then {} else Stages(ts[1..])) + Waiting(below)
  }

  predicate AcceptsLater(pass: nat -> bool, s: Stack) {
    match s
    case Bottom => false
    case Level(ts, below) => (ts != [] && AnyAccepts(pass, ts[1..])) || AcceptsLater(pass, below)
  }

  function SizeLater(s: Stack): nat {
    match s
    case Bottom => 0
    case Level(ts, below) => (if ts == [] then 0 else Size(ts[1..])) + SizeLater(below)
  }

  /** What the links of the current stage are, and which stages lie below it. */
  lemma TopFacts(links: seq<Links>, s: Stack)
    requires s.Level? && IsStack(links, s)
    ensures s.siblings != []
    ensures var t, rest := s.siblings[0], s.siblings[1..];
      && t.stage < |links| && links[t.stage] == Links(Root(t.kids), Root(rest), Owner(s.below))
      && Linked(links, t.kids, Some(t.stage)) && Linked(links, rest, Owner(s.below))
      && Distinct(t.kids) && Distinct(rest)
      && t.stage !in Stages(t.kids) + Stages(rest) + Waiting(s.below)
      && Stages(t.kids) !! Stages(rest) + Waiting(s.below) && Stages(rest) !! Waiting(s.below)
      && Size(s.siblings) == 1 + Size(t.kids) + Size(rest)
      && Stages(s.siblings) == {t.stage} + Stages(t.kids) + Stages(rest)
  {
    var t := s.siblings[0];
    assert LinkedTree(links, t, Root(s.siblings[1..]), Owner(s.below));
    assert DistinctTree(t);
    assert Stages(s.siblings) == TreeStages(t) + Stages(s.siblings[1..]);
  }

  lemma TopAccepts(pass: nat -> bool, s: Stack)
    requires s.Level? && s.siblings != []
    ensures var t := s.siblings[0];
      AnyAccepts(pass, s.siblings) <==>
          (pass(t.stage) && (t.kids == [] || AnyAccepts(pass, t.kids))) || AnyAccepts(pass, s.siblings[1..])
    ensures !AnyAccepts(pass, [])
  {
    assert AnyAccepts(pass, s.siblings) <==> Accepts(pass, s.siblings[0]) || AnyAccepts(pass, s.siblings[1..]);
  }

  // ----- The walk -----

  /** From a stage that failed: up to the nearest stage with a next sibling, and on to that. */
  method NextInTree(links: seq<Links>, at: nat, ghost stack: Stack, ghost pass: nat -> bool)
    returns (ptr: Option<nat>, ghost rest: Stack)
    requires stack.Level? && IsStack(links, stack) && Some(at) == Root(stack.siblings)
    ensures ptr.None? ==> !AcceptsLater(pass, stack)
    ensures ptr.Some? ==>
      && rest.Level? && IsStack(links, rest) && ptr == Root(rest.siblings)
      && (AcceptsLater(pass, stack) <==> AnyAccepts(pass, rest.siblings) || AcceptsLater(pass, rest.below))
      && Size(rest.siblings) + SizeLater(rest.below) <= SizeLater(stack)
      && Stages(rest.siblings) + Waiting(rest.below) <= Waiting(stack)
  {
    hide Linked, Distinct, Stages, Size, AnyAccepts, Accepts;
    TopFacts(links, stack);
    ptr := Some(at);
    ghost var s := stack;
    while ptr.Some? && links[ptr.value].next.None?
      invariant IsStack(links, s) && ptr == Owner(s) && (ptr.Some? ==> ptr.value < |links|)
      invariant AcceptsLater(pass, stack) <==> AcceptsLater(pass, s)
      invariant SizeLater(s) <= SizeLater(stack) && Waiting(s) <= Waiting(stack)
      decreases s
    {
      TopFacts(links, s);
      NoneAccepts(pass);
      ptr := links[ptr.value].parent;
      s := s.below;
      if s.Level? {
        TopFacts(links, s);
      }
    }
    rest := s;
    if ptr.Some? {
      TopFacts(links, s);
      ptr := links[ptr.value].next;
      rest := Level(s.siblings[1..], s.below);
    }
  }

  lemma NoneAccepts(pass: nat -> bool)
    ensures !AnyAccepts(pass, [])
  {
  }

  /** Accepts exactly when some path from a root to a leaf passes throughout, and evaluates no
      stage twice. */
  method Run(links: seq<Links>, pass: nat -> bool, ghost forest: seq<Tree>) returns (result: int, visited: seq<nat>)
    requires IsForest(links, forest)
    ensures result == if AnyAccepts(pass, forest) then 1 else 0
    ensures forall i, j :: 0 <= i < j < |visited| ==> visited[i] != visited[j]
  {
    visited := [];
    result := 1;
    var ptr: Option<nat> := Some(0);
    ghost var stack := Level(forest, Bottom);
    while ptr.Some?
      invariant result == 1 && IsStack(links, stack)
      invariant ptr.Some? ==> stack.Level? && ptr == Root(stack.siblings)
      invariant ptr.Some? ==>
                (AnyAccepts(pass, forest) <==> AnyAccepts(pass, stack.siblings) || AcceptsLater(pass, stack.below))
      invariant ptr.None? ==> AnyAccepts(pass, forest)
      invariant forall i, j :: 0 <= i < j < |visited| ==> visited[i] != visited[j]
      invariant ptr.Some? ==> forall i :: 0 <= i < |visited| ==>
                visited[i] !in Stages(stack.siblings) + Waiting(stack.below)
      decreases if ptr.None? then 0 else Size(stack.siblings) + SizeLater(stack.below)
    {
      hide Linked, Distinct, Stages, Size, AnyAccepts, Accepts;
      TopFacts(links, stack);
      TopAccepts(pass, stack);
      var at := ptr.value;
      visited := visited + [at];
      if pass(at) {
        ptr := links[at].child;
        if ptr.Some? {
          stack := Level(stack.siblings[0].kids, stack);
        }
      } else {
        ptr, stack := NextInTree(links, at, stack, pass);
        if ptr.None? {
          result := 0;
          return;
        }
      }
    }
  }
}
