/** Pixels, the eight chain-code directions, and the step of the border follower.

    A mask is the set of nonzero pixels.  A border state stands at a nonzero pixel and
    remembers the direction of the nonzero neighbour it came from; the follower turns
    from there until the next nonzero neighbour and moves on to it. */
module PixelGrid {

  datatype Pt = Pt(x: int, y: int)

  /** A direction code: 0 is east, and codes grow counter-clockwise with y pointing down. */
  type Dir = d: int | 0 <= d < 8

  type Mask = set<Pt>

  function Dx(s: Dir): int {
    if s == 0 || s == 1 || s == 7 then 1 else if 3 <= s <= 5 then -1 else 0
  }

  function Dy(s: Dir): int {
    if 1 <= s <= 3 then -1 else if 5 <= s <= 7 then 1 else 0
  }

  function Nb(p: Pt, s: Dir): Pt {
    Pt(p.x + Dx(s), p.y + Dy(s))
  }

  /** Direction s turned forward by k eighths. */
  function Rot(s: Dir, k: int): Dir
    requires 0 <= k <= 8
  {
    if s + k >= 8 then (if k == 8 then s else s + k - 8) else s + k
  }

  /** Direction s turned back by k eighths. */
  function Back(s: Dir, k: int): Dir
    requires 0 <= k <= 8
  {
    if s >= k then s - k else if k == 8 then s else s - k + 8
  }

  lemma RotThenBack(s: Dir, t: int, j: int)
    requires 0 <= j <= t <= 8
    ensures Back(Rot(s, t), j) == Rot(s, t - j)
  {
  }

  /** The number of eighths, 1 to 8, from direction s to direction d. */
  function Arc(s: Dir, d: Dir): (k: int)
    ensures 1 <= k <= 8 && Rot(s, k) == d && Back(d, k) == s
  {
    if d > s then d - s else d - s + 8
  }

  function Opp(s: Dir): Dir {
    Rot(s, 4)
  }

  lemma NbOpp(p: Pt, s: Dir)
    ensures Nb(Nb(p, s), Opp(s)) == p && Opp(Opp(s)) == s
  {
  }

  /** Standing at p, having come from the neighbour in direction s. */
  datatype State = State(p: Pt, s: Dir)

  predicate IsState(m: Mask, a: State) {
    a.p in m && Nb(a.p, a.s) in m
  }

  /** How many eighths the search turns from s before it meets a nonzero neighbour. */
  function Turn(m: Mask, p: Pt, s: Dir, k: int): (t: int)
    requires 1 <= k <= 8 && Nb(p, s) in m
    ensures k <= t <= 8 && Nb(p, Rot(s, t)) in m
    ensures forall j :: k <= j < t ==> Nb(p, Rot(s, j)) !in m
    decreases 8 - k
  {
    if Nb(p, Rot(s, k)) in m then k
    else assert k < 8; Turn(m, p, s, k + 1)
  }

  /** The chain code written at state a: the direction in which the border leaves a.p. */
  function Code(m: Mask, a: State): Dir
    requires IsState(m, a)
  {
    Rot(a.s, Turn(m, a.p, a.s, 1))
  }

  function Next(m: Mask, a: State): (b: State)
    requires IsState(m, a)
    ensures IsState(m, b)
  {
    var d := Code(m, a);
    NbOpp(a.p, d);
    State(Nb(a.p, d), Opp(d))
  }

  /** The neighbour in direction d lies strictly inside the arc swept at a. */
  predicate Sweeps(m: Mask, a: State, d: Dir)
    requires IsState(m, a)
  {
    Arc(a.s, d) < Turn(m, a.p, a.s, 1)
  }

  /** How many eighths to turn back from d until a nonzero neighbour is met. */
  function BackTurn(m: Mask, p: Pt, d: Dir, k: int): (t: int)
    requires 1 <= k <= 8 && Nb(p, d) in m
    ensures k <= t <= 8 && Nb(p, Back(d, t)) in m
    ensures forall j :: k <= j < t ==> Nb(p, Back(d, j)) !in m
    decreases 8 - k
  {
    if Nb(p, Back(d, k)) in m then k
    else assert Back(d, 8) == d; BackTurn(m, p, d, k + 1)
  }

  /** The state the follower was in before b. */
  function Prev(m: Mask, b: State): (a: State)
    requires IsState(m, b)
    ensures IsState(m, a)
  {
    NbOpp(b.p, b.s);
    var p := Nb(b.p, b.s);
    State(p, Back(Opp(b.s), BackTurn(m, p, Opp(b.s), 1)))
  }

  lemma TurnBack(m: Mask, p: Pt, s: Dir)
    requires Nb(p, s) in m
    ensures BackTurn(m, p, Rot(s, Turn(m, p, s, 1)), 1) == Turn(m, p, s, 1)
  {
    var t := Turn(m, p, s, 1);
    var b := BackTurn(m, p, Rot(s, t), 1);
    RotThenBack(s, t, t);
    if b < t {
      RotThenBack(s, t, b);
    }
    assert b >= t;
    assert b <= t;
  }

  /** Turning back from the way out finds the way in. */
  lemma PrevNext(m: Mask, a: State)
    requires IsState(m, a)
    ensures Prev(m, Next(m, a)) == a
  {
    NbOpp(a.p, Code(m, a));
    TurnBack(m, a.p, a.s);
    RotThenBack(a.s, Turn(m, a.p, a.s, 1), Turn(m, a.p, a.s, 1));
  }

  /** So the step is injective. */
  lemma NextInjective(m: Mask, a: State, b: State)
    requires IsState(m, a) && IsState(m, b) && Next(m, a) == Next(m, b)
    ensures a == b
  {
    PrevNext(m, a);
    PrevNext(m, b);
  }

  /** A swept neighbour is zero, and so is everything between the way in and it. */
  lemma SweptGap(m: Mask, a: State, d: Dir)
    requires IsState(m, a) && Sweeps(m, a, d)
    ensures forall j :: 0 <= j < Arc(a.s, d) ==> Nb(a.p, Back(d, j)) !in m
  {
    forall j | 0 <= j < Arc(a.s, d)
      ensures Nb(a.p, Back(d, j)) !in m
    {
      RotThenBack(a.s, Arc(a.s, d), j);
    }
  }

  /** A gap is swept from one state only: the one whose arc contains it. */
  lemma SweepDeterminesState(m: Mask, a: State, b: State, d: Dir)
    requires IsState(m, a) && IsState(m, b) && a.p == b.p
    requires Sweeps(m, a, d) && Sweeps(m, b, d)
    ensures a == b
  {
    SweptGap(m, a, d);
    SweptGap(m, b, d);
    var i, j := Arc(a.s, d), Arc(b.s, d);
    assert Back(d, i) == a.s && Back(d, j) == b.s;
    assert i >= j;
    assert j >= i;
  }

  // ----- Closed borders -----

  /** A closed border: consecutive states follow each other, the last leads back to the
      first, and no state occurs twice. */
  ghost predicate IsBorder(m: Mask, path: seq<State>) {
    && |path| > 0
    && IsWalk(m, path)
    && Next(m, path[|path| - 1]) == path[0]
  }

  ghost predicate IsWalk(m: Mask, path: seq<State>) {
    && (forall i :: 0 <= i < |path| ==> IsState(m, path[i]))
    && (forall i :: 0 <= i < |path| - 1 ==> Follows(m, path, i))
    && (forall i, j :: 0 <= i < j < |path| ==> path[i] != path[j])
  }

  ghost predicate Follows(m: Mask, path: seq<State>, i: nat)
    requires i < |path| - 1 && IsState(m, path[i])
  {
    path[i + 1] == Next(m, path[i])
  }

  /** A walk either closes or reaches a state it has not been in. */
  lemma WalkExtends(m: Mask, path: seq<State>)
    requires |path| > 0 && IsWalk(m, path)
    requires Next(m, path[|path| - 1]) != path[0]
    ensures IsWalk(m, path + [Next(m, path[|path| - 1])])
  {
    var last := path[|path| - 1];
    var longer := path + [Next(m, last)];
    forall j | 0 <= j < |path|
      ensures path[j] != Next(m, last)
    {
      if j > 0 {
        assert Follows(m, path, j - 1);
        if path[j] == Next(m, last) {
          NextInjective(m, path[j - 1], last);
        }
      }
    }
    forall i | 0 <= i < |longer| - 1
      ensures Follows(m, longer, i)
    {
      assert i < |path| - 1 ==> Follows(m, path, i);
    }
  }

  ghost function States(m: Mask): (u: set<State>)
    ensures forall a :: a in u <==> IsState(m, a)
  {
    set p, s: Dir | p in m && 0 <= s < 8 && Nb(p, s) in m :: State(p, s)
  }

  ghost function Elements<T>(s: seq<T>): set<T> {
    set a | a in s
  }

  lemma DistinctCardinality<T>(s: seq<T>)
    requires forall i, j :: 0 <= i < j < |s| ==> s[i] != s[j]
    ensures |Elements(s)| == |s|
  {
    if s != [] {
      var t := s[..|s| - 1];
      DistinctCardinality(t);
      assert Elements(s) == Elements(t) + {s[|s| - 1]};
    }
  }

  lemma SubsetCardinality<T>(a: set<T>, b: set<T>)
    requires a <= b
    ensures |a| <= |b|
  {
    if a != {} {
      var x :| x in a;
      SubsetCardinality(a - {x}, b - {x});
    }
  }

  /** The bound that makes every trace end. */
  lemma WalkIsShort(m: Mask, path: seq<State>)
    requires IsWalk(m, path)
    ensures |path| <= |States(m)|
  {
    DistinctCardinality(path);
    SubsetCardinality(Elements(path), States(m));
  }

  /** Walking i steps from state j of a closed border stays on it. */
  lemma BorderClosed(m: Mask, path: seq<State>, a: State)
    requires IsBorder(m, path) && a in path
    ensures Next(m, a) in path
  {
    var i :| 0 <= i < |path| && path[i] == a;
    if i < |path| - 1 {
      assert Follows(m, path, i);
    }
  }

  lemma SharedPrefix(m: Mask, p: seq<State>, q: seq<State>, i: nat)
    requires IsBorder(m, p) && IsBorder(m, q) && p[0] in q
    requires i < |p|
    ensures p[i] in q
  {
    if i > 0 {
      SharedPrefix(m, p, q, i - 1);
      assert Follows(m, p, i - 1);
      BorderClosed(m, q, p[i - 1]);
    }
  }

  lemma SharedSuffix(m: Mask, p: seq<State>, q: seq<State>, i: nat, j: nat)
    requires IsBorder(m, p) && IsBorder(m, q)
    requires i <= j < |p| && p[i] in q
    ensures p[j] in q
    decreases j - i
  {
    if i < j {
      assert Follows(m, p, i);
      BorderClosed(m, q, p[i]);
      SharedSuffix(m, p, q, i + 1, j);
    }
  }

  /** Two closed borders are the same set of states or have none in common. */
  lemma {:induction false} BordersDisjointOrEqual(m: Mask, p: seq<State>, q: seq<State>, a: State)
    requires IsBorder(m, p) && IsBorder(m, q) && a in p && a in q
    ensures forall b :: b in p <==> b in q
  {
    BorderContains(m, p, q, a);
    BorderContains(m, q, p, a);
  }

  lemma {:induction false} BorderContains(m: Mask, p: seq<State>, q: seq<State>, a: State)
    requires IsBorder(m, p) && IsBorder(m, q) && a in p && a in q
    ensures forall b :: b in p ==> b in q
  {
    var i :| 0 <= i < |p| && p[i] == a;
    SharedSuffix(m, p, q, i, |p| - 1);
    BorderClosed(m, q, p[|p| - 1]);
    forall j | 0 <= j < |p| ensures p[j] in q {
      SharedPrefix(m, p, q, j);
    }
  }

  /** The border through a state is unique as a sequence. */
  lemma {:induction false} BorderUnique(m: Mask, p: seq<State>, q: seq<State>)
    requires IsBorder(m, p) && IsBorder(m, q) && p[0] == q[0]
    ensures p == q
  {
    if |p| <= |q| {
      BorderPrefix(m, p, q, |p| - 1);
      BorderTail(m, p, q);
    } else {
      BorderPrefix(m, q, p, |q| - 1);
      BorderTail(m, q, p);
    }
  }

  lemma BorderPrefix(m: Mask, p: seq<State>, q: seq<State>, k: nat)
    requires IsBorder(m, p) && IsBorder(m, q) && p[0] == q[0]
    requires k < |p| <= |q|
    ensures forall i :: 0 <= i <= k ==> p[i] == q[i]
  {
    if k > 0 {
      BorderPrefix(m, p, q, k - 1);
      assert Follows(m, p, k - 1);
      assert Follows(m, q, k - 1);
    }
  }

  lemma BorderTail(m: Mask, p: seq<State>, q: seq<State>)
    requires IsBorder(m, p) && IsBorder(m, q) && p[0] == q[0]
    requires |p| <= |q| && forall i :: 0 <= i <= |p| - 1 ==> p[i] == q[i]
    ensures p == q
  {
    assert |p| < |q| ==> Follows(m, q, |p| - 1);
    assert |p| == |q|;
  }
}
