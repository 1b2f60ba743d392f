/** Contours by linking runs.

    Every row is cut into runs of nonzero pixels.  The two end points of a run are nodes:
    node 2r is the left end of run r and node 2r + 1 its right end.  Neighbouring rows are
    merged, and every node is given the link to the node that follows it on its contour. */
module LinkRuns {
  import opened PixelGrid

  // ----- Runs -----

  /** The runs of one row: consecutive entries of the run sequence. */
  datatype Line = Line(first: nat, count: nat)

  function Left(l: Line, i: nat): nat {
    2 * (l.first + i)
  }

  function Right(l: Line, i: nat): nat {
    2 * (l.first + i) + 1
  }

  function End(l: Line): nat {
    l.first + l.count
  }

  /** The runs of the line lie in row y, from left to right, with a gap between neighbours. */
  ghost predicate IsLine(pts: seq<Pt>, l: Line, y: int) {
    && 2 * End(l) <= |pts|
    && (forall i :: 0 <= i < l.count ==> IsRun(pts, l, i, y))
    && (forall i, j :: 0 <= i < j < l.count ==> pts[Right(l, i)].x + 1 < pts[Left(l, j)].x)
  }

  ghost predicate IsRun(pts: seq<Pt>, l: Line, i: nat, y: int)
    requires 2 * End(l) <= |pts| && i < l.count
  {
    && pts[Left(l, i)].y == y && pts[Right(l, i)].y == y
    && 0 <= pts[Left(l, i)].x <= pts[Right(l, i)].x
  }

  ghost predicate InRun(pts: seq<Pt>, l: Line, i: nat, x: int)
    requires 2 * End(l) <= |pts| && i < l.count
  {
    pts[Left(l, i)].x <= x <= pts[Right(l, i)].x
  }

  /** The runs cover exactly the nonzero pixels of the first n columns. */
  ghost predicate Covers(pts: seq<Pt>, l: Line, row: seq<int>, n: nat)
    requires 2 * End(l) <= |pts| && n <= |row|
  {
    && (forall i :: 0 <= i < l.count ==> pts[Right(l, i)].x < n)
    && (forall x :: 0 <= x < n ==> (row[x] != 0 <==> exists i :: 0 <= i < l.count && InRun(pts, l, i, x)))
  }

  /** One more run, from column a to column b - 1. */
  lemma AppendRun(pts: seq<Pt>, l: Line, row: seq<int>, y: int, a: nat, b: nat)
    requires |pts| == 2 * End(l) && a < b <= |row|
    requires IsLine(pts, l, y) && Covers(pts, l, row, a)
    requires l.count > 0 ==> pts[Right(l, l.count - 1)].x + 1 < a
    requires forall x :: a <= x < b ==> row[x] != 0
    ensures var pts', l' := pts + [Pt(a, y), Pt(b - 1, y)], Line(l.first, l.count + 1);
      && |pts'| == 2 * End(l') && IsLine(pts', l', y) && Covers(pts', l', row, b)
      && pts'[Right(l', l.count)].x == b - 1
  {
    var pts', l' := pts + [Pt(a, y), Pt(b - 1, y)], Line(l.first, l.count + 1);
    assert forall i :: 0 <= i < l.count ==> Right(l, i) < |pts|;
    forall i | 0 <= i < l'.count
      ensures IsRun(pts', l', i, y) && pts'[Right(l', i)].x < b
      ensures i < l.count ==> pts'[Right(l', i)].x + 1 < a
    {
      assert i < l.count ==> IsRun(pts, l, i, y);
      assert i < l.count - 1 ==> pts[Right(l, i)].x + 1 < pts[Left(l, l.count - 1)].x && IsRun(pts, l, l.count - 1, y);
    }
    forall i, j | 0 <= i < j < l'.count
      ensures pts'[Right(l', i)].x + 1 < pts'[Left(l', j)].x
    {
      assert j < l.count ==> pts[Right(l, i)].x + 1 < pts[Left(l, j)].x;
    }
    forall x | 0 <= x < b
      ensures row[x] != 0 <==> exists i :: 0 <= i < l'.count && InRun(pts', l', i, x)
    {
      assert InRun(pts', l', l.count, x) <==> a <= x;
      assert forall i :: 0 <= i < l.count ==> (InRun(pts', l', i, x) <==> InRun(pts, l, i, x));
    }
  }

  /** Append the runs of one row. */
  method FindRuns(row: seq<int>, y: int, before: seq<Pt>) returns (pts: seq<Pt>, l: Line)
    requires |before| % 2 == 0
    ensures before <= pts && l.first == |before| / 2 && |pts| == 2 * End(l)
    ensures IsLine(pts, l, y) && Covers(pts, l, row, |row|)
  {
    pts, l := before, Line(|before| / 2, 0);
    var j := 0;
    while j < |row|
      invariant j <= |row|
      invariant before <= pts && l.first == |before| / 2 && |pts| == 2 * End(l)
      invariant IsLine(pts, l, y) && Covers(pts, l, row, j)
      invariant l.count > 0 ==> pts[Right(l, l.count - 1)].x + 1 <= j
      invariant l.count > 0 && j < |row| && row[j] != 0 ==> pts[Right(l, l.count - 1)].x + 1 < j
    {
      while j < |row| && row[j] == 0
        invariant j <= |row| && Covers(pts, l, row, j)
        invariant l.count > 0 ==> pts[Right(l, l.count - 1)].x + 1 <= j
        invariant l.count > 0 && j < |row| && row[j] != 0 ==> pts[Right(l, l.count - 1)].x + 1 < j
      {
        ColumnIsZero(pts, l, row, j);
        j := j + 1;
      }
      if j == |row| {
        break;
      }
      var a := j;
      while j < |row| && row[j] != 0
        invariant a <= j <= |row|
        invariant forall x :: a <= x < j ==> row[x] != 0
      {
        j := j + 1;
      }
      AppendRun(pts, l, row, y, a, j);
      pts, l := pts + [Pt(a, y), Pt(j - 1, y)], Line(l.first, l.count + 1);
    }
  }

  lemma ColumnIsZero(pts: seq<Pt>, l: Line, row: seq<int>, j: nat)
    requires 2 * End(l) <= |pts| && j < |row| && row[j] == 0 && Covers(pts, l, row, j)
    ensures Covers(pts, l, row, j + 1)
  {
  }

  // ----- Links -----

  /** Runs a and b lie in neighbouring rows and meet, corner to corner included. */
  ghost predicate Touch(pts: seq<Pt>, a: nat, b: nat) {
    && 2 * a + 1 < |pts| && 2 * b + 1 < |pts|
    && (pts[2 * a].y == pts[2 * b].y + 1 || pts[2 * b].y == pts[2 * a].y + 1)
    && pts[2 * a].x <= pts[2 * b + 1].x + 1 && pts[2 * b].x <= pts[2 * a + 1].x + 1
  }

  ghost predicate TouchVia(pts: seq<Pt>, a: nat, c: nat, b: nat) {
    Touch(pts, a, c) && Touch(pts, c, b)
  }

  /** The same run, touching runs, or runs that touch a common third one. */
  ghost predicate Near(pts: seq<Pt>, a: nat, b: nat) {
    a == b || Touch(pts, a, b) || exists c :: TouchVia(pts, a, c, b)
  }

  function Run(i: nat): nat {
    i / 2
  }

  predicate IsLeft(i: nat) {
    i % 2 == 0
  }

  /** A link between two left ends leads up, one between two right ends leads down, and a
      link never leaves the neighbourhood of its run. */
  ghost predicate GoodEdge(pts: seq<Pt>, s: nat, t: nat) {
    && (IsLeft(s) && IsLeft(t) ==> t < s)
    && (!IsLeft(s) && !IsLeft(t) ==> s < t)
    && Near(pts, Run(s), Run(t))
  }

  /** Left ends of runs below a, and right ends of runs below b. */
  ghost predicate Among(i: nat, a: nat, b: nat) {
    if IsLeft(i) then Run(i) < a else Run(i) < b
  }

  // ----- The rule the links follow -----

  /** Run k of the upper line and run n of the lower line meet, corner to corner included. */
  ghost predicate Meet(pts: seq<Pt>, up: Line, low: Line, k: nat, n: nat) {
    && Right(up, k) < |pts| && Right(low, n) < |pts|
    && pts[Left(up, k)].x <= pts[Right(low, n)].x + 1
    && pts[Left(low, n)].x <= pts[Right(up, k)].x + 1
  }

  /** None of the upper runs j0..j1 meets any of the lower runs i0..i1. */
  ghost predicate Separate(pts: seq<Pt>, up: Line, low: Line, j0: nat, j1: nat, i0: nat, i1: nat) {
    forall j, i :: j0 <= j < j1 && i0 <= i < i1 ==> !Meet(pts, up, low, j, i)
  }

  /** Where the contour goes from the left end of lower run n: nothing above, to the right
      end of the run itself; otherwise to the leftmost run above, unless that one also meets
      the lower run before n, to whose right end the contour then crosses over. */
  ghost predicate LeftRule(pts: seq<Pt>, up: Line, low: Line, n: nat, t: nat) {
    || (Separate(pts, up, low, 0, up.count, n, n + 1) && t == Right(low, n))
    || exists k :: LeftmostAbove(pts, up, low, n, k) &&
         t == if n > 0 && Meet(pts, up, low, k, n - 1) then Right(low, n - 1) else Left(up, k)
  }

  ghost predicate LeftmostAbove(pts: seq<Pt>, up: Line, low: Line, n: nat, k: nat) {
    k < up.count && Meet(pts, up, low, k, n) && Separate(pts, up, low, 0, k, n, n + 1)
  }

  /** Where the contour goes from the right end of upper run k: nothing below, to the left end
      of the run itself; otherwise to the rightmost run below, unless that one also meets the
      upper run after k, to whose left end the contour then crosses over. */
  ghost predicate RightRule(pts: seq<Pt>, up: Line, low: Line, k: nat, t: nat) {
    || (Separate(pts, up, low, k, k + 1, 0, low.count) && t == Left(up, k))
    || exists n :: RightmostBelow(pts, up, low, k, n) &&
         t == if k + 1 < up.count && Meet(pts, up, low, k + 1, n) then Left(up, k + 1) else Right(low, n)
  }

  ghost predicate RightmostBelow(pts: seq<Pt>, up: Line, low: Line, k: nat, n: nat) {
    n < low.count && Meet(pts, up, low, k, n) && Separate(pts, up, low, k, k + 1, n + 1, low.count)
  }

  /** The left ends of the first m lower runs and the right ends of the first q upper runs
      are linked by the rule. */
  ghost predicate Ruled(pts: seq<Pt>, link: map<nat, nat>, up: Line, low: Line, m: nat, q: nat) {
    && (forall i :: 0 <= i < m ==> Left(low, i) in link && LeftRule(pts, up, low, i, link[Left(low, i)]))
    && (forall j :: 0 <= j < q ==> Right(up, j) in link && RightRule(pts, up, low, j, link[Right(up, j)]))
  }

  lemma RuledLeft(pts: seq<Pt>, link: map<nat, nat>, up: Line, low: Line, m: nat, q: nat, t: nat)
    requires Ruled(pts, link, up, low, m, q) && LeftRule(pts, up, low, m, t)
    ensures Ruled(pts, link[Left(low, m) := t], up, low, m + 1, q)
  {
    hide LeftRule, RightRule;
  }

  lemma RuledRight(pts: seq<Pt>, link: map<nat, nat>, up: Line, low: Line, m: nat, q: nat, t: nat)
    requires Ruled(pts, link, up, low, m, q) && RightRule(pts, up, low, q, t)
    ensures Ruled(pts, link[Right(up, q) := t], up, low, m, q + 1)
  {
    hide LeftRule, RightRule;
  }

  /** A run that ends left of a lower run ends left of all later ones. */
  lemma EndsBefore(pts: seq<Pt>, up: Line, low: Line, y: int, k: nat, n: nat)
    requires IsLine(pts, low, y) && k < up.count && n < low.count && Right(up, k) < |pts|
    requires pts[Right(up, k)].x + 1 < pts[Left(low, n)].x
    ensures Separate(pts, up, low, k, k + 1, n, low.count)
  {
    forall i | n <= i < low.count
      ensures !Meet(pts, up, low, k, i)
    {
      assert i > n ==> IsRun(pts, low, n, y) && pts[Right(low, n)].x + 1 < pts[Left(low, i)].x;
    }
  }

  /** The same with the two lines exchanged. */
  lemma EndsBeforeUpper(pts: seq<Pt>, up: Line, low: Line, y: int, k: nat, n: nat)
    requires IsLine(pts, up, y) && k < up.count && n < low.count && Right(low, n) < |pts|
    requires pts[Right(low, n)].x + 1 < pts[Left(up, k)].x
    ensures Separate(pts, up, low, k, up.count, n, n + 1)
  {
    forall j | k <= j < up.count
      ensures !Meet(pts, up, low, j, n)
    {
      assert j > k ==> IsRun(pts, up, k, y) && pts[Right(up, k)].x + 1 < pts[Left(up, j)].x;
    }
  }

  /** link and back are inverse to each other; the links lead from the left ends of the runs
      below sa and the right ends below sb to the left ends below ta and the right ends
      below tb. */
  ghost predicate Matched(link: map<nat, nat>, back: map<nat, nat>, sa: nat, sb: nat, ta: nat, tb: nat) {
    && (forall i :: i in link <==> Among(i, sa, sb))
    && (forall i :: i in back <==> Among(i, ta, tb))
    && (forall i :: i in link ==> link[i] in back && back[link[i]] == i)
    && (forall i :: i in back ==> back[i] in link && link[back[i]] == i)
  }

  /** The next free source s is linked to the next free target t. */
  lemma MatchOneMore(link: map<nat, nat>, back: map<nat, nat>, sa: nat, sb: nat, ta: nat, tb: nat, s: nat, t: nat)
    requires Matched(link, back, sa, sb, ta, tb)
    requires s == 2 * sa || s == 2 * sb + 1
    requires t == 2 * ta || t == 2 * tb + 1
    ensures Matched(link[s := t], back[t := s],
                    if IsLeft(s) then sa + 1 else sa, if IsLeft(s) then sb else sb + 1,
                    if IsLeft(t) then ta + 1 else ta, if IsLeft(t) then tb else tb + 1)
  {
    var sa', sb' := if IsLeft(s) then sa + 1 else sa, if IsLeft(s) then sb else sb + 1;
    var ta', tb' := if IsLeft(t) then ta + 1 else ta, if IsLeft(t) then tb else tb + 1;
    AmongNext(sa, sb, s);
    AmongNext(ta, tb, t);
    MatchedUpdate(link, back, sa, sb, ta, tb, sa', sb', ta', tb', s, t);
  }

  lemma AmongNext(a: nat, b: nat, s: nat)
    requires s == 2 * a || s == 2 * b + 1
    ensures !Among(s, a, b)
    ensures forall i :: Among(i, if IsLeft(s) then a + 1 else a, if IsLeft(s) then b else b + 1) <==>
            Among(i, a, b) || i == s
  {
  }

  lemma MatchedUpdate(link: map<nat, nat>, back: map<nat, nat>, sa: nat, sb: nat, ta: nat, tb: nat,
                      sa': nat, sb': nat, ta': nat, tb': nat, s: nat, t: nat)
    requires Matched(link, back, sa, sb, ta, tb) && !Among(s, sa, sb) && !Among(t, ta, tb)
    requires forall i :: Among(i, sa', sb') <==> Among(i, sa, sb) || i == s
    requires forall i :: Among(i, ta', tb') <==> Among(i, ta, tb) || i == t
    ensures Matched(link[s := t], back[t := s], sa', sb', ta', tb')
  {
    hide Among;
  }

  // ----- Where the merge stands -----

  datatype Flag = Single | Above | Below

  /** The geometry after k upper and n lower runs have been passed.  Single: nothing passed
      meets anything still to come.  Above: the lower run n meets the upper run k - 1, the
      last one passed.  Below: the upper run k meets the lower run n - 1, the last one passed. */
  ghost predicate Position(pts: seq<Pt>, up: Line, low: Line, k: nat, n: nat, flag: Flag) {
    && k <= up.count && n <= low.count
    && match flag
       case Single =>
         Separate(pts, up, low, 0, k, n, low.count) && Separate(pts, up, low, k, up.count, 0, n)
       case Above =>
         && 0 < k && n < low.count && Meet(pts, up, low, k - 1, n)
         && Separate(pts, up, low, 0, k, n + 1, low.count) && Separate(pts, up, low, k, up.count, 0, n)
       case Below =>
         && 0 < n && k < up.count && Meet(pts, up, low, k, n - 1)
         && Separate(pts, up, low, 0, k, n, low.count) && Separate(pts, up, low, k + 1, up.count, 0, n)
  }

  ghost predicate TwoLines(pts: seq<Pt>, up: Line, low: Line, y: int) {
    IsLine(pts, up, y - 1) && IsLine(pts, low, y) && low.first == End(up)
  }

  /** The upper run k is over before the lower run n. */
  ghost predicate UpperFirst(pts: seq<Pt>, up: Line, low: Line, k: nat, n: nat) {
    Right(up, k) < |pts| && Right(low, n) < |pts| && pts[Right(up, k)].x < pts[Right(low, n)].x
  }

  lemma MeetTouch(pts: seq<Pt>, up: Line, low: Line, y: int, k: nat, n: nat)
    requires TwoLines(pts, up, low, y) && k < up.count && n < low.count && Meet(pts, up, low, k, n)
    ensures Touch(pts, up.first + k, low.first + n) && Touch(pts, low.first + n, up.first + k)
  {
    assert IsRun(pts, up, k, y - 1) && IsRun(pts, low, n, y);
  }

  /** The upper run k ends first, so it meets no lower run after n. */
  lemma UpperEnds(pts: seq<Pt>, up: Line, low: Line, y: int, k: nat, n: nat)
    requires TwoLines(pts, up, low, y) && k < up.count && n < low.count
    requires pts[Right(up, k)].x <= pts[Right(low, n)].x
    ensures Separate(pts, up, low, k, k + 1, n + 1, low.count)
  {
    if n + 1 < low.count {
      assert pts[Right(low, n)].x + 1 < pts[Left(low, n + 1)].x;
      EndsBefore(pts, up, low, y, k, n + 1);
    }
  }

  /** The lower run n ends first, so it meets no upper run after k. */
  lemma LowerEnds(pts: seq<Pt>, up: Line, low: Line, y: int, k: nat, n: nat)
    requires TwoLines(pts, up, low, y) && k < up.count && n < low.count
    requires pts[Right(low, n)].x <= pts[Right(up, k)].x
    ensures Separate(pts, up, low, k + 1, up.count, n, n + 1)
  {
    if k + 1 < up.count {
      assert pts[Right(up, k)].x + 1 < pts[Left(up, k + 1)].x;
      EndsBeforeUpper(pts, up, low, y - 1, k + 1, n);
    }
  }

  lemma JoinedLeft(pts: seq<Pt>, up: Line, low: Line, k: nat, n: nat)
    requires k < up.count && Meet(pts, up, low, k, n) && Separate(pts, up, low, 0, k, n, n + 1)
    ensures LeftRule(pts, up, low, n, if n > 0 && Meet(pts, up, low, k, n - 1) then Right(low, n - 1) else Left(up, k))
  {
    assert LeftmostAbove(pts, up, low, n, k);
  }

  lemma JoinedRight(pts: seq<Pt>, up: Line, low: Line, k: nat, n: nat)
    requires n < low.count && Meet(pts, up, low, k, n) && Separate(pts, up, low, k, k + 1, n + 1, low.count)
    ensures RightRule(pts, up, low, k, if k + 1 < up.count &&
            Meet(pts, up, low, k + 1, n) then Left(up, k + 1) else Right(low, n))
  {
    assert RightmostBelow(pts, up, low, k, n);
  }

  /** No run pending, and the two runs meet: the lower one is joined upwards. */
  lemma SingleMeets(pts: seq<Pt>, up: Line, low: Line, y: int, k: nat, n: nat)
    requires TwoLines(pts, up, low, y) && k < up.count && n < low.count
    requires Position(pts, up, low, k, n, Single) && Meet(pts, up, low, k, n)
    ensures LeftRule(pts, up, low, n, Left(up, k))
    ensures UpperFirst(pts, up, low, k, n) ==> Position(pts, up, low, k + 1, n, Above)
    ensures !UpperFirst(pts, up, low, k, n) ==> Position(pts, up, low, k, n + 1, Below)
  {
    JoinedLeft(pts, up, low, k, n);
    if UpperFirst(pts, up, low, k, n) {
      UpperEnds(pts, up, low, y, k, n);
    } else {
      LowerEnds(pts, up, low, y, k, n);
    }
  }

  /** No run pending, and the run that ends first meets nothing. */
  lemma SingleAlone(pts: seq<Pt>, up: Line, low: Line, y: int, k: nat, n: nat)
    requires TwoLines(pts, up, low, y) && k < up.count && n < low.count
    requires Position(pts, up, low, k, n, Single) && !Meet(pts, up, low, k, n)
    ensures UpperFirst(pts, up, low, k, n) ==>
              RightRule(pts, up, low, k, Left(up, k)) && Position(pts, up, low, k + 1, n, Single)
    ensures !UpperFirst(pts, up, low, k, n) ==>
              LeftRule(pts, up, low, n, Right(low, n)) && Position(pts, up, low, k, n + 1, Single)
  {
    if UpperFirst(pts, up, low, k, n) {
      UpperEnds(pts, up, low, y, k, n);
    } else {
      LowerEnds(pts, up, low, y, k, n);
    }
  }

  /** The lower run n is joined upwards, and the next upper run meets it too or not. */
  lemma AboveStep(pts: seq<Pt>, up: Line, low: Line, y: int, k: nat, n: nat)
    requires TwoLines(pts, up, low, y) && Position(pts, up, low, k, n, Above)
    ensures RightRule(pts, up, low, k - 1, if k < up.count &&
            Meet(pts, up, low, k, n) then Left(up, k) else Right(low, n))
    ensures k == up.count ==> Position(pts, up, low, k, n + 1, Single)
    ensures k < up.count ==>
              (Meet(pts, up, low, k, n) <==> pts[Left(up, k)].x <= pts[Right(low, n)].x + 1)
    ensures k < up.count && !Meet(pts, up, low, k, n) ==> Position(pts, up, low, k, n + 1, Single)
    ensures k < up.count && Meet(pts, up, low, k, n) && UpperFirst(pts, up, low, k, n) ==>
            Position(pts, up, low, k + 1, n, Above)
    ensures k < up.count && Meet(pts, up, low, k, n) && !UpperFirst(pts, up, low, k, n) ==>
            Position(pts, up, low, k, n + 1, Below)
  {
    JoinedRight(pts, up, low, k - 1, n);
    if k < up.count {
      assert pts[Right(up, k - 1)].x + 1 < pts[Left(up, k)].x;
      assert IsRun(pts, up, k, y - 1);
      if !Meet(pts, up, low, k, n) {
        EndsBeforeUpper(pts, up, low, y - 1, k, n);
      } else if UpperFirst(pts, up, low, k, n) {
        UpperEnds(pts, up, low, y, k, n);
      } else {
        LowerEnds(pts, up, low, y, k, n);
      }
    }
  }

  /** The upper run k is joined downwards, and the next lower run meets it too or not. */
  lemma BelowStep(pts: seq<Pt>, up: Line, low: Line, y: int, k: nat, n: nat)
    requires TwoLines(pts, up, low, y) && Position(pts, up, low, k, n, Below)
    ensures n == low.count || !Meet(pts, up, low, k, n) ==>
              RightRule(pts, up, low, k, Right(low, n - 1)) && Position(pts, up, low, k + 1, n, Single)
    ensures n < low.count ==>
              (Meet(pts, up, low, k, n) <==> pts[Left(low, n)].x <= pts[Right(up, k)].x + 1)
    ensures n < low.count && Meet(pts, up, low, k, n) ==> LeftRule(pts, up, low, n, Right(low, n - 1))
    ensures n < low.count && Meet(pts, up, low, k, n) && pts[Right(low, n)].x < pts[Right(up, k)].x ==>
              Position(pts, up, low, k, n + 1, Below)
    ensures n < low.count && Meet(pts, up, low, k, n) && pts[Right(low, n)].x >= pts[Right(up, k)].x ==>
              Position(pts, up, low, k + 1, n, Above)
  {
    if n < low.count {
      assert pts[Right(low, n - 1)].x + 1 < pts[Left(low, n)].x;
      assert IsRun(pts, low, n, y);
      if !Meet(pts, up, low, k, n) {
        EndsBefore(pts, up, low, y, k, n);
        JoinedRight(pts, up, low, k, n - 1);
      } else {
        JoinedLeft(pts, up, low, k, n);
        if pts[Right(low, n)].x < pts[Right(up, k)].x {
          LowerEnds(pts, up, low, y, k, n);
        } else {
          UpperEnds(pts, up, low, y, k, n);
        }
      }
    } else {
      JoinedRight(pts, up, low, k, n - 1);
    }
  }

  ghost predicate NoRepeats(w: seq<nat>) {
    forall i, j :: 0 <= i < j < |w| ==> w[i] != w[j]
  }

  /** Whether a link starts a contour, and which: a left end linked to the right end of its own
      run starts an outer one, linked to any other right end one in a gap. */
  function KindOf(s: nat, t: nat): Kind {
    if !IsLeft(s) || IsLeft(t) then NoStart else if t == s + 1 then Outer else Inner
  }

  /** Every link is a good edge, and the recorded first points are exactly the left ends that
      are linked to a right end, each recorded once and for what it is. */
  ghost predicate Recorded(pts: seq<Pt>, link: map<nat, nat>, ext: seq<nat>, inn: seq<nat>) {
    && (forall i :: i in link ==> GoodEdge(pts, i, link[i]))
    && (forall i :: i in ext <==> i in link && KindOf(i, link[i]).Outer?)
    && (forall i :: i in inn <==> i in link && KindOf(i, link[i]).Inner?)
    && NoRepeats(ext + inn)
  }

  lemma RecordedStarts(pts: seq<Pt>, link: map<nat, nat>, ext: seq<nat>, inn: seq<nat>, i: nat)
    requires Recorded(pts, link, ext, inn)
    ensures i in ext + inn <==> i in link && IsLeft(i) && !IsLeft(link[i])
  {
  }

  lemma StillDistinct(a: seq<nat>, b: seq<nat>, s: nat)
    requires NoRepeats(a + b) && s !in a + b
    ensures NoRepeats(a + [s] + b)
  {
    var w, r := a + b, a + [s] + b;
    forall i | 0 <= i < |r|
      ensures r[i] == if i < |a| then w[i] else if i == |a| then s else w[i - 1]
    {
    }
    forall i, j | 0 <= i < j < |r|
      ensures r[i] != r[j]
    {
      assert i < |a| ==> w[i] in w;
      assert j > |a| ==> w[j - 1] in w;
      assert |a| < i ==> w[i - 1] != w[j - 1];
    }
  }

  lemma StartsDistinct(ext: seq<nat>, inn: seq<nat>, s: nat, kind: Kind)
    requires NoRepeats(ext + inn) && s !in ext + inn
    ensures NoRepeats(ext + (if kind.Outer? then [s] else []) + (inn + (if kind.Inner? then [s] else [])))
  {
    if kind.Outer? {
      StillDistinct(ext, inn, s);
      assert inn + [] == inn;
    } else if kind.Inner? {
      StillDistinct(ext + inn, [], s);
      assert ext + inn + [] == ext + inn;
      assert ext + [] + (inn + [s]) == ext + inn + [s] + [];
    } else {
      assert ext + [] + (inn + []) == ext + inn;
    }
  }

  lemma RecordOneMore(pts: seq<Pt>, link: map<nat, nat>, ext: seq<nat>, inn: seq<nat>, s: nat, t: nat, kind: Kind)
    requires Recorded(pts, link, ext, inn) && s !in link && GoodEdge(pts, s, t)
    requires kind == KindOf(s, t)
    ensures Recorded(pts, link[s := t], ext + (if kind.Outer? then [s] else []),
            inn + (if kind.Inner? then [s] else []))
  {
    hide GoodEdge, NoRepeats;
    StartsDistinct(ext, inn, s, kind);
  }

  /** Whether a link starts a contour, and in which of the two sequences it is recorded. */
  datatype Kind = NoStart | Outer | Inner

  /** The line above the first and the line below the last. */
  const NO_LINE: Line := Line(0, 0)

  ghost predicate Extends(before: map<nat, nat>, after: map<nat, nat>) {
    forall i :: i in before ==> i in after && after[i] == before[i]
  }

  lemma SingleFacts(pts: seq<Pt>, up: Line, low: Line, y: int, k: nat, n: nat)
    requires TwoLines(pts, up, low, y) && k < up.count && n < low.count
    requires Position(pts, up, low, k, n, Single)
    ensures Right(up, k) < |pts| && Right(low, n) < |pts|
    ensures pts[Right(up, k)].x < pts[Right(low, n)].x && pts[Right(up, k)].x >= pts[Left(low, n)].x - 1 ==>
              && LeftRule(pts, up, low, n, Left(up, k)) && GoodEdge(pts, Left(low, n), Left(up, k))
              && Position(pts, up, low, k + 1, n, Above)
    ensures pts[Right(up, k)].x < pts[Left(low, n)].x - 1 ==>
              && RightRule(pts, up, low, k, Left(up, k)) && Position(pts, up, low, k + 1, n, Single)
    ensures pts[Right(up, k)].x >= pts[Right(low, n)].x && pts[Left(up, k)].x <= pts[Right(low, n)].x + 1 ==>
              && LeftRule(pts, up, low, n, Left(up, k)) && GoodEdge(pts, Left(low, n), Left(up, k))
              && Position(pts, up, low, k, n + 1, Below)
    ensures pts[Right(up, k)].x >= pts[Right(low, n)].x && pts[Left(up, k)].x > pts[Right(low, n)].x + 1 ==>
              && LeftRule(pts, up, low, n, Right(low, n)) && Position(pts, up, low, k, n + 1, Single)
  {
    hide Position, LeftRule, RightRule;
    assert IsRun(pts, up, k, y - 1) && IsRun(pts, low, n, y);
    if Meet(pts, up, low, k, n) {
      SingleMeets(pts, up, low, y, k, n);
      MeetTouch(pts, up, low, y, k, n);
    } else {
      SingleAlone(pts, up, low, y, k, n);
    }
  }

  lemma LinesInRange(pts: seq<Pt>, up: Line, low: Line, y: int)
    requires TwoLines(pts, up, low, y)
    ensures 2 * End(up) <= |pts| && 2 * End(low) <= |pts|
  {
  }

  lemma OwnEdge(pts: seq<Pt>, r: nat)
    ensures GoodEdge(pts, 2 * r, 2 * r + 1) && GoodEdge(pts, 2 * r + 1, 2 * r)
  {
  }

  /** The links made while the lower run n is joined upwards are good edges. */
  lemma AboveEdges(pts: seq<Pt>, up: Line, low: Line, y: int, k: nat, n: nat)
    requires TwoLines(pts, up, low, y) && Position(pts, up, low, k, n, Above)
    ensures GoodEdge(pts, Right(up, k - 1), Right(low, n))
    ensures k < up.count && Meet(pts, up, low, k, n) ==> GoodEdge(pts, Right(up, k - 1), Left(up, k))
  {
    MeetTouch(pts, up, low, y, k - 1, n);
    if k < up.count && Meet(pts, up, low, k, n) {
      MeetTouch(pts, up, low, y, k, n);
      assert TouchVia(pts, up.first + k - 1, low.first + n, up.first + k);
    }
  }

  /** The links made while the upper run k is joined downwards are good edges. */
  lemma BelowEdges(pts: seq<Pt>, up: Line, low: Line, y: int, k: nat, n: nat)
    requires TwoLines(pts, up, low, y) && Position(pts, up, low, k, n, Below)
    ensures GoodEdge(pts, Right(up, k), Right(low, n - 1))
    ensures n < low.count && Meet(pts, up, low, k, n) ==> GoodEdge(pts, Left(low, n), Right(low, n - 1))
  {
    MeetTouch(pts, up, low, y, k, n - 1);
    if n < low.count && Meet(pts, up, low, k, n) {
      MeetTouch(pts, up, low, y, k, n);
      assert TouchVia(pts, low.first + n, up.first + k, low.first + n - 1);
    }
  }

  lemma AloneBelow(pts: seq<Pt>, up: Line, low: Line, n: nat)
    requires n < low.count && Position(pts, up, low, up.count, n, Single)
    ensures LeftRule(pts, up, low, n, Right(low, n)) && Position(pts, up, low, up.count, n + 1, Single)
  {
  }

  lemma AloneAbove(pts: seq<Pt>, up: Line, low: Line, k: nat)
    requires k < up.count && Position(pts, up, low, k, low.count, Single)
    ensures RightRule(pts, up, low, k, Left(up, k)) && Position(pts, up, low, k + 1, low.count, Single)
  {
  }

  lemma NothingLinked(pts: seq<Pt>, l: Line)
    ensures Matched(map[], map[], 0, 0, 0, 0) && Recorded(pts, map[], [], [])
    ensures Ruled(pts, map[], NO_LINE, l, 0, 0)
  {
  }

  function LineAbove(lines: seq<Line>, y: nat): Line
    requires y < |lines|
  {
    if y == 0 then NO_LINE else lines[y - 1]
  }

  /** The lines hold all runs, one line after the other. */
  ghost predicate Tiles(lines: seq<Line>, n: nat) {
    && |lines| > 0 && lines[0].first == 0 && 2 * End(lines[|lines| - 1]) == n
    && (forall y :: 0 <= y < |lines| - 1 ==> lines[y + 1].first == End(lines[y]))
  }

  lemma NoLines(pts: seq<Pt>, link: map<nat, nat>, img: seq<seq<int>>)
    ensures AllLines(pts, [], img) && AllRuled(pts, link, [])
  {
  }

  lemma OneLine(pts: seq<Pt>, link: map<nat, nat>, l: Line, img: seq<seq<int>>)
    requires |img| > 0 && l.first == 0 && |pts| == 2 * End(l)
    requires IsLine(pts, l, 0) && Covers(pts, l, img[0], |img[0]|) && Ruled(pts, link, NO_LINE, l, l.count, 0)
    ensures AllLines(pts, [l], img) && AllRuled(pts, link, [l]) && Tiles([l], |pts|)
  {
    hide IsLine, Covers, Ruled;
  }

  lemma LinesMore(pts: seq<Pt>, lines: seq<Line>, l: Line, img: seq<seq<int>>)
    requires AllLines(pts, lines, img) && |lines| < |img|
    requires IsLine(pts, l, |lines|) && Covers(pts, l, img[|lines|], |img[|lines|]|)
    ensures AllLines(pts, lines + [l], img)
  {
    hide IsLine, Covers;
  }

  lemma LineIn(pts: seq<Pt>, lines: seq<Line>, y: nat, img: seq<seq<int>>)
    requires AllLines(pts, lines, img) && y < |lines|
    ensures IsLine(pts, lines[y], y)
  {
  }

  lemma TilesMore(lines: seq<Line>, low: Line, n: nat)
    requires Tiles(lines, n) && low.first == n / 2
    ensures Tiles(lines + [low], 2 * End(low))
  {
  }

  /** All left ends, and all right ends but those of the last line, are linked by the rule. */
  ghost predicate AllRuled(pts: seq<Pt>, link: map<nat, nat>, lines: seq<Line>) {
    forall y :: 0 <= y < |lines| ==>
      Ruled(pts, link, LineAbove(lines, y), lines[y], lines[y].count, LineAbove(lines, y).count)
  }

  /** All ends of all runs are linked by the rule. */
  ghost predicate FollowsRule(pts: seq<Pt>, link: map<nat, nat>, lines: seq<Line>) {
    && AllRuled(pts, link, lines)
    && (|lines| > 0 ==>
          var l := lines[|lines| - 1];
          Ruled(pts, link, l, Line(End(l), 0), 0, l.count))
  }

  lemma RuledExtends(pts: seq<Pt>, before: map<nat, nat>, after: map<nat, nat>, up: Line, low: Line, m: nat, q: nat)
    requires Ruled(pts, before, up, low, m, q) && Extends(before, after)
    ensures Ruled(pts, after, up, low, m, q)
  {
    hide LeftRule, RightRule;
  }

  lemma StillRuled(pts: seq<Pt>, before: map<nat, nat>, after: map<nat, nat>, lines: seq<Line>, up: Line, low: Line)
    requires |lines| > 0 && lines[|lines| - 1] == up
    requires AllRuled(pts, before, lines) && Extends(before, after) && Ruled(pts, after, up, low, low.count, up.count)
    ensures AllRuled(pts, after, lines + [low])
  {
    hide Ruled;
    var r := lines + [low];
    forall y | 0 <= y < |r|
      ensures Ruled(pts, after, LineAbove(r, y), r[y], r[y].count, LineAbove(r, y).count)
    {
      if y < |lines| {
        assert LineAbove(r, y) == LineAbove(lines, y) && r[y] == lines[y];
        RuledExtends(pts, before, after, LineAbove(r, y), r[y], r[y].count, LineAbove(r, y).count);
      }
    }
  }

  lemma LastRuled(pts: seq<Pt>, before: map<nat, nat>, after: map<nat, nat>, lines: seq<Line>)
    requires |lines| > 0 && AllRuled(pts, before, lines) && Extends(before, after)
    requires var l := lines[|lines| - 1]; Ruled(pts, after, l, Line(End(l), 0), 0, l.count)
    ensures FollowsRule(pts, after, lines)
  {
    hide Ruled;
    forall y | 0 <= y < |lines|
      ensures Ruled(pts, after, LineAbove(lines, y), lines[y], lines[y].count, LineAbove(lines, y).count)
    {
      RuledExtends(pts, before, after, LineAbove(lines, y), lines[y], lines[y].count, LineAbove(lines, y).count);
    }
  }

  class RunLinker {
    var pts: seq<Pt>
    var link: map<nat, nat>
    var ext: seq<nat>
    var inn: seq<nat>
    ghost var back: map<nat, nat>

    constructor ()
      ensures pts == [] && link == map[] && back == map[] && ext == [] && inn == []
    {
      pts, link, back, ext, inn := [], map[], map[], [], [];
    }

    /** The links made so far; sources and targets are counted by Matched. */
    ghost predicate Links(sa: nat, sb: nat, ta: nat, tb: nat)
      reads this
    {
      Matched(link, back, sa, sb, ta, tb) && Recorded(pts, link, ext, inn)
    }

    /** Link s to t, and record s as the first point of a contour if it starts one. */
    method Connect(s: nat, t: nat, kind: Kind, ghost sa: nat, ghost sb: nat, ghost ta: nat, ghost tb: nat)
      requires Links(sa, sb, ta, tb) && GoodEdge(pts, s, t)
      requires s == 2 * sa || s == 2 * sb + 1
      requires t == 2 * ta || t == 2 * tb + 1
      requires kind == KindOf(s, t)
      modifies this`link, this`back, this`ext, this`inn
      ensures Links(if IsLeft(s) then sa + 1 else sa, if IsLeft(s) then sb else sb + 1,
                    if IsLeft(t) then ta + 1 else ta, if IsLeft(t) then tb else tb + 1)
      ensures s !in old(link) && link == old(link)[s := t]
    {
      hide Matched, GoodEdge, Recorded;
      assert s !in link by {
        NotYetLinked(link, back, sa, sb, ta, tb, s);
      }
      MatchOneMore(link, back, sa, sb, ta, tb, s, t);
      RecordOneMore(pts, link, ext, inn, s, t, kind);
      link := link[s := t];
      back := back[t := s];
      if kind.Outer? {
        ext := ext + [s];
      } else if kind.Inner? {
        inn := inn + [s];
      }
      assert ext == old(ext) + (if kind.Outer? then [s] else []);
      assert inn == old(inn) + (if kind.Inner? then [s] else []);
    }

    /** Link the left end of the next lower run. */
    method ConnectLeft(ghost up: Line, low: Line, t: nat, kind: Kind, m: nat, ghost q: nat, ghost ta: nat,
                       ghost tb: nat)
      requires Links(low.first + m, up.first + q, ta, tb) && Ruled(pts, link, up, low, m, q)
      requires GoodEdge(pts, Left(low, m), t) && LeftRule(pts, up, low, m, t)
      requires t == 2 * ta || t == 2 * tb + 1
      requires kind == KindOf(Left(low, m), t)
      modifies this`link, this`back, this`ext, this`inn
      ensures Links(low.first + m + 1, up.first + q, if IsLeft(t) then ta + 1 else ta, if IsLeft(t) then tb else tb + 1)
      ensures Ruled(pts, link, up, low, m + 1, q) && Extends(old(link), link)
    {
      hide Matched, GoodEdge, Recorded, Ruled, LeftRule;
      RuledLeft(pts, link, up, low, m, q, t);
      Connect(Left(low, m), t, kind, low.first + m, up.first + q, ta, tb);
    }

    /** Link the right end of the next upper run. */
    method ConnectRight(up: Line, ghost low: Line, t: nat, ghost m: nat, q: nat, ghost ta: nat, ghost tb: nat)
      requires Links(low.first + m, up.first + q, ta, tb) && Ruled(pts, link, up, low, m, q)
      requires GoodEdge(pts, Right(up, q), t) && RightRule(pts, up, low, q, t)
      requires t == 2 * ta || t == 2 * tb + 1
      modifies this`link, this`back, this`ext, this`inn
      ensures Links(low.first + m, up.first + q + 1, if IsLeft(t) then ta + 1 else ta, if IsLeft(t) then tb else tb + 1)
      ensures Ruled(pts, link, up, low, m, q + 1) && Extends(old(link), link)
    {
      hide Matched, GoodEdge, Recorded, Ruled, RightRule;
      RuledRight(pts, link, up, low, m, q, t);
      Connect(Right(up, q), t, NoStart, low.first + m, up.first + q, ta, tb);
    }

    /** The merge of two lines at a position: which ends have their links, by the rule, and
        which one, prev, is waiting for its link or to be linked to. */
    ghost predicate Merging(up: Line, low: Line, k: nat, n: nat, flag: Flag, prev: nat)
      reads this
    {
      && Position(pts, up, low, k, n, flag)
      && match flag
         case Single =>
           Ruled(pts, link, up, low, n, k) && Links(low.first + n, up.first + k, up.first + k, low.first + n)
         case Above =>
           && prev == Right(up, k - 1) && Ruled(pts, link, up, low, n + 1, k - 1)
           && Links(low.first + n + 1, up.first + k - 1, up.first + k, low.first + n)
         case Below =>
           && prev == Right(low, n - 1) && Ruled(pts, link, up, low, n, k)
           && Links(low.first + n, up.first + k, up.first + k + 1, low.first + n - 1)
    }

    /** No run is pending: the run that ends first is passed, joined to the other if they meet. */
    method StepSingle(up: Line, low: Line, k0: nat, n0: nat, ghost y: int)
      returns (k: nat, n: nat, flag: Flag, prev: nat)
      requires TwoLines(pts, up, low, y) && Merging(up, low, k0, n0, Single, 0)
      requires k0 < up.count && n0 < low.count
      modifies this`link, this`back, this`ext, this`inn
      ensures Merging(up, low, k, n, flag, prev) && k + n == k0 + n0 + 1 && Extends(old(link), link)
    {
      hide Matched, Recorded, Ruled, LeftRule, RightRule, Position, IsLine, TwoLines;
      k, n, flag, prev := k0, n0, Single, 0;
      ghost var u, v := up.first + k, low.first + n;
      SingleFacts(pts, up, low, y, k, n);
      OwnEdge(pts, u);
      OwnEdge(pts, v);
      hide GoodEdge;
      if pts[Right(up, k)].x < pts[Right(low, n)].x {
        if pts[Right(up, k)].x >= pts[Left(low, n)].x - 1 {
          ConnectLeft(up, low, Left(up, k), NoStart, n, k, u, v);
          flag := Above;
          prev := Right(up, k);
        } else {
          ConnectRight(up, low, Left(up, k), n, k, u, v);
        }
        k := k + 1;
      } else {
        if pts[Left(up, k)].x <= pts[Right(low, n)].x + 1 {
          ConnectLeft(up, low, Left(up, k), NoStart, n, k, u, v);
          flag := Below;
          prev := Right(low, n);
        } else {
          ConnectLeft(up, low, Right(low, n), Outer, n, k, u, v);
        }
        n := n + 1;
      }
    }

    /** The lower run is joined upwards: either the next upper run meets it too, or its right
        end closes the contour on this side. */
    method StepAbove(up: Line, low: Line, k0: nat, n0: nat, prev0: nat, ghost y: int)
      returns (k: nat, n: nat, flag: Flag, prev: nat)
      requires TwoLines(pts, up, low, y) && Merging(up, low, k0, n0, Above, prev0)
      requires k0 < up.count && n0 < low.count
      modifies this`link, this`back, this`ext, this`inn
      ensures Merging(up, low, k, n, flag, prev) && k + n == k0 + n0 + 1 && Extends(old(link), link)
    {
      hide Matched, Recorded, Ruled, LeftRule, RightRule, IsLine, GoodEdge;
      k, n, flag, prev := k0, n0, Above, prev0;
      ghost var u, v := up.first + k, low.first + n;
      AboveStep(pts, up, low, y, k, n);
      AboveEdges(pts, up, low, y, k, n);
      assert Right(up, k) < |pts| && Right(low, n) < |pts| by {
        LinesInRange(pts, up, low, y);
      }
      hide Position, Meet;
      if pts[Left(up, k)].x > pts[Right(low, n)].x + 1 {
        ConnectRight(up, low, Right(low, n), n + 1, k - 1, u, v);
        flag := Single;
        n := n + 1;
      } else {
        ConnectRight(up, low, Left(up, k), n + 1, k - 1, u, v);
        if pts[Right(up, k)].x < pts[Right(low, n)].x {
          k := k + 1;
          prev := Right(up, k - 1);
        } else {
          flag := Below;
          prev := Right(low, n);
          n := n + 1;
        }
      }
    }

    /** The upper run is joined downwards: either the next lower run meets it too, which opens
        a gap between two lower runs, or its right end closes the contour on this side. */
    method StepBelow(up: Line, low: Line, k0: nat, n0: nat, prev0: nat, ghost y: int)
      returns (k: nat, n: nat, flag: Flag, prev: nat)
      requires TwoLines(pts, up, low, y) && Merging(up, low, k0, n0, Below, prev0)
      requires k0 < up.count && n0 < low.count
      modifies this`link, this`back, this`ext, this`inn
      ensures Merging(up, low, k, n, flag, prev) && k + n == k0 + n0 + 1 && Extends(old(link), link)
    {
      hide Matched, Recorded, Ruled, LeftRule, RightRule, IsLine, GoodEdge;
      k, n, flag, prev := k0, n0, Below, prev0;
      ghost var u, v := up.first + k, low.first + n;
      BelowStep(pts, up, low, y, k, n);
      BelowEdges(pts, up, low, y, k, n);
      assert Right(up, k) < |pts| && Right(low, n) < |pts| by {
        LinesInRange(pts, up, low, y);
      }
      hide Position, Meet;
      if pts[Left(low, n)].x > pts[Right(up, k)].x + 1 {
        ConnectRight(up, low, prev, n, k, u + 1, v - 1);
        flag := Single;
        k := k + 1;
      } else {
        ConnectLeft(up, low, prev, Inner, n, k, u + 1, v - 1);
        if pts[Right(low, n)].x < pts[Right(up, k)].x {
          n := n + 1;
          prev := Right(low, n - 1);
        } else {
          flag := Above;
          prev := Right(up, k);
          k := k + 1;
        }
      }
    }

    /** Merge two neighbouring lines. */
    method MergeLines(up: Line, low: Line, ghost y: int)
      requires TwoLines(pts, up, low, y) && Links(End(up), up.first, up.first, End(up))
      modifies this`link, this`back, this`ext, this`inn
      ensures Links(End(low), low.first, low.first, End(low))
      ensures Ruled(pts, link, up, low, low.count, up.count) && Extends(old(link), link)
    {
      hide Matched, Recorded, IsLine, Meet;
      var k: nat, n: nat, flag, prev: nat := 0, 0, Single, 0;
      while k < up.count && n < low.count
        invariant Merging(up, low, k, n, flag, prev) && Extends(old(link), link)
        decreases up.count + low.count - k - n
      {
        match flag {
          case Single => k, n, flag, prev := StepSingle(up, low, k, n, y);
          case Above => k, n, flag, prev := StepAbove(up, low, k, n, prev, y);
          case Below => k, n, flag, prev := StepBelow(up, low, k, n, prev, y);
        }
      }
      hide Ruled;
      n, flag := FinishLower(up, low, k, n, flag, prev, y);
      FinishUpper(up, low, k, n, flag, prev, y);
    }

    /** The upper line has run out: the lower runs that are left begin contours. */
    method FinishLower(up: Line, low: Line, k: nat, n0: nat, flag0: Flag, prev: nat, ghost y: int)
      returns (n: nat, flag: Flag)
      requires TwoLines(pts, up, low, y) && Merging(up, low, k, n0, flag0, prev)
      requires k == up.count || n0 == low.count
      modifies this`link, this`back, this`ext, this`inn
      ensures n == low.count && Merging(up, low, k, n, flag, prev) && Extends(old(link), link)
    {
      hide Matched, Recorded, Ruled, IsLine, Meet, LeftRule, RightRule;
      n, flag := n0, flag0;
      while n < low.count
        invariant n <= low.count && (n < low.count ==> k == up.count)
        invariant Merging(up, low, k, n, flag, prev) && Extends(old(link), link)
        decreases low.count - n
      {
        ghost var u, v := up.first + k, low.first + n;
        if flag != Single {
          AboveStep(pts, up, low, y, k, n);
          MeetTouch(pts, up, low, y, k - 1, n);
          ConnectRight(up, low, Right(low, n), n + 1, k - 1, u, v);
          flag := Single;
        } else {
          AloneBelow(pts, up, low, n);
          ConnectLeft(up, low, Right(low, n), Outer, n, k, u, v);
        }
        n := n + 1;
      }
    }

    /** The lower line has run out: the upper runs that are left close below. */
    method FinishUpper(up: Line, low: Line, k0: nat, n: nat, flag0: Flag, prev: nat, ghost y: int)
      requires TwoLines(pts, up, low, y) && Merging(up, low, k0, n, flag0, prev) && n == low.count
      modifies this`link, this`back, this`ext, this`inn
      ensures Links(End(low), low.first, low.first, End(low))
      ensures Ruled(pts, link, up, low, low.count, up.count) && Extends(old(link), link)
    {
      hide Matched, Recorded, Ruled, IsLine, Meet, LeftRule, RightRule;
      var k, flag := k0, flag0;
      while k < up.count
        invariant k <= up.count && Merging(up, low, k, n, flag, prev) && Extends(old(link), link)
        decreases up.count - k
      {
        ghost var u, v := up.first + k, low.first + n;
        if flag != Single {
          BelowStep(pts, up, low, y, k, n);
          MeetTouch(pts, up, low, y, k, n - 1);
          ConnectRight(up, low, prev, n, k, u + 1, v - 1);
          flag := Single;
        } else {
          AloneAbove(pts, up, low, k);
          ConnectRight(up, low, Left(up, k), n, k, u, v);
        }
        k := k + 1;
      }
    }

    /** The first line: each run begins a contour. */
    method LinkFirstLine(l: Line)
      requires l.first == 0 && link == map[] && back == map[] && ext == [] && inn == []
      modifies this`link, this`back, this`ext, this`inn
      ensures Links(End(l), l.first, l.first, End(l)) && Ruled(pts, link, NO_LINE, l, l.count, 0)
    {
      NothingLinked(pts, l);
      hide Matched, Recorded, Ruled;
      for i := 0 to l.count
        invariant Links(i, 0, 0, i) && Ruled(pts, link, NO_LINE, l, i, 0)
      {
        ConnectLeft(NO_LINE, l, Right(l, i), Outer, i, 0, 0, i);
      }
    }

    /** The last line: each run closes below. */
    method LinkLastLine(l: Line)
      requires Links(End(l), l.first, l.first, End(l))
      modifies this`link, this`back, this`ext, this`inn
      ensures Links(End(l), End(l), End(l), End(l))
      ensures Ruled(pts, link, l, Line(End(l), 0), 0, l.count) && Extends(old(link), link)
    {
      hide Matched, Recorded;
      ghost var low := Line(End(l), 0);
      for i := 0 to l.count
        invariant Links(End(l), l.first + i, l.first + i, End(l))
        invariant Ruled(pts, link, l, low, 0, i) && Extends(old(link), link)
      {
        ConnectRight(l, low, Left(l, i), 0, i, l.first + i, End(l));
      }
    }

    /** Append the runs of a row; links stay good. */
    method AddLine(row: seq<int>, y: int, ghost lines: seq<Line>, ghost img: seq<seq<int>>) returns (l: Line)
      requires |pts| % 2 == 0 && |lines| <= |img| && AllLines(pts, lines, img)
      requires Recorded(pts, link, ext, inn) && AllRuled(pts, link, lines)
      modifies this`pts
      ensures old(pts) <= pts && l.first == |old(pts)| / 2 && |pts| == 2 * End(l)
      ensures IsLine(pts, l, y) && Covers(pts, l, row, |row|)
      ensures AllLines(pts, lines, img) && Recorded(pts, link, ext, inn) && AllRuled(pts, link, lines)
    {
      hide IsLine, Covers, GoodEdge, Recorded, AllLines, AllRuled;
      var grown;
      grown, l := FindRuns(row, y, pts);
      LinesGrow(pts, grown, lines, img);
      RecordedGrows(pts, grown, link, ext, inn);
      AllRuledGrows(pts, grown, link, lines, img);
      pts := grown;
    }

    /** Link all runs of an image. */
    method LinkImage(img: seq<seq<int>>) returns (ghost lines: seq<Line>)
      requires |img| > 0
      requires pts == [] && link == map[] && back == map[] && ext == [] && inn == []
      modifies this
      ensures |lines| == |img| && AllLines(pts, lines, img) && Tiles(lines, |pts|) && IsPermutation(link, back, |pts|)
      ensures Recorded(pts, link, ext, inn) && |pts| % 2 == 0
      ensures FollowsRule(pts, link, lines)
    {
      hide IsLine, Covers, Matched, Recorded, Ruled, AllRuled, FollowsRule, IsPermutation, AllLines, Tiles;
      lines := [];
      NothingRecorded(pts);
      NoLines(pts, link, img);
      var up := AddLine(img[0], 0, lines, img);
      LinkFirstLine(up);
      lines := [up];
      OneLine(pts, link, up, img);
      for y := 1 to |img|
        invariant |lines| == y && lines[y - 1] == up && AllLines(pts, lines, img) && Tiles(lines, |pts|)
        invariant |pts| == 2 * End(up) && Links(End(up), up.first, up.first, End(up))
        invariant AllRuled(pts, link, lines)
      {
        var low := AddLine(img[y], y, lines, img);
        LineIn(pts, lines, y - 1, img);
        ghost var before := link;
        MergeLines(up, low, y);
        StillRuled(pts, before, link, lines, up, low);
        TilesMore(lines, low, 2 * End(up));
        LinesMore(pts, lines, low, img);
        up := low;
        lines := lines + [low];
      }
      ghost var before := link;
      LinkLastLine(up);
      LastRuled(pts, before, link, lines);
      MatchedIsPermutation(link, back, End(up), |pts|);
    }

    /** Read one contour, taking its links away. */
    method ReadContour(start: nat, ghost full: map<nat, nat>) returns (w: seq<nat>)
      requires OneToOne(full, back) && IsRest(full, back, link) && start in link
      modifies this`link
      ensures IsCycle(full, w) && w != [] && w[0] == start
      ensures forall i :: i in w ==> i in old(link)
      ensures forall i :: i in link <==> i in old(link) && i !in w
      ensures IsRest(full, back, link)
    {
      hide OneToOne, IsRest, IsChain;
      ghost var rest := link;
      w := [];
      var p := start;
      while true
        invariant Reading(full, rest, w, p, start)
        invariant forall i :: i in link <==> i in rest && i !in w
        invariant forall i :: i in link ==> link[i] == rest[i]
        decreases |rest| - |w|
      {
        ReadingStep(full, back, rest, w, p, start);
        w := w + [p];
        var t := link[p];
        link := link - {p};
        p := t;
        if p == start {
          break;
        }
      }
      RestWithout(full, back, rest, link, w);
    }
  
    /** Read the contours that the recorded points begin; a point whose contour has been read
        already begins none, but is counted. */
    method ReadStarts(starts: seq<nat>, before: seq<seq<nat>>, counted: int, ghost done: seq<nat>, ghost full: map<nat,
                      nat>)
      returns (contours: seq<seq<nat>>, count: int)
      requires OneToOne(full, back) && IsRest(full, back, link) && (forall i :: i in starts ==> i in full)
      requires AllRead(full, link, before) && Accounted(before, done) && counted == |done|
      modifies this`link
      ensures IsRest(full, back, link) && before <= contours
      ensures AllRead(full, link, contours) && Accounted(contours, done + starts) && count == |done + starts|
      ensures forall i :: i in starts ==> i !in link
      ensures forall i :: i in link ==> i in old(link)
      ensures forall c :: |before| <= c < |contours| ==>
                contours[c] != [] && contours[c][0] in starts && forall i :: i in contours[c] ==> i in old(link)
    {
      hide OneToOne, IsRest, AllRead, Accounted, IsCycle;
      contours, count := before, counted;
      assert done + starts[..0] == done;
      for j := 0 to |starts|
        invariant IsRest(full, back, link) && before <= contours
        invariant AllRead(full, link, contours) && Accounted(contours, done + starts[..j]) && count == |done| + j
        invariant forall i :: i in starts[..j] ==> i !in link
        invariant forall i :: i in link ==> i in old(link)
        invariant forall c :: |before| <= c < |contours| ==>
                    contours[c] != [] && contours[c][0] in starts && forall i :: i in contours[c] ==> i in old(link)
      {
        var p := starts[j];
        assert done + starts[..j + 1] == (done + starts[..j]) + [p];
        if p in link {
          ghost var rest := link;
          var w := ReadContour(p, full);
          ReadOneMore(full, rest, link, contours, w);
          AccountRead(contours, done + starts[..j], p, w);
          assert w[0] in starts;
          contours := contours + [w];
        } else {
          AccountSkipped(full, link, contours, done + starts[..j], p);
        }
        count := count + 1;
      }
      assert starts[..|starts|] == starts;
    }
  
    /** Read the outer contours and then the inner ones. */
    method ReadAll() returns (contours: seq<seq<nat>>, outer: nat, count: int)
      requires Recorded(pts, link, ext, inn) && IsPermutation(link, back, |pts|)
      modifies this`link
      ensures ExactlyOnce(contours, |pts|)
      ensures forall c :: 0 <= c < |contours| ==> IsCycle(old(link), contours[c])
      ensures outer <= |contours| && count == |ext + inn|
      ensures forall c :: 0 <= c < outer ==> contours[c] != [] && contours[c][0] in ext
      ensures forall c :: outer <= c < |contours| ==> contours[c] != [] && contours[c][0] in inn
      ensures forall c, i :: outer <= c < |contours| && i in contours[c] ==> i !in ext
      ensures |contours| <= |ext + inn|
      ensures |contours| < |ext + inn| <==> HoldsTwo(contours, ext + inn)
    {
      hide Recorded, Accounted, HoldsTwo, IsCycle, IsPermutation, AllRead, OneToOne, IsRest, ExactlyOnce;
      ghost var full := link;
      PermutationStart(pts, full, back, ext, inn, |pts|);
      contours, count := ReadStarts(ext, [], 0, [], full);
      outer := |contours|;
      assert [] + ext == ext;
      contours, count := ReadStarts(inn, contours, count, ext, full);
      NothingLeft(pts, full, back, ext, inn, |pts|, link);
      AllReadIsExactlyOnce(full, back, contours, |pts|);
      AccountedExactly(contours, ext + inn, |pts|);
    }
  }

  /** The contours read so far are cycles without common nodes; every node is in one of them
      or still linked. */
  ghost predicate AllRead(full: map<nat, nat>, rest: map<nat, nat>, contours: seq<seq<nat>>) {
    && (forall c :: 0 <= c < |contours| ==> IsCycle(full, contours[c]))
    && (forall c, i :: 0 <= c < |contours| && i in contours[c] ==> i !in rest)
    && (forall c, d, i :: 0 <= c < d < |contours| && i in contours[c] ==> i !in contours[d])
    && (forall i :: i in full ==> i in rest || OnSome(contours, i))
  }

  lemma ReadOneMore(full: map<nat, nat>, rest: map<nat, nat>, left: map<nat, nat>, contours: seq<seq<nat>>, w: seq<nat>)
    requires AllRead(full, rest, contours) && IsCycle(full, w)
    requires forall i :: i in w ==> i in rest
    requires forall i :: i in left <==> i in rest && i !in w
    ensures AllRead(full, left, contours + [w])
  {
    hide IsCycle;
    var r := contours + [w];
    assert r[|contours|] == w;
    assert forall c :: 0 <= c < |contours| ==> r[c] == contours[c];
    forall i | i in full && i !in left
      ensures OnSome(r, i)
    {
      if i in rest {
        assert i in r[|contours|];
      } else {
        var c :| 0 <= c < |contours| && i in contours[c];
        assert i in r[c];
      }
    }
  }

  /** Every recorded first point begins a contour of its own, or some contour holds two. */
  ghost predicate Accounted(contours: seq<seq<nat>>, done: seq<nat>) {
    && |contours| <= |done|
    && (|contours| == |done| ==> forall j :: 0 <= j < |done| ==> contours[j] != [] && contours[j][0] == done[j])
    && (|contours| < |done| ==> HoldsTwo(contours, done))
  }

  ghost predicate HoldsTwo(contours: seq<seq<nat>>, done: seq<nat>) {
    exists c, a, b :: 0 <= c < |contours| && 0 <= a < b < |done| && done[a] in contours[c] && done[b] in contours[c]
  }

  lemma TwoStillHeld(contours: seq<seq<nat>>, done: seq<nat>, more: seq<seq<nat>>, p: nat)
    requires HoldsTwo(contours, done) && contours <= more
    ensures HoldsTwo(more, done + [p])
  {
    var c, a, b :| 0 <= c < |contours| && 0 <= a < b < |done| && done[a] in contours[c] && done[b] in contours[c];
    var r := done + [p];
    assert r[a] == done[a] && r[b] == done[b] && more[c] == contours[c];
  }

  lemma AccountRead(contours: seq<seq<nat>>, done: seq<nat>, p: nat, w: seq<nat>)
    requires Accounted(contours, done) && w != [] && w[0] == p
    ensures Accounted(contours + [w], done + [p])
  {
    if |contours| < |done| {
      TwoStillHeld(contours, done, contours + [w], p);
    }
  }

  lemma AccountSkipped(full: map<nat, nat>, rest: map<nat, nat>, contours: seq<seq<nat>>, done: seq<nat>, p: nat)
    requires Accounted(contours, done) && AllRead(full, rest, contours) && p in full && p !in rest
    ensures Accounted(contours, done + [p])
  {
    if |contours| < |done| {
      TwoStillHeld(contours, done, contours, p);
    } else {
      var c :| 0 <= c < |contours| && p in contours[c];
      var r := done + [p];
      assert contours[c][0] == done[c] == r[c] && r[|done|] == p;
      assert r[c] in contours[c] && r[|done|] in contours[c];
    }
  }

  /** The chain w has been read, and p is the next node. */
  ghost predicate Reading(full: map<nat, nat>, rest: map<nat, nat>, w: seq<nat>, p: nat, start: nat) {
    && p in rest && p !in w && |w| < |rest|
    && (forall i :: i in w ==> i in rest)
    && (w == [] ==> p == start)
    && (w != [] ==> IsChain(full, w) && w[0] == start && full[w[|w| - 1]] == p)
  }

  lemma ReadingStep(full: map<nat, nat>, back: map<nat, nat>, rest: map<nat, nat>, w: seq<nat>, p: nat, start: nat)
    requires OneToOne(full, back) && IsRest(full, back, rest) && Reading(full, rest, w, p, start)
    ensures IsChain(full, w + [p]) && (w + [p])[0] == start && (w + [p])[|w|] == p && rest[p] == full[p]
    ensures full[p] != start ==> Reading(full, rest, w + [p], full[p], start)
  {
    var r := w + [p];
    if w == [] {
      assert IsChain(full, [p]);
      assert r == [p];
    } else {
      ChainExtends(full, back, w);
    }
    if full[p] != start {
      ChainExtends(full, back, r);
      var r' := r + [full[p]];
      assert r'[|r|] == full[p] && forall i :: 0 <= i < |r| ==> r[i] == r'[i];
      DistinctCardinality(r');
      assert Elements(r') <= rest.Keys;
      SubsetCardinality(Elements(r'), rest.Keys);
      assert |rest.Keys| == |rest|;
    }
  }

  /** The lines found so far are the runs of the first rows of the image. */
  ghost predicate AllLines(pts: seq<Pt>, lines: seq<Line>, img: seq<seq<int>>) {
    && |lines| <= |img|
    && forall i :: 0 <= i < |lines| ==> IsLine(pts, lines[i], i) && Covers(pts, lines[i], img[i], |img[i]|)
  }

  lemma LineGrows(pts: seq<Pt>, grown: seq<Pt>, l: Line, y: int, row: seq<int>)
    requires pts <= grown && IsLine(pts, l, y) && Covers(pts, l, row, |row|)
    ensures IsLine(grown, l, y) && Covers(grown, l, row, |row|)
  {
    assert forall i :: 0 <= i < |pts| ==> grown[i] == pts[i];
    forall i | 0 <= i < l.count
      ensures IsRun(grown, l, i, y) && grown[Right(l, i)].x < |row|
    {
      assert IsRun(pts, l, i, y);
    }
    forall i, j | 0 <= i < j < l.count
      ensures grown[Right(l, i)].x + 1 < grown[Left(l, j)].x
    {
      assert pts[Right(l, i)].x + 1 < pts[Left(l, j)].x;
    }
    forall x | 0 <= x < |row|
      ensures row[x] != 0 <==> exists i :: 0 <= i < l.count && InRun(grown, l, i, x)
    {
      assert forall i :: 0 <= i < l.count ==> (InRun(grown, l, i, x) <==> InRun(pts, l, i, x));
    }
  }

  lemma LinesGrow(pts: seq<Pt>, grown: seq<Pt>, lines: seq<Line>, img: seq<seq<int>>)
    requires pts <= grown && AllLines(pts, lines, img)
    ensures AllLines(grown, lines, img)
  {
    forall i | 0 <= i < |lines|
      ensures IsLine(grown, lines[i], i) && Covers(grown, lines[i], img[i], |img[i]|)
    {
      LineGrows(pts, grown, lines[i], i, img[i]);
    }
  }

  /** New runs do not change how the old ones meet. */
  lemma RuledGrows(pts: seq<Pt>, grown: seq<Pt>, link: map<nat, nat>, up: Line, low: Line, m: nat, q: nat)
    requires pts <= grown && 2 * End(up) <= |pts| && 2 * End(low) <= |pts| && m <= low.count && q <= up.count
    requires Ruled(pts, link, up, low, m, q)
    ensures Ruled(grown, link, up, low, m, q)
  {
    forall j, i | 0 <= j < up.count && 0 <= i < low.count
      ensures Meet(pts, up, low, j, i) <==> Meet(grown, up, low, j, i)
    {
    }
    forall i | 0 <= i < m
      ensures LeftRule(grown, up, low, i, link[Left(low, i)])
    {
      var t := link[Left(low, i)];
      assert LeftRule(pts, up, low, i, t);
      if k :| LeftmostAbove(pts, up, low, i, k) {
        assert LeftmostAbove(grown, up, low, i, k);
      }
    }
    forall j | 0 <= j < q
      ensures RightRule(grown, up, low, j, link[Right(up, j)])
    {
      var t := link[Right(up, j)];
      assert RightRule(pts, up, low, j, t);
      if n :| RightmostBelow(pts, up, low, j, n) {
        assert RightmostBelow(grown, up, low, j, n);
      }
    }
  }

  lemma AllRuledGrows(pts: seq<Pt>, grown: seq<Pt>, link: map<nat, nat>, lines: seq<Line>, img: seq<seq<int>>)
    requires pts <= grown && AllLines(pts, lines, img) && AllRuled(pts, link, lines)
    ensures AllRuled(grown, link, lines)
  {
    hide Ruled, Covers;
    forall y | 0 <= y < |lines|
      ensures Ruled(grown, link, LineAbove(lines, y), lines[y], lines[y].count, LineAbove(lines, y).count)
    {
      assert IsLine(pts, lines[y], y);
      assert y > 0 ==> IsLine(pts, lines[y - 1], y - 1);
      RuledGrows(pts, grown, link, LineAbove(lines, y), lines[y], lines[y].count, LineAbove(lines, y).count);
    }
  }

  lemma EdgeGrows(pts: seq<Pt>, grown: seq<Pt>, s: nat, t: nat)
    requires pts <= grown && GoodEdge(pts, s, t)
    ensures GoodEdge(grown, s, t)
  {
    if c :| TouchVia(pts, Run(s), c, Run(t)) {
      assert TouchVia(grown, Run(s), c, Run(t));
    }
  }

  lemma RecordedGrows(pts: seq<Pt>, grown: seq<Pt>, link: map<nat, nat>, ext: seq<nat>, inn: seq<nat>)
    requires pts <= grown && Recorded(pts, link, ext, inn)
    ensures Recorded(grown, link, ext, inn)
  {
    hide GoodEdge;
    forall i | i in link
      ensures GoodEdge(grown, i, link[i])
    {
      EdgeGrows(pts, grown, i, link[i]);
    }
  }

  lemma NothingRecorded(pts: seq<Pt>)
    ensures Recorded(pts, map[], [], [])
  {
  }

  // ----- The links form a permutation -----

  ghost predicate IsPermutation(link: map<nat, nat>, back: map<nat, nat>, n: nat) {
    && (forall i: nat :: i in link <==> i < n)
    && (forall i: nat :: i in back <==> i < n)
    && (forall i :: i in link ==> link[i] in back && back[link[i]] == i)
    && (forall i :: i in back ==> back[i] in link && link[back[i]] == i)
  }

  lemma MatchedIsPermutation(link: map<nat, nat>, back: map<nat, nat>, e: nat, n: nat)
    requires Matched(link, back, e, e, e, e) && n == 2 * e
    ensures IsPermutation(link, back, n)
  {
    forall i: nat
      ensures (i in link <==> i < n) && (i in back <==> i < n)
    {
      assert Among(i, e, e) <==> i < n;
    }
  }

  // ----- Reading the contours out -----

  /** A closed contour: every node is linked to the next, the last to the first. */
  ghost predicate IsCycle(full: map<nat, nat>, w: seq<nat>) {
    IsChain(full, w) && full[w[|w| - 1]] == w[0]
  }

  ghost predicate IsChain(full: map<nat, nat>, w: seq<nat>) {
    && |w| > 0
    && (forall i :: 0 <= i < |w| ==> w[i] in full)
    && (forall i :: 0 <= i < |w| - 1 ==> LinkedAt(full, w, i))
    && (forall i, j :: 0 <= i < j < |w| ==> w[i] != w[j])
  }

  ghost predicate LinkedAt(full: map<nat, nat>, w: seq<nat>, i: nat)
    requires i < |w| - 1 && w[i] in full
  {
    full[w[i]] == w[i + 1]
  }

  /** The links that are still there are whole contours. */
  ghost predicate IsRest(full: map<nat, nat>, back: map<nat, nat>, rest: map<nat, nat>) {
    forall i :: i in rest ==>
      && i in full && i in back && rest[i] == full[i]
      && full[i] in rest && back[i] in rest
  }

  ghost predicate OneToOne(full: map<nat, nat>, back: map<nat, nat>) {
    && (forall i :: i in full ==> full[i] in back && back[full[i]] == i)
    && (forall i :: i in back ==> back[i] in full && full[back[i]] == i)
  }

  /** A chain either closes or goes on to a node it has not been at. */
  lemma ChainExtends(full: map<nat, nat>, back: map<nat, nat>, w: seq<nat>)
    requires OneToOne(full, back) && IsChain(full, w)
    requires full[w[|w| - 1]] in full && full[w[|w| - 1]] != w[0]
    ensures IsChain(full, w + [full[w[|w| - 1]]])
  {
    var t := full[w[|w| - 1]];
    var longer := w + [t];
    forall i | 0 <= i < |w|
      ensures w[i] != t
    {
      if i > 0 {
        assert LinkedAt(full, w, i - 1);
        assert back[w[i]] == w[i - 1] && back[t] == w[|w| - 1];
      }
    }
    forall i | 0 <= i < |longer| - 1
      ensures LinkedAt(full, longer, i)
    {
      assert i < |w| - 1 ==> LinkedAt(full, w, i);
    }
  }

  /** Taking a whole contour away leaves whole contours. */
  lemma RestWithout(full: map<nat, nat>, back: map<nat, nat>, rest: map<nat, nat>, left: map<nat, nat>, w: seq<nat>)
    requires OneToOne(full, back) && IsRest(full, back, rest) && IsCycle(full, w)
    requires forall i :: i in left <==> i in rest && i !in w
    requires forall i :: i in left ==> left[i] == rest[i]
    ensures IsRest(full, back, left)
  {
    forall i | i in left
      ensures full[i] in left && back[i] in left
    {
      if full[i] in w {
        CycleClosedBack(full, back, w, full[i]);
      }
      if back[i] in w {
        CycleClosed(full, w, back[i]);
      }
    }
  }

  lemma CycleClosed(full: map<nat, nat>, w: seq<nat>, i: nat)
    requires IsCycle(full, w) && i in w
    ensures i in full && full[i] in w
  {
    var k :| 0 <= k < |w| && w[k] == i;
    if k < |w| - 1 {
      assert LinkedAt(full, w, k);
    }
  }

  lemma CycleClosedBack(full: map<nat, nat>, back: map<nat, nat>, w: seq<nat>, i: nat)
    requires OneToOne(full, back) && IsCycle(full, w) && i in w
    ensures i in back && back[i] in w
  {
    var k :| 0 <= k < |w| && w[k] == i;
    if k > 0 {
      assert LinkedAt(full, w, k - 1);
    } else {
      assert full[w[|w| - 1]] == i;
    }
  }

  /** Following links from a left end leads up until a recorded first point is met. */
  lemma {:induction false} LeftReachesStart(pts: seq<Pt>, full: map<nat, nat>, ext: seq<nat>, inn: seq<nat>,
                                        s: set<nat>, i: nat)
    returns (r: nat)
    requires Recorded(pts, full, ext, inn) && i in full && IsLeft(i) && i in s
    requires forall j :: j in s ==> j in full && full[j] in s
    ensures r in ext + inn && r in s
    decreases i
  {
    assert GoodEdge(pts, i, full[i]);
    if IsLeft(full[i]) {
      r := LeftReachesStart(pts, full, ext, inn, s, full[i]);
    } else {
      r := i;
    }
  }

  /** Following links from a right end leads down, and then over to a left end. */
  lemma {:induction false} ReachesStart(pts: seq<Pt>, full: map<nat, nat>, back: map<nat, nat>, ext: seq<nat>,
                                        inn: seq<nat>,
                                        n: nat, s: set<nat>, i: nat)
    returns (r: nat)
    requires Recorded(pts, full, ext, inn) && IsPermutation(full, back, n) && i in s
    requires forall j :: j in s ==> j in full && full[j] in s
    ensures r in ext + inn && r in s
    decreases n - i
  {
    assert i < n && full[i] < n;
    if IsLeft(i) {
      r := LeftReachesStart(pts, full, ext, inn, s, i);
    } else if IsLeft(full[i]) {
      r := LeftReachesStart(pts, full, ext, inn, s, full[i]);
    } else {
      assert GoodEdge(pts, i, full[i]);
      r := ReachesStart(pts, full, back, ext, inn, n, s, full[i]);
    }
  }

  /** If no recorded first point is left, nothing is left. */
  lemma NothingLeft(pts: seq<Pt>, full: map<nat, nat>, back: map<nat, nat>, ext: seq<nat>, inn: seq<nat>, n: nat,
                    rest: map<nat, nat>)
    requires Recorded(pts, full, ext, inn) && IsPermutation(full, back, n) && IsRest(full, back, rest)
    requires forall i :: i in ext + inn ==> i !in rest
    ensures rest == map[]
  {
    if rest != map[] {
      var i :| i in rest;
      var r := ReachesStart(pts, full, back, ext, inn, n, rest.Keys, i);
    }
  }

  lemma NotYetLinked(link: map<nat, nat>, back: map<nat, nat>, sa: nat, sb: nat, ta: nat, tb: nat, s: nat)
    requires Matched(link, back, sa, sb, ta, tb) && (s == 2 * sa || s == 2 * sb + 1)
    ensures s !in link
  {
    assert !Among(s, sa, sb);
  }

  // ----- The whole algorithm -----

  /** Every end point of every run is on exactly one of the contours, once. */
  ghost predicate ExactlyOnce(contours: seq<seq<nat>>, n: nat) {
    && (forall i: nat :: i < n ==> OnSome(contours, i))
    && (forall c, i :: 0 <= c < |contours| && i in contours[c] ==> i < n)
    && (forall c, d, i :: 0 <= c < d < |contours| && i in contours[c] ==> i !in contours[d])
    && (forall c :: 0 <= c < |contours| ==> NoRepeats(contours[c]))
  }

  ghost predicate OnSome(contours: seq<seq<nat>>, i: nat) {
    exists c :: 0 <= c < |contours| && i in contours[c]
  }

  lemma AllReadIsExactlyOnce(full: map<nat, nat>, back: map<nat, nat>, contours: seq<seq<nat>>, n: nat)
    requires IsPermutation(full, back, n) && AllRead(full, map[], contours)
    ensures ExactlyOnce(contours, n)
    ensures forall c :: 0 <= c < |contours| ==> IsCycle(full, contours[c])
  {
    forall c | 0 <= c < |contours|
      ensures NoRepeats(contours[c]) && forall i :: i in contours[c] ==> i < n
    {
      assert IsCycle(full, contours[c]);
    }
  }

  /** A contour stays within one 8-connected component: whatever labels are given to runs so
      that touching runs agree, all nodes of a contour have the same label. */
  lemma {:induction false} ContourInOneComponent(pts: seq<Pt>, full: map<nat, nat>, ext: seq<nat>, inn: seq<nat>,
                                                 w: seq<nat>, lab: nat -> int, k: nat)
    requires Recorded(pts, full, ext, inn) && IsCycle(full, w) && k < |w|
    requires forall a, b :: Touch(pts, a, b) ==> lab(a) == lab(b)
    ensures lab(Run(w[k])) == lab(Run(w[0]))
  {
    if k > 0 {
      ContourInOneComponent(pts, full, ext, inn, w, lab, k - 1);
      assert LinkedAt(full, w, k - 1);
      EdgeInOneComponent(pts, w[k - 1], w[k], lab);
    }
  }

  lemma EdgeInOneComponent(pts: seq<Pt>, s: nat, t: nat, lab: nat -> int)
    requires GoodEdge(pts, s, t)
    requires forall a, b :: Touch(pts, a, b) ==> lab(a) == lab(b)
    ensures lab(Run(s)) == lab(Run(t))
  {
    hide Touch;
    if c :| TouchVia(pts, Run(s), c, Run(t)) {
      assert Touch(pts, Run(s), c) && Touch(pts, c, Run(t));
    }
  }

  lemma PermutationStart(pts: seq<Pt>, full: map<nat, nat>, back: map<nat, nat>, ext: seq<nat>, inn: seq<nat>, n: nat)
    requires Recorded(pts, full, ext, inn) && IsPermutation(full, back, n)
    ensures OneToOne(full, back) && IsRest(full, back, full)
    ensures AllRead(full, full, []) && Accounted([], [])
    ensures forall i :: i in ext || i in inn ==> i in full
  {
    hide GoodEdge;
    assert forall i :: i in ext || i in inn ==> i in ext + inn;
  }

  /** Fewer contours than recorded first points means, exactly, that some contour holds two. */
  lemma AccountedExactly(contours: seq<seq<nat>>, done: seq<nat>, n: nat)
    requires Accounted(contours, done) && ExactlyOnce(contours, n)
    ensures |contours| <= |done|
    ensures |contours| < |done| <==> HoldsTwo(contours, done)
  {
    if |contours| == |done| {
      assert forall a :: 0 <= a < |done| ==> done[a] in contours[a];
      forall c, a, b | 0 <= c < |contours| && 0 <= a < b < |done| && done[a] in contours[c]
        ensures done[b] !in contours[c]
      {
        assert c == a;
      }
    }
  }

  ghost predicate IsPolygon(pts: seq<Pt>, w: seq<nat>, poly: seq<Pt>) {
    && |poly| == |w|
    && forall i :: 0 <= i < |w| ==> w[i] < |pts| && poly[i] == pts[w[i]]
  }

  method Polygons(pts: seq<Pt>, contours: seq<seq<nat>>) returns (points: seq<seq<Pt>>)
    requires forall c, i :: 0 <= c < |contours| && i in contours[c] ==> i < |pts|
    ensures |points| == |contours| && forall c :: 0 <= c < |contours| ==> IsPolygon(pts, contours[c], points[c])
  {
    points := [];
    for c := 0 to |contours|
      invariant |points| == c && forall d :: 0 <= d < c ==> IsPolygon(pts, contours[d], points[d])
    {
      var w := contours[c];
      assert forall i :: 0 <= i < |w| ==> w[i] in w;
      points := points + [seq(|w|, i requires 0 <= i < |w| && w[i] < |pts| => pts[w[i]])];
    }
  }
}
