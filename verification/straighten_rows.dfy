/** What the rows of the layout show (ncm_visualizer/js/visualize.js:65-162): paths through the tree, box by box. */
module StraightenRows {
  import opened Straighten

  /** A node reached at these times on the percentile clock and on the mean clock. */
  datatype Step = Step(node: Tree, now: real, mean: real)

  /** How long the node lasts on the percentile clock: a pause makes up for what the clocks differ by. */
  function Lasts(g: Settings, s: Step): real
    requires !s.node.Loop?
  {
    match s.node
    case Instr(mew, sigma, _) => g.quantile(mew, sigma)
    case Pause(length, _) => length - (s.now - s.mean)
  }

  /** From one node to a child of it, which starts when it is over. */
  ghost predicate Follows(g: Settings, s: Step, next: Step) {
    && !s.node.Loop? && Lasts(g, s) >= 0.0
    && next.node in s.node.children
    && next.now == s.now + Lasts(g, s)
    && next.mean == s.mean + match s.node case Instr(mew, _, _) => mew case Pause(length, _) => length
  }

  /** A path from the root, with the times at which each node is reached. */
  ghost predicate Walk(g: Settings, root: Tree, w: seq<Step>) {
    && (w != [] ==> w[0] == Step(root, 0.0, 0.0))
    && forall k :: 0 <= k < |w| - 1 ==> Follows(g, w[k], w[k + 1])
  }

  /** The box of a node: as wide as it lasts, a pause and an instruction each in its own kind; 50 for LOOP. */
  function Shown(g: Settings, s: Step): Box {
    match s.node
    case Instr(_, _, _) => Box(InstrBox, Lasts(g, s) * g.scale)
    case Pause(_, _) => Box(PauseBox, Lasts(g, s) * g.scale)
    case Loop => Box(LoopBox, 50.0)
  }

  function AllShown(g: Settings, w: seq<Step>): (r: seq<Box>)
    ensures |r| == |w| && forall k :: 0 <= k < |w| ==> r[k] == Shown(g, w[k])
  {
    seq(|w|, k requires 0 <= k < |w| => Shown(g, w[k]))
  }

  /** The boxes of the walk from place `m` on, behind a spacer as wide as those that are left out. */
  ghost predicate ShowsFrom(g: Settings, w: seq<Step>, m: nat, boxes: seq<Box>) {
    m <= |w| &&
    boxes == (if m == 0 then [] else [Box(Spacer, TotalWidth(AllShown(g, w[..m])))]) + AllShown(g, w[m..])
  }

  /** A row that is drawn shows a walk that ends in LOOP; one that fails says what went wrong at the end of a walk. */
  ghost predicate RowShows(g: Settings, root: Tree, row: Row) {
    match row
    case Line(boxes) => exists w, m :: ShowsWalk(g, root, boxes, w, m)
    case Failure(message) => exists w :: FailsAt(g, root, message, w)
  }

  /** The last node of the walk would end before it starts. */
  ghost predicate FailsAt(g: Settings, root: Tree, message: Message, w: seq<Step>) {
    && Walk(g, root, w) && w != [] && !w[|w| - 1].node.Loop? && Lasts(g, w[|w| - 1]) < 0.0
    && message == match w[|w| - 1].node case Instr(_, _, _) => NegativeTime case Pause(_, _) => DeadlineMissed
  }

  ghost predicate ShowsWalk(g: Settings, root: Tree, boxes: seq<Box>, w: seq<Step>, m: nat) {
    Walk(g, root, w) && w != [] && w[|w| - 1].node.Loop? && m < |w| && ShowsFrom(g, w, m, boxes)
  }

  ghost predicate RowsShow(g: Settings, root: Tree, rows: seq<Row>) {
    forall k :: 0 <= k < |rows| ==> RowShows(g, root, rows[k])
  }

  lemma RowsTogether(g: Settings, root: Tree, a: seq<Row>, b: seq<Row>)
    requires RowsShow(g, root, a) && RowsShow(g, root, b)
    ensures RowsShow(g, root, a + b)
  {
    hide RowShows;
  }

  lemma {:induction false} WidthOfBoth(a: seq<Box>, b: seq<Box>)
    ensures TotalWidth(a + b) == TotalWidth(a) + TotalWidth(b)
    decreases b
  {
    if b == [] {
      assert a + b == a;
    } else {
      var front := b[..|b| - 1];
      assert (a + b)[..|a + b| - 1] == a + front;
      WidthOfBoth(a, front);
    }
  }

  lemma ShownOne(g: Settings, w: seq<Step>, s: Step)
    ensures AllShown(g, w + [s]) == AllShown(g, w) + [Shown(g, s)]
  {
  }

  /** The row goes on with the next node of the walk. */
  lemma ShowsMore(g: Settings, w: seq<Step>, m: nat, boxes: seq<Box>, s: Step)
    requires ShowsFrom(g, w, m, boxes)
    ensures ShowsFrom(g, w + [s], m, boxes + [Shown(g, s)])
  {
    hide Shown;
    assert (w + [s])[..m] == w[..m] && (w + [s])[m..] == w[m..] + [s];
    ShownOne(g, w[m..], s);
  }

  /** A row is as wide as the whole walk. */
  lemma ShownWidth(g: Settings, w: seq<Step>, m: nat, boxes: seq<Box>)
    requires ShowsFrom(g, w, m, boxes)
    ensures TotalWidth(boxes) == TotalWidth(AllShown(g, w))
  {
    hide Shown;
    var front, rest := AllShown(g, w[..m]), AllShown(g, w[m..]);
    assert AllShown(g, w) == front + rest;
    WidthOfBoth(front, rest);
    if m > 0 {
      var spacer := Box(Spacer, TotalWidth(front));
      WidthOfBoth([spacer], rest);
      assert [spacer][..0] == [];
    } else {
      assert boxes == rest;
    }
  }

  /** A branch that starts with a spacer shows the walk from behind that node on. */
  lemma SpacerShows(g: Settings, w: seq<Step>, m: nat, boxes: seq<Box>)
    requires ShowsFrom(g, w, m, boxes) && w != []
    ensures ShowsFrom(g, w, |w|, SpacerFor(boxes))
  {
    hide Shown;
    ShownWidth(g, w, m, boxes);
    assert w[..|w|] == w && w[|w|..] == [];
    assert SpacerFor(boxes) + [] == SpacerFor(boxes);
  }

  lemma WalkOn(g: Settings, root: Tree, w: seq<Step>, s: Step, next: Step)
    requires Walk(g, root, w + [s]) && Follows(g, s, next)
    ensures Walk(g, root, w + [s] + [next])
  {
    hide Follows;
    var x, y := w + [s], w + [s] + [next];
    forall k | 0 <= k < |y| - 1
      ensures Follows(g, y[k], y[k + 1])
    {
      if k < |w| {
        assert y[k] == x[k] && y[k + 1] == x[k + 1];
      }
    }
  }

  lemma LoopShows(g: Settings, root: Tree, w: seq<Step>, m: nat, boxes: seq<Box>, s: Step)
    requires Walk(g, root, w + [s]) && s.node.Loop? && ShowsFrom(g, w, m, boxes)
    ensures RowShows(g, root, Line(boxes + [Box(LoopBox, LOOP_WIDTH)]))
  {
    ShowsMore(g, w, m, boxes, s);
    assert ShowsWalk(g, root, boxes + [Box(LoopBox, LOOP_WIDTH)], w + [s], m);
  }

  lemma {:induction false} RowsOfTree(g: Settings, root: Tree, w: seq<Step>, m: nat, boxes: seq<Box>, s: Step)
    requires Walk(g, root, w + [s]) && ShowsFrom(g, w, m, boxes)
    ensures RowsShow(g, root, Rows(g, s.node, boxes, s.now, s.mean))
    decreases s.node, 0
  {
    hide Walk, ShowsFrom, RowShows;
    var t := s.node;
    if t.Loop? {
      LoopShows(g, root, w, m, boxes, s);
    } else {
      var len := Duration(g, t, s.now, s.mean);
      assert len == Lasts(g, s);
      if len >= 0.0 {
        assert BoxOf(g, t, len) == Shown(g, s);
        ShowsMore(g, w, m, boxes, s);
        RowsOfBranches(g, root, w, m, boxes + [Shown(g, s)], s, |t.children|);
      } else {
        NoRow(g, root, w, s);
      }
    }
  }

  lemma NoRow(g: Settings, root: Tree, w: seq<Step>, s: Step)
    requires Walk(g, root, w + [s]) && !s.node.Loop? && Lasts(g, s) < 0.0
    ensures RowShows(g, root, Failure(if s.node.Pause? then DeadlineMissed else NegativeTime))
  {
    assert FailsAt(g, root, if s.node.Pause? then DeadlineMissed else NegativeTime, w + [s]);
  }

  lemma {:induction false} RowsOfBranches(g: Settings, root: Tree, w: seq<Step>, m: nat, boxes: seq<Box>, s: Step,
                                          n: nat)
    requires !s.node.Loop? && n <= |s.node.children| && Lasts(g, s) >= 0.0
    requires Walk(g, root, w + [s]) && ShowsFrom(g, w + [s], m, boxes)
    ensures RowsShow(g, root,
                     BranchRows(g, s.node, boxes, s.now + Lasts(g, s), s.mean + MeanDuration(s.node), n))
    decreases s.node, 0, n
  {
    hide Walk, ShowsFrom, RowShows, RowsShow, Rows;
    var t, now, mean := s.node, s.now + Lasts(g, s), s.mean + MeanDuration(s.node);
    if n == 0 {
      NoRows(g, root);
    } else {
      var next := Step(t.children[n - 1], now, mean);
      assert Follows(g, s, next);
      WalkOn(g, root, w, s, next);
      RowsOfBranches(g, root, w, m, boxes, s, n - 1);
      if n == 1 {
        RowsOfTree(g, root, w + [s], m, boxes, next);
      } else {
        SpacerShows(g, w + [s], m, boxes);
        RowsOfTree(g, root, w + [s], |w + [s]|, SpacerFor(boxes), next);
      }
      RowsTogether(g, root, BranchRows(g, t, boxes, now, mean, n - 1),
                   Rows(g, next.node, if n == 1 then boxes else SpacerFor(boxes), now, mean));
    }
  }

  lemma NoRows(g: Settings, root: Tree)
    ensures RowsShow(g, root, [])
  {
  }

  /**
   Every row that is drawn shows a path from the root to a LOOP: from some node on box by box, each as wide as its
   node lasts, pauses and instructions in their own kinds, behind a spacer as wide as the nodes left out.  Every
   other row stands for a path to a node that would last less than no time, and says if that is a pause.
   */
  lemma RowsShowPaths(g: Settings, t: Tree)
    ensures RowsShow(g, t, Rows(g, t, [], 0.0, 0.0))
  {
    hide RowsShow, Rows;
    var s := Step(t, 0.0, 0.0);
    assert Walk(g, t, [] + [s]);
    assert ShowsFrom(g, [], 0, []);
    RowsOfTree(g, t, [], 0, [], s);
  }
}
