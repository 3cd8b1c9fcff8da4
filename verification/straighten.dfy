/**
 Laying out an execution tree as rows of boxes (ncm_visualizer/js/visualize.js:79-162), over the reals.
 Two clocks run along every path: one by the chosen percentile of each duration, one by the means.
 */
module Straighten {
  /** A tree as parse.py writes it. */
  datatype Tree =
    | Instr(mew: real, sigma: real, children: seq<Tree>)
    | Pause(length: real, children: seq<Tree>)
    | Loop

  datatype Kind = InstrBox | PauseBox | LoopBox | Spacer

  /** One drawn box; only its kind and width matter here. */
  datatype Box = Box(kind: Kind, width: real)

  datatype Message = NegativeTime | DeadlineMissed

  const LOOP_WIDTH := 50.0

  /** The settings of the page: the zoom factor and the quantile function at the chosen percentile. */
  datatype Settings = Settings(scale: real, quantile: (real, real) -> real)

  /** The row a branch ends in. */
  datatype Row = Line(boxes: seq<Box>) | Failure(message: Message)

  ghost predicate AtMostTwo(t: Tree) {
    t.Loop? || (|t.children| <= 2 && forall c :: c in t.children ==> AtMostTwo(c))
  }

  function TotalWidth(boxes: seq<Box>): real {
    if boxes == [] then 0.0 else TotalWidth(boxes[..|boxes| - 1]) + boxes[|boxes| - 1].width
  }

  // ----- the layout as a function -----

  /** Duration of a node on the percentile clock. */
  function Duration(g: Settings, t: Tree, now: real, mean: real): real
    requires !t.Loop?
  {
    if t.Pause? then t.length - (now - mean) else g.quantile(t.mew, t.sigma)
  }

  function MeanDuration(t: Tree): real
    requires !t.Loop?
  {
    if t.Pause? then t.length else t.mew
  }

  function BoxOf(g: Settings, t: Tree, len: real): Box
    requires !t.Loop?
  {
    Box(if t.Pause? then PauseBox else InstrBox, len * g.scale)
  }

  function SpacerFor(boxes: seq<Box>): seq<Box> {
    [Box(Spacer, TotalWidth(boxes))]
  }

  /** The rows for a tree whose first row starts with `boxes`. */
  function Rows(g: Settings, t: Tree, boxes: seq<Box>, now: real, mean: real): seq<Row>
    decreases t, 0
  {
    if t.Loop? then [Line(boxes + [Box(LoopBox, LOOP_WIDTH)])]
    else
      var len := Duration(g, t, now, mean);
      if len < 0.0 then [Failure(if t.Pause? then DeadlineMissed else NegativeTime)]
      else BranchRows(g, t, boxes + [BoxOf(g, t, len)], now + len, mean + MeanDuration(t), |t.children|)
  }

  /** The rows of the first `n` children; all but the first start with a spacer. */
  function BranchRows(g: Settings, t: Tree, boxes: seq<Box>, now: real, mean: real, n: nat): seq<Row>
    requires !t.Loop? && n <= |t.children|
    decreases t, 0, n
  {
    if n == 0 then []
    else
      BranchRows(g, t, boxes, now, mean, n - 1)
      + Rows(g, t.children[n - 1], if n == 1 then boxes else SpacerFor(boxes), now, mean)
  }

  // ----- the program -----

  /** The array a row is collected in; branches share and extend it in place. */
  class Stream {
    var boxes: seq<Box>

    constructor (boxes: seq<Box>)
      ensures this.boxes == boxes
    {
      this.boxes := boxes;
    }
  }

  datatype Result = Drawn(stream: Stream) | Failed(message: Message)

  ghost function Streams(results: seq<Result>): set<Stream> {
    set k | 0 <= k < |results| && results[k].Drawn? :: results[k].stream
  }

  ghost predicate Shows(results: seq<Result>, rows: seq<Row>)
    reads Streams(results)
  {
    && |results| == |rows|
    && forall k :: 0 <= k < |results| ==>
      match results[k]
      case Drawn(s) => rows[k] == Line(s.boxes)
      case Failed(message) => rows[k] == Failure(message)
  }

  lemma OneShows(r: Result)
    ensures Shows([r], [match r case Drawn(s) => Line(s.boxes) case Failed(message) => Failure(message)])
  {
  }

  lemma RowsAre(g: Settings, t: Tree, boxes: seq<Box>, now: real, mean: real)
    ensures var len := if t.Loop? then 0.0 else Duration(g, t, now, mean);
      Rows(g, t, boxes, now, mean) ==
      if t.Loop? then [Line(boxes + [Box(LoopBox, LOOP_WIDTH)])]
      else if len < 0.0 then [Failure(if t.Pause? then DeadlineMissed else NegativeTime)]
      else BranchRows(g, t, boxes + [BoxOf(g, t, len)], now + len, mean + MeanDuration(t), |t.children|)
  {
    hide BranchRows;
  }

  lemma ShowsAppend(a: seq<Result>, x: seq<Row>, b: seq<Result>, y: seq<Row>)
    requires Shows(a, x) && Shows(b, y)
    ensures Shows(a + b, x + y)
  {
    forall k | 0 <= k < |a + b|
      ensures match (a + b)[k]
        case Drawn(s) => (x + y)[k] == Line(s.boxes)
        case Failed(message) => (x + y)[k] == Failure(message)
    {
      assert (a + b)[k] == if k < |a| then a[k] else b[k - |a|];
    }
  }

  lemma StreamsAppend(a: seq<Result>, b: seq<Result>)
    ensures Streams(a + b) == Streams(a) + Streams(b)
  {
    assert forall k :: 0 <= k < |b| ==> b[k] == (a + b)[k + |a|];
    assert forall k :: 0 <= k < |a| ==> a[k] == (a + b)[k];
  }

  method MakeSpacer(boxes: seq<Box>) returns (spacer: Stream)
    ensures fresh(spacer) && spacer.boxes == SpacerFor(boxes)
  {
    var len := 0.0;
    for i := 0 to |boxes|
      invariant len == TotalWidth(boxes[..i])
    {
      assert boxes[..i + 1][..i] == boxes[..i];
      len := len + boxes[i].width;
    }
    assert boxes[..|boxes|] == boxes;
    spacer := new Stream([Box(Spacer, len)]);
  }

  method StraightenTree(g: Settings, data: Tree, stream: Stream, timeNow: real, timeNowMean: real)
    returns (results: seq<Result>)
    requires AtMostTwo(data)
    modifies stream
    ensures forall s :: s in Streams(results) ==> s == stream || fresh(s)
    ensures Shows(results, Rows(g, data, old(stream.boxes), timeNow, timeNowMean))
    decreases data, 1
  {
    hide Rows, BranchRows, Shows, TotalWidth, SpacerFor;
    ghost var start := stream.boxes;
    RowsAre(g, data, start, timeNow, timeNowMean);
    if data.Loop? {
      stream.boxes := stream.boxes + [Box(LoopBox, LOOP_WIDTH)];
      results := [Drawn(stream)];
      OneShows(results[0]);
      return;
    }
    var len := if data.Pause? then data.length - (timeNow - timeNowMean) else g.quantile(data.mew, data.sigma);
    if len < 0.0 {
      results := [Failed(if data.Pause? then DeadlineMissed else NegativeTime)];
      OneShows(results[0]);
      return;
    }
    stream.boxes := stream.boxes + [BoxOf(g, data, len)];
    var now, mean := timeNow + len, timeNowMean + MeanDuration(data);
    OneBranch(g, data, stream.boxes, now, mean);
    if |data.children| == 1 {
      results := StraightenTree(g, data.children[0], stream, now, mean);
    } else {
      results := StraightenBranches(g, data, stream, now, mean);
    }
  }

  /** The loop over the branches: the first goes on with the row, each other starts with the one spacer. */
  method StraightenBranches(g: Settings, data: Tree, stream: Stream, now: real, mean: real)
    returns (results: seq<Result>)
    requires AtMostTwo(data) && !data.Loop?
    modifies stream
    ensures forall s :: s in Streams(results) ==> s == stream || fresh(s)
    ensures Shows(results, BranchRows(g, data, old(stream.boxes), now, mean, |data.children|))
    decreases data, 0
  {
    hide BranchRows, Rows, TotalWidth, SpacerFor;
    ghost var boxes := stream.boxes;
    NoBranches(g, data, boxes, now, mean);
    results := [];
    var spacer := MakeSpacer(stream.boxes);
    for c := 0 to |data.children|
      invariant forall s :: s in Streams(results) ==> s == stream || fresh(s)
      invariant fresh(spacer) && spacer != stream
      invariant c == 0 ==> stream.boxes == boxes
      invariant c <= 1 ==> spacer.boxes == SpacerFor(boxes)
      invariant c <= 1 ==> spacer !in Streams(results)
      invariant c == 0 ==> results == []
      invariant Shows(results, BranchRows(g, data, boxes, now, mean, c))
    {
      ghost var rows := BranchRows(g, data, boxes, now, mean, c);
      var target := if c == 0 then stream else spacer;
      ghost var start := target.boxes;
      NoStreams(results);
      assert target !in Streams(results);
      var res := StraightenTree(g, data.children[c], target, now, mean);
      assert Shows(results, rows);
      ShowsAppend(results, rows, res, Rows(g, data.children[c], start, now, mean));
      StreamsAppend(results, res);
      NextBranch(g, data, boxes, now, mean, c);
      results := results + res;
    }
  }

  lemma NoStreams(results: seq<Result>)
    ensures results == [] ==> Streams(results) == {}
  {
  }

  lemma NoBranches(g: Settings, t: Tree, boxes: seq<Box>, now: real, mean: real)
    requires !t.Loop?
    ensures BranchRows(g, t, boxes, now, mean, 0) == [] && Shows([], []) && Streams([]) == {}
  {
  }

  lemma NextBranch(g: Settings, t: Tree, boxes: seq<Box>, now: real, mean: real, n: nat)
    requires !t.Loop? && n < |t.children|
    ensures BranchRows(g, t, boxes, now, mean, n + 1) ==
            BranchRows(g, t, boxes, now, mean, n)
            + Rows(g, t.children[n], if n == 0 then boxes else SpacerFor(boxes), now, mean)
  {
    hide Rows, SpacerFor;
  }

  lemma OneBranch(g: Settings, t: Tree, boxes: seq<Box>, now: real, mean: real)
    requires !t.Loop?
    ensures |t.children| == 1 ==> BranchRows(g, t, boxes, now, mean, 1) == Rows(g, t.children[0], boxes, now, mean)
  {
    hide Rows, SpacerFor;
    assert BranchRows(g, t, boxes, now, mean, 0) == [];
  }

  // ----- what the rows show -----

  /**
   When each row reaches its LOOP, told by the mean clock and the lead or lag `skew` of the percentile
   clock: an instruction changes the skew by its deviation from the mean, a pause absorbs it.  `Never` is
   a row that shows a failure.
   */
  function Arrivals(g: Settings, t: Tree, mean: real, skew: real): seq<Arrival>
    decreases t, 0
  {
    match t
    case Loop => [At(mean + skew)]
    case Pause(length, _) => if length < skew then [Never] else BranchArrivals(g, t, mean + length, 0.0, |t.children|)
    case Instr(mew, sigma, _) =>
      var q := g.quantile(mew, sigma);
      if q < 0.0 then [Never] else BranchArrivals(g, t, mean + mew, skew + q - mew, |t.children|)
  }

  function BranchArrivals(g: Settings, t: Tree, mean: real, skew: real, n: nat): seq<Arrival>
    requires !t.Loop? && n <= |t.children|
    decreases t, 0, n
  {
    if n == 0 then []
    else BranchArrivals(g, t, mean, skew, n - 1) + Arrivals(g, t.children[n - 1], mean, skew)
  }

  /** When a row reaches its LOOP. */
  datatype Arrival = Never | At(time: real)

  /** Each row is as wide as the time it covers, plus the LOOP box. */
  ghost predicate Timely(g: Settings, rows: seq<Row>, arrivals: seq<Arrival>) {
    && |rows| == |arrivals|
    && forall k :: 0 <= k < |rows| ==>
      match rows[k]
      case Line(boxes) => arrivals[k].At? && TotalWidth(boxes) == g.scale * arrivals[k].time + LOOP_WIDTH
      case Failure(_) => arrivals[k] == Never
  }

  lemma WidthAppend(boxes: seq<Box>, b: Box)
    ensures TotalWidth(boxes + [b]) == TotalWidth(boxes) + b.width
  {
    assert (boxes + [b])[..|boxes|] == boxes;
  }

  lemma Distribute(scale: real, a: real, b: real)
    ensures scale * (a + b) == scale * a + b * scale
  {
  }

  lemma {:induction false} RowsTimely(g: Settings, t: Tree, boxes: seq<Box>, now: real, mean: real)
    requires TotalWidth(boxes) == g.scale * now
    ensures Timely(g, Rows(g, t, boxes, now, mean), Arrivals(g, t, mean, now - mean))
    decreases t, 0
  {
    if t.Loop? {
      WidthAppend(boxes, Box(LoopBox, LOOP_WIDTH));
      assert mean + (now - mean) == now;
    } else {
      var len := Duration(g, t, now, mean);
      if len >= 0.0 {
        WidthAppend(boxes, BoxOf(g, t, len));
        Distribute(g.scale, now, len);
        BranchesTimely(g, t, boxes + [BoxOf(g, t, len)], now + len, mean + MeanDuration(t), |t.children|);
        assert t.Pause? ==> now + len - (mean + MeanDuration(t)) == 0.0;
        assert t.Instr? ==> now + len - (mean + MeanDuration(t)) == (now - mean) + len - t.mew;
      }
    }
  }

  lemma {:induction false} BranchesTimely(g: Settings, t: Tree, boxes: seq<Box>, now: real, mean: real, n: nat)
    requires !t.Loop? && n <= |t.children| && TotalWidth(boxes) == g.scale * now
    ensures Timely(g, BranchRows(g, t, boxes, now, mean, n), BranchArrivals(g, t, mean, now - mean, n))
    decreases t, 0, n
  {
    if n == 0 {
      assert Timely(g, [], []);
    } else {
      hide Rows, Arrivals, TotalWidth, Timely, SpacerFor;
      var start := if n == 1 then boxes else SpacerFor(boxes);
      SpacerWidth(boxes);
      BranchesTimely(g, t, boxes, now, mean, n - 1);
      RowsTimely(g, t.children[n - 1], start, now, mean);
      TimelyAppend(g, BranchRows(g, t, boxes, now, mean, n - 1), BranchArrivals(g, t, mean, now - mean, n - 1),
                   Rows(g, t.children[n - 1], start, now, mean), Arrivals(g, t.children[n - 1], mean, now - mean));
    }
  }

  lemma SpacerWidth(boxes: seq<Box>)
    ensures TotalWidth(SpacerFor(boxes)) == TotalWidth(boxes)
  {
    assert SpacerFor(boxes)[..0] == [];
  }

  lemma TimelyAppend(g: Settings, rows1: seq<Row>, arrivals1: seq<Arrival>, rows2: seq<Row>, arrivals2: seq<Arrival>)
    requires Timely(g, rows1, arrivals1) && Timely(g, rows2, arrivals2)
    ensures Timely(g, rows1 + rows2, arrivals1 + arrivals2)
  {
    hide TotalWidth;
  }

  /**
   For every tree and every quantile function: every row that ends in LOOP is exactly as wide as the
   time on the percentile clock at that LOOP, times the zoom factor, plus 50; rows that start with a
   spacer included.
   */
  lemma RowsEndOnTime(g: Settings, t: Tree)
    ensures Timely(g, Rows(g, t, [], 0.0, 0.0), Arrivals(g, t, 0.0, 0.0))
  {
    RowsTimely(g, t, [], 0.0, 0.0);
  }

  /** A drawn pause brings the two clocks together again: what follows is laid out from one common time. */
  lemma PauseJoinsClocks(g: Settings, t: Tree, boxes: seq<Box>, now: real, mean: real)
    requires t.Pause? && t.length >= now - mean
    ensures var joined := mean + t.length;
      Rows(g, t, boxes, now, mean) ==
      BranchRows(g, t, boxes + [BoxOf(g, t, joined - now)], joined, joined, |t.children|)
  {
    assert Duration(g, t, now, mean) == mean + t.length - now;
    assert now + Duration(g, t, now, mean) == mean + t.length;
  }

  /** All durations and pauses in the tree are non-negative. */
  ghost predicate NonNegative(t: Tree) {
    match t
    case Loop => true
    case Pause(length, children) => length >= 0.0 && forall c :: c in children ==> NonNegative(c)
    case Instr(mew, _, children) => mew >= 0.0 && forall c :: c in children ==> NonNegative(c)
  }

  /** When every duration is its mean, no deadline is missed: all rows are drawn. */
  lemma {:induction false} MeansMissNothing(g: Settings, t: Tree, mean: real)
    requires NonNegative(t) && forall m, s :: g.quantile(m, s) == m
    ensures Never !in Arrivals(g, t, mean, 0.0)
    decreases t, 0
  {
    if !t.Loop? {
      MeansMissNothingInBranches(g, t, mean + MeanDuration(t), |t.children|);
    }
  }

  lemma {:induction false} MeansMissNothingInBranches(g: Settings, t: Tree, mean: real, n: nat)
    requires NonNegative(t) && forall m, s :: g.quantile(m, s) == m
    requires !t.Loop? && n <= |t.children|
    ensures Never !in BranchArrivals(g, t, mean, 0.0, n)
    decreases t, 0, n
  {
    if n > 0 {
      assert t.children[n - 1] in t.children;
      MeansMissNothingInBranches(g, t, mean, n - 1);
      MeansMissNothing(g, t.children[n - 1], mean);
    }
  }
}
