/** The tree that a successful parse returns, against the tokens it was made from. */
module MustacheNesting {
  import opened Words
  import opened MustacheParser
  import opened MustacheTokens

  /** The tokens of a tree in template order; closing tags end where they start. */
  function Flatten(nodes: seq<Node>): seq<Token> {
    if nodes == [] then [] else FlattenOne(nodes[0]) + Flatten(nodes[1..])
  }

  function FlattenOne(node: Node): seq<Token> {
    match node
    case Leaf(t) => [t]
    case Block(t, children, closeStart) => [t] + Flatten(children) + [Token(Close, t.value, closeStart, closeStart)]
    case Unclosed(t, children) => [t] + Flatten(children)
  }

  lemma {:induction false} FlattenAppend(a: seq<Node>, b: seq<Node>)
    ensures Flatten(a + b) == Flatten(a) + Flatten(b)
  {
    if a == [] {
      assert a + b == b;
    } else {
      assert (a + b)[1..] == a[1..] + b;
      FlattenAppend(a[1..], b);
    }
  }

  lemma FlattenSingle(node: Node)
    ensures Flatten([node]) == FlattenOne(node)
  {
    assert [node][1..] == [];
  }

  /** A closing tag without its own length. */
  function Cut(t: Token): Token {
    if t.kind == Close then Token(Close, t.value, t.start, t.start) else t
  }

  function CutAll(ts: seq<Token>): (r: seq<Token>)
    ensures |r| == |ts| && forall k :: 0 <= k < |ts| ==> r[k] == Cut(ts[k])
  {
    seq(|ts|, k requires 0 <= k < |ts| => Cut(ts[k]))
  }

  // ----- the sections are balanced -----

  /** Starting with the sections `open`, every closing tag names the innermost open section, and all get closed. */
  predicate Balanced(open: seq<Token>, ts: seq<Token>)
    decreases ts
  {
    if ts == [] then open == []
    else Nesting(open, ts[0]).Ok? && Balanced(Nesting(open, ts[0]).value, ts[1..])
  }

  function TagsOnly(ts: seq<Token>): seq<Token> {
    if ts == [] then []
    else if ts[0].kind == Text then TagsOnly(ts[1..])
    else [ts[0]] + TagsOnly(ts[1..])
  }

  lemma {:induction false} BalancedByTags(open: seq<Token>, ts: seq<Token>)
    ensures Balanced(open, ts) <==> Balanced(open, TagsOnly(ts))
    decreases ts
  {
    if ts != [] {
      if ts[0].kind == Text {
        BalancedByTags(open, ts[1..]);
      } else {
        assert TagsOnly(ts)[1..] == TagsOnly(ts[1..]);
        if Nesting(open, ts[0]).Ok? {
          BalancedByTags(Nesting(open, ts[0]).value, ts[1..]);
        }
      }
    }
  }

  lemma {:induction false} TagsOnlyAppend(a: seq<Token>, b: seq<Token>)
    ensures TagsOnly(a + b) == TagsOnly(a) + TagsOnly(b)
  {
    if a == [] {
      assert a + b == b;
    } else {
      assert (a + b)[1..] == a[1..] + b;
      TagsOnlyAppend(a[1..], b);
    }
  }

  lemma {:induction false} NoTagsInText(s: string, pos: nat)
    ensures TagsOnly(RawText(s, pos)) == []
    decreases s
  {
    if s != "" {
      assert RawText(s, pos)[1..] == RawText(s[1..], pos + 1);
      NoTagsInText(s[1..], pos + 1);
    }
  }

  /** A parse that succeeds has balanced sections. */
  lemma {:induction false} ParseBalanced(tags: Tags, tail: string, pos: nat, st: Lines, open: seq<Token>)
    requires st.Valid() && TagsOk(tags) && ParseFrom(tags, tail, pos, st, open).Ok?
    ensures Balanced(open, TagsOnly(RawFrom(tags, tail, pos)))
    decreases |tail|
  {
    hide ParseFrom, RawFrom, NextTurn, Nesting, AddText, RawText, TagsOk, TagsOnly, Balanced;
    if tail == "" {
      EmptyBalanced(tags, pos, st, open);
    } else {
      TurnParses(tags, tail, pos, st, open);
      TurnFacts(tags, tail, pos);
      var t := NextTurn(tags, tail, pos);
      NoTagsInText(tail[..t.n], pos);
      if t.Found? {
        var rest := tail[t.token.end - pos..];
        ParseBalanced(t.tags, rest, t.token.end, AddTag(AddText(st, tail[..t.n], pos), t.token),
                      Nesting(open, t.token).value);
        var more := RawFrom(t.tags, rest, t.token.end);
        TagsOnlyAppend(RawText(tail[..t.n], pos), [t.token] + more);
        TagCons(open, t.token, more);
        assert [] + TagsOnly([t.token] + more) == TagsOnly([t.token] + more);
      } else {
        NothingOpen();
      }
    }
  }

  lemma EmptyBalanced(tags: Tags, pos: nat, st: Lines, open: seq<Token>)
    requires st.Valid() && ParseFrom(tags, "", pos, st, open).Ok?
    ensures Balanced(open, TagsOnly(RawFrom(tags, "", pos)))
  {
  }

  lemma NothingOpen()
    ensures Balanced([], [])
  {
  }

  lemma TagCons(open: seq<Token>, t: Token, more: seq<Token>)
    requires t.kind != Text && Nesting(open, t).Ok? && Balanced(Nesting(open, t).value, TagsOnly(more))
    ensures Balanced(open, TagsOnly([t] + more))
  {
    hide Nesting;
    assert ([t] + more)[1..] == more;
    assert ([t] + TagsOnly(more))[1..] == TagsOnly(more);
  }

  lemma {:induction false} DeletionKeepsTags(tokens: seq<Option<Token>>, raw: seq<Token>)
    requires OnlyBlanksDeleted(tokens, Kept(raw))
    ensures TagsOnly(Present(tokens)) == TagsOnly(raw)
    decreases raw
  {
    if raw != [] {
      assert tokens[0] == Kept(raw)[0] || (tokens[0] == None && IsBlank(Kept(raw)[0]));
      assert Kept(raw)[1..] == Kept(raw[1..]);
      assert OnlyBlanksDeleted(tokens[1..], Kept(raw[1..]));
      DeletionKeepsTags(tokens[1..], raw[1..]);
    }
  }

  lemma JoinTags(done: seq<Token>, t: Token)
    ensures TagsOnly(Join(done, t)) == TagsOnly(done) + TagsOnly([t])
  {
    assert [t][1..] == [];
    if t.kind == Text && done != [] && done[|done| - 1].kind == Text {
      var last := done[|done| - 1];
      var merged := Token(Text, last.value + t.value, last.start, t.end);
      var front := done[..|done| - 1];
      assert Join(done, t) == front + [merged] && done == front + [last];
      TagsOnlyAppend(front, [merged]);
      TagsOnlyAppend(front, [last]);
      assert [merged][1..] == [] && [last][1..] == [];
    } else {
      TagsOnlyAppend(done, [t]);
    }
  }

  lemma {:induction false} SquashKeepsTags(done: seq<Token>, tokens: seq<Option<Token>>)
    ensures TagsOnly(SquashFrom(done, tokens)) == TagsOnly(done) + TagsOnly(Present(tokens))
    decreases tokens
  {
    if tokens != [] {
      if tokens[0].Some? {
        JoinTags(done, tokens[0].value);
        SquashKeepsTags(Join(done, tokens[0].value), tokens[1..]);
        TagsOnlyAppend([tokens[0].value], Present(tokens[1..]));
      } else {
        SquashKeepsTags(done, tokens[1..]);
      }
    }
  }

  // ----- nesting loses nothing -----

  function OpenTokens(open: seq<Frame>): seq<Token> {
    if open == [] then [] else OpenTokens(open[..|open| - 1]) + [open[|open| - 1].token]
  }

  /** The tokens that the open sections and the collected nodes stand for. */
  function Pending(open: seq<Frame>, collected: seq<Node>): seq<Token>
    decreases |open|
  {
    if open == [] then Flatten(collected)
    else
      var f := open[|open| - 1];
      Pending(open[..|open| - 1], f.before) + [f.token] + Flatten(collected)
  }

  lemma PendingLeaf(open: seq<Frame>, collected: seq<Node>, node: Node)
    ensures Pending(open, collected + [node]) == Pending(open, collected) + FlattenOne(node)
  {
    FlattenAppend(collected, [node]);
    FlattenSingle(node);
    if open != [] {
      var f := open[|open| - 1];
      assert Pending(open[..|open| - 1], f.before) + [f.token] + (Flatten(collected) + FlattenOne(node))
        == Pending(open[..|open| - 1], f.before) + [f.token] + Flatten(collected) + FlattenOne(node);
    }
  }

  lemma PendingClose(open: seq<Frame>, collected: seq<Node>, closeStart: nat)
    requires open != []
    ensures var f := open[|open| - 1];
      Pending(open[..|open| - 1], f.before + [Block(f.token, collected, closeStart)]) ==
      Pending(open, collected) + [Token(Close, f.token.value, closeStart, closeStart)]
  {
    var f := open[|open| - 1];
    var node := Block(f.token, collected, closeStart);
    PendingLeaf(open[..|open| - 1], f.before, node);
    var p := Pending(open[..|open| - 1], f.before);
    assert p + FlattenOne(node) ==
      p + [f.token] + Flatten(collected) + [Token(Close, f.token.value, closeStart, closeStart)];
  }

  lemma {:induction false} OpenTokensLength(open: seq<Frame>)
    ensures |OpenTokens(open)| == |open|
  {
    if open != [] {
      OpenTokensLength(open[..|open| - 1]);
    }
  }

  lemma OpenTokensPush(open: seq<Frame>, f: Frame)
    ensures OpenTokens(open + [f]) == OpenTokens(open) + [f.token]
  {
    assert (open + [f])[..|open|] == open;
  }

  /** On balanced tokens nesting succeeds, and flattening its tree gives the tokens back. */
  lemma {:induction false} NestLosesNothing(tokens: seq<Token>, open: seq<Frame>, collected: seq<Node>)
    requires Balanced(OpenTokens(open), tokens)
    ensures var r := NestFrom(tokens, open, collected);
      r.Some? && Flatten(r.value) == Pending(open, collected) + CutAll(tokens)
    decreases tokens
  {
    hide Flatten, FlattenOne, Pending, Balanced, NestFrom, CutAll, Cut, OpenTokens;
    OpenTokensLength(open);
    if tokens == [] {
      NestEnd(open, collected);
    } else {
      var t := tokens[0];
      CutCons(tokens);
      Regroup(Pending(open, collected), Cut(t), CutAll(tokens[1..]));
      BalancedStep(OpenTokens(open), tokens);
      NestStep(tokens, open, collected);
      if t.kind == Section || t.kind == Inverted {
        OpenTokensPush(open, Frame(collected, t));
        NestLosesNothing(tokens[1..], open + [Frame(collected, t)], []);
        PendingPush(open, collected, t);
      } else if t.kind == Close {
        var f := open[|open| - 1];
        OpenTokensPop(open);
        NestLosesNothing(tokens[1..], open[..|open| - 1], f.before + [Block(f.token, collected, t.start)]);
        PendingClose(open, collected, t.start);
      } else {
        NestLosesNothing(tokens[1..], open, collected + [Leaf(t)]);
        PendingLeaf(open, collected, Leaf(t));
        LeafFlat(t);
      }
    }
  }

  /** Every section of the tree is closed. */
  ghost predicate AllClosed(nodes: seq<Node>)
    decreases nodes
  {
    forall k :: 0 <= k < |nodes| ==> !nodes[k].Unclosed? && (nodes[k].Block? ==> AllClosed(nodes[k].children))
  }

  /** On balanced tokens no section stays open. */
  lemma {:induction false} NestClosesAll(tokens: seq<Token>, open: seq<Frame>, collected: seq<Node>)
    requires Balanced(OpenTokens(open), tokens)
    requires AllClosed(collected) && forall k :: 0 <= k < |open| ==> AllClosed(open[k].before)
    ensures NestFrom(tokens, open, collected).Some? && AllClosed(NestFrom(tokens, open, collected).value)
    decreases tokens
  {
    hide Balanced, NestFrom, OpenTokens;
    OpenTokensLength(open);
    if tokens == [] {
      NestEnd(open, collected);
    } else {
      var t := tokens[0];
      BalancedStep(OpenTokens(open), tokens);
      NestStep(tokens, open, collected);
      if t.kind == Section || t.kind == Inverted {
        OpenTokensPush(open, Frame(collected, t));
        NestClosesAll(tokens[1..], open + [Frame(collected, t)], []);
      } else if t.kind == Close {
        OpenTokensPop(open);
        var f := open[|open| - 1];
        NestClosesAll(tokens[1..], open[..|open| - 1], f.before + [Block(f.token, collected, t.start)]);
      } else {
        NestClosesAll(tokens[1..], open, collected + [Leaf(t)]);
      }
    }
  }

  lemma Regroup(a: seq<Token>, t: Token, b: seq<Token>)
    ensures a + [t] + b == a + ([t] + b)
  {
  }

  lemma NestEnd(open: seq<Frame>, collected: seq<Node>)
    requires Balanced(OpenTokens(open), [])
    ensures open == [] && NestFrom([], open, collected) == Some(collected)
    ensures Flatten(collected) == Pending(open, collected) + CutAll([])
  {
    OpenTokensLength(open);
    assert Pending(open, collected) + CutAll([]) == Pending(open, collected);
  }

  lemma CutCons(tokens: seq<Token>)
    requires tokens != []
    ensures CutAll(tokens) == [Cut(tokens[0])] + CutAll(tokens[1..])
    ensures tokens[0].kind != Close ==> Cut(tokens[0]) == tokens[0]
    ensures tokens[0].kind == Close ==>
      Cut(tokens[0]) == Token(Close, tokens[0].value, tokens[0].start, tokens[0].start)
  {
  }

  lemma OpenTokensPop(open: seq<Frame>)
    requires open != []
    ensures var ts := OpenTokens(open);
      ts != [] && ts[..|ts| - 1] == OpenTokens(open[..|open| - 1]) && ts[|ts| - 1] == open[|open| - 1].token
  {
  }

  lemma NestStep(tokens: seq<Token>, open: seq<Frame>, collected: seq<Node>)
    requires tokens != []
    ensures var t := tokens[0];
      NestFrom(tokens, open, collected) ==
      if t.kind == Section || t.kind == Inverted then NestFrom(tokens[1..], open + [Frame(collected, t)], [])
      else if t.kind != Close then NestFrom(tokens[1..], open, collected + [Leaf(t)])
      else if open == [] then None
      else
        var f := open[|open| - 1];
        NestFrom(tokens[1..], open[..|open| - 1], f.before + [Block(f.token, collected, t.start)])
  {
  }

  lemma LeafFlat(t: Token)
    ensures FlattenOne(Leaf(t)) == [t]
  {
  }

  lemma PendingPush(open: seq<Frame>, collected: seq<Node>, t: Token)
    ensures Pending(open + [Frame(collected, t)], []) == Pending(open, collected) + [t]
  {
    assert (open + [Frame(collected, t)])[..|open|] == open;
    assert Flatten([]) == [];
  }

  lemma BalancedStep(open: seq<Token>, ts: seq<Token>)
    requires ts != [] && Balanced(open, ts)
    ensures Nesting(open, ts[0]).Ok? && Balanced(Nesting(open, ts[0]).value, ts[1..])
  {
  }

  // ----- order -----

  ghost predicate InOrder(ts: seq<Token>, lo: nat, hi: nat) {
    && (forall k :: 0 <= k < |ts| ==> lo <= ts[k].start <= ts[k].end <= hi)
    && (forall j, k :: 0 <= j < k < |ts| ==> ts[j].end <= ts[k].start)
  }

  lemma {:induction false} TilesInOrder(template: string, raw: seq<Token>, tokens: seq<Option<Token>>,
                                        from: nat, to: nat)
    requires Tiles(template, raw, from, to) && OnlyBlanksDeleted(tokens, Kept(raw))
    ensures from <= to && InOrder(Present(tokens), from, to)
    decreases raw
  {
    if raw != [] {
      assert tokens[0] == Kept(raw)[0] || tokens[0] == None;
      assert Kept(raw)[1..] == Kept(raw[1..]);
      assert OnlyBlanksDeleted(tokens[1..], Kept(raw[1..]));
      TilesInOrder(template, raw[1..], tokens[1..], raw[0].end, to);
    }
  }

  lemma JoinInOrder(done: seq<Token>, t: Token, lo: nat, mid: nat)
    requires InOrder(done, lo, mid) && lo <= mid <= t.start <= t.end
    ensures InOrder(Join(done, t), lo, t.end)
  {
  }

  lemma {:induction false} SquashInOrder(done: seq<Token>, tokens: seq<Option<Token>>, lo: nat, mid: nat, hi: nat)
    requires InOrder(done, lo, mid) && InOrder(Present(tokens), mid, hi) && lo <= mid <= hi
    ensures InOrder(SquashFrom(done, tokens), lo, hi)
    decreases tokens
  {
    if tokens != [] {
      if tokens[0].Some? {
        var t := tokens[0].value;
        assert Present(tokens)[1..] == Present(tokens[1..]);
        assert Present(tokens)[0] == t;
        JoinInOrder(done, t, lo, mid);
        SquashInOrder(Join(done, t), tokens[1..], lo, t.end, hi);
      } else {
        SquashInOrder(done, tokens[1..], lo, mid, hi);
      }
    }
  }

  /** Sections: the slice from the end of the opening to the start of the closing tag holds the inside. */
  ghost predicate Slices(nodes: seq<Node>)
    decreases nodes
  {
    forall k :: 0 <= k < |nodes| ==> SliceOk(nodes[k])
  }

  ghost predicate SliceOk(node: Node)
    decreases node
  {
    match node
    case Leaf(_) => true
    case Block(t, children, closeStart) =>
      InOrder(Flatten(children), t.end, closeStart) && t.end <= closeStart && Slices(children)
    case Unclosed(_, children) => Slices(children)
  }

  lemma InOrderPart(a: seq<Token>, b: seq<Token>, c: seq<Token>, lo: nat, hi: nat)
    requires InOrder(a + b + c, lo, hi)
    ensures InOrder(b, lo, hi)
  {
    var s := a + b + c;
    assert forall k :: 0 <= k < |b| ==> b[k] == s[|a| + k];
  }

  lemma InOrderBetween(a: Token, b: seq<Token>, c: Token, lo: nat, hi: nat)
    requires InOrder([a] + b + [c], lo, hi)
    ensures InOrder(b, a.end, c.start) && a.end <= c.start
  {
    var s := [a] + b + [c];
    assert s[0] == a && s[|s| - 1] == c;
    assert forall k :: 0 <= k < |b| ==> b[k] == s[1 + k];
  }

  lemma {:induction false} OrderGivesSlices(nodes: seq<Node>, lo: nat, hi: nat)
    requires InOrder(Flatten(nodes), lo, hi)
    ensures Slices(nodes)
    decreases nodes, 1
  {
    hide InOrder, SliceOk;
    forall k | 0 <= k < |nodes|
      ensures SliceOk(nodes[k])
    {
      FlattenAppend(nodes[..k], nodes[k..]);
      assert nodes == nodes[..k] + nodes[k..];
      assert nodes[k..][1..] == nodes[k + 1..];
      assert Flatten(nodes) == Flatten(nodes[..k]) + FlattenOne(nodes[k]) + Flatten(nodes[k + 1..]);
      InOrderPart(Flatten(nodes[..k]), FlattenOne(nodes[k]), Flatten(nodes[k + 1..]), lo, hi);
      OrderGivesSlice(nodes[k], lo, hi);
    }
  }

  lemma {:induction false} OrderGivesSlice(node: Node, lo: nat, hi: nat)
    requires InOrder(FlattenOne(node), lo, hi)
    ensures SliceOk(node)
    decreases node, 0
  {
    hide InOrder;
    match node {
      case Leaf(_) =>
      case Block(t, children, closeStart) =>
        InOrderBetween(t, Flatten(children), Token(Close, t.value, closeStart, closeStart), lo, hi);
        OrderGivesSlices(children, t.end, closeStart);
      case Unclosed(t, children) =>
        assert [t] + Flatten(children) + [] == [t] + Flatten(children);
        InOrderPart([t], Flatten(children), [], lo, hi);
        OrderGivesSlices(children, lo, hi);
    }
  }

  // ----- main result -----

  function Squashed(tags: Tags, template: string): seq<Token>
    requires ParseFrom(tags, template, 0, NO_LINES, []).Ok?
  {
    SquashFrom([], ParseFrom(tags, template, 0, NO_LINES, []).value)
  }

  lemma NoTags()
    ensures TagsOnly([]) == []
  {
  }

  lemma NoneInOrder()
    ensures InOrder([], 0, 0)
  {
  }

  lemma CutInOrder(ts: seq<Token>, lo: nat, hi: nat)
    requires InOrder(ts, lo, hi)
    ensures InOrder(CutAll(ts), lo, hi)
  {
  }

  /**
   Whenever the tokens parse, nesting succeeds too; the tree contains exactly the squashed tokens in
   their order, every section is closed, by a tag that names it, and in every section the slice from the
   end of its opening tag to the start of its closing tag contains exactly the tokens of its inside.
   */
  lemma TreeHoldsTokens(tags: Tags, template: string)
    requires TagsOk(tags) && ParseFrom(tags, template, 0, NO_LINES, []).Ok?
    ensures var r := Parse(tags, template);
      && r.Ok?
      && Flatten(r.value) == CutAll(Squashed(tags, template))
      && InOrder(Flatten(r.value), 0, |template|)
      && Slices(r.value) && AllClosed(r.value)
  {
    hide ParseFrom, RawFrom, SquashFrom, NestFrom, Balanced, TagsOnly, Present, OnlyBlanksDeleted, InOrder, Tiles;
    var tokens := ParseFrom(tags, template, 0, NO_LINES, []).value;
    var raw := RawFrom(tags, template, 0);
    var squashed := SquashFrom([], tokens);
    TokensCoverTemplate(tags, template);
    ParseBalanced(tags, template, 0, NO_LINES, []);
    DeletionKeepsTags(tokens, raw);
    SquashKeepsTags([], tokens);
    NoTags();
    assert [] + TagsOnly(raw) == TagsOnly(raw);
    BalancedByTags([], squashed);
    assert OpenTokens([]) == [];
    NestLosesNothing(squashed, [], []);
    NestClosesAll(squashed, [], []);
    assert Pending([], []) == [];
    assert [] + CutAll(squashed) == CutAll(squashed);
    TilesInOrder(template, raw, tokens, 0, |template|);
    NoneInOrder();
    SquashInOrder([], tokens, 0, 0, |template|);
    CutInOrder(squashed, 0, |template|);
    OrderGivesSlices(Parse(tags, template).value, 0, |template|);
  }
}
