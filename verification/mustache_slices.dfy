/** What stands between the two tags of a section of the tree, in the tokens and in the template. */
module MustacheSlices {
  import opened Words
  import opened MustacheParser
  import opened MustacheTokens
  import opened MustacheNesting
  import opened MustacheSquashing

  // ----- squashing in front of, at and behind a tag -----

  lemma JoinKinds(done: seq<Token>, t: Token)
    ensures var r := Join(done, t);
      && |r| <= |done| + 1
      && (t.kind != Text ==> r == done + [t])
      && (t.kind == Text ==> r != [] && r[|r| - 1].kind == Text)
  {
  }

  /** A tag among the squashed tokens: what is in front of it and what is behind it are squashed apart. */
  lemma {:induction false} TagSplits(done: seq<Token>, tokens: seq<Option<Token>>, a: nat) returns (i: nat)
    requires var q := SquashFrom(done, tokens); |done| <= a < |q| && q[a].kind != Text
    ensures i < |tokens|
    ensures var q := SquashFrom(done, tokens);
      && tokens[i] == Some(q[a])
      && SquashFrom(done, tokens[..i]) == q[..a]
      && SquashFrom([], tokens[i + 1..]) == q[a + 1..]
    decreases tokens
  {
    hide Join;
    if tokens[0].None? {
      i := TagSplits(done, tokens[1..], a);
      i := i + 1;
      Shifted(done, tokens, i);
    } else {
      var t := tokens[0].value;
      JoinKinds(done, t);
      if |Join(done, t)| <= a {
        i := TagSplits(Join(done, t), tokens[1..], a);
        i := i + 1;
        Shifted(done, tokens, i);
      } else {
        i := 0;
        LastJoined(Join(done, t), tokens[1..]);
        assert t.kind != Text;
        SquashBehind(done + [t], [], tokens[1..]);
        assert done + [t] + [] == done + [t];
        assert tokens[..0] == [];
      }
    }
  }

  lemma Shifted(done: seq<Token>, tokens: seq<Option<Token>>, i: nat)
    requires 0 < i < |tokens|
    ensures tokens[1..][i - 1] == tokens[i] && tokens[1..][i..] == tokens[i + 1..]
    ensures SquashFrom(done, tokens[..i]) ==
            SquashFrom(if tokens[0].Some? then Join(done, tokens[0].value) else done, tokens[1..][..i - 1])
  {
    hide Join;
    assert tokens[..i][1..] == tokens[1..][..i - 1];
  }

  /** The last of the tokens squashed so far keeps its kind. */
  lemma {:induction false} LastJoined(done: seq<Token>, tokens: seq<Option<Token>>)
    requires done != []
    ensures var q := SquashFrom(done, tokens); |q| >= |done| && q[|done| - 1].kind == done[|done| - 1].kind
    decreases tokens
  {
    if tokens != [] {
      if tokens[0].Some? {
        var t := tokens[0].value;
        var next := Join(done, t);
        LastJoined(next, tokens[1..]);
        if |next| > |done| {
          SquashBehind(done, [t], tokens[1..]);
          assert next == done + [t];
        }
      } else {
        LastJoined(done, tokens[1..]);
      }
    }
  }

  // ----- tiles between two tokens -----

  lemma {:induction false} TilesBehind(template: string, raw: seq<Token>, from: nat, to: nat, i: nat)
    requires i < |raw| && Tiles(template, raw, from, to)
    ensures Tiles(template, raw[i + 1..], raw[i].end, to)
    decreases raw
  {
    if i == 0 {
    } else {
      TilesBehind(template, raw[1..], raw[0].end, to, i - 1);
      assert raw[1..][i..] == raw[i + 1..];
    }
  }

  lemma {:induction false} TilesInFront(template: string, raw: seq<Token>, from: nat, to: nat, j: nat)
    requires j < |raw| && Tiles(template, raw, from, to)
    ensures Tiles(template, raw[..j], from, raw[j].start)
    decreases raw
  {
    if j > 0 {
      TilesInFront(template, raw[1..], raw[0].end, to, j - 1);
      assert raw[..j][1..] == raw[1..][..j - 1];
    }
  }

  // ----- sections -----

  /**
   The section stands for the raw tokens from `i` to `j`: these are its two tags, what is between them covers
   the recorded slice of the template, and its inside is what squashing leaves of exactly these tokens.
   */
  ghost predicate StandsFor(template: string, raw: seq<Token>, tokens: seq<Option<Token>>, node: Node, i: nat, j: nat)
    requires node.Block?
  {
    && i < j < |raw| == |tokens|
    && raw[i] == node.token
    && raw[j].kind == Close && raw[j].value == node.token.value && raw[j].start == node.closeStart
    && Tiles(template, raw[i + 1..j], node.token.end, node.closeStart)
    && Flatten(node.children) == CutAll(SquashFrom([], tokens[i + 1..j]))
  }

  ghost predicate Exact(template: string, raw: seq<Token>, tokens: seq<Option<Token>>, nodes: seq<Node>)
    decreases nodes
  {
    forall k :: 0 <= k < |nodes| && nodes[k].Block? ==>
      && (exists i, j :: StandsFor(template, raw, tokens, nodes[k], i, j))
      && Exact(template, raw, tokens, nodes[k].children)
  }

  lemma KeptToken(tokens: seq<Option<Token>>, raw: seq<Token>, i: nat, t: Token)
    requires OnlyBlanksDeleted(tokens, Kept(raw)) && i < |tokens| && tokens[i] == Some(t)
    ensures i < |raw| == |tokens| && raw[i] == t
  {
    assert Kept(raw)[i] == Some(raw[i]);
  }

  /** The squashed tokens from `a` on, with their closing tags cut, start with these tokens. */
  ghost predicate Holds(q: seq<Token>, a: nat, flat: seq<Token>) {
    a + |flat| <= |q| && CutAll(q)[a..a + |flat|] == flat
  }

  lemma HoldsPart(q: seq<Token>, a: nat, x: seq<Token>, y: seq<Token>, z: seq<Token>)
    requires Holds(q, a, x + y + z)
    ensures Holds(q, a + |x|, y)
  {
    var s := x + y + z;
    assert s[|x|..|x| + |y|] == y;
    var c := CutAll(q);
    forall k | 0 <= k < |y|
      ensures c[a + |x|..a + |x| + |y|][k] == y[k]
    {
      assert c[a..a + |s|][|x| + k] == s[|x| + k];
    }
  }

  lemma HoldsAt(q: seq<Token>, a: nat, t: Token)
    requires Holds(q, a, [t])
    ensures a < |q| && Cut(q[a]) == t
  {
    assert CutAll(q)[a..a + 1][0] == t;
  }

  /** A section among the squashed tokens: its two tags and its inside. */
  lemma SectionParts(q: seq<Token>, a: nat, node: Node)
    requires node.Block? && Holds(q, a, FlattenOne(node))
    ensures var b := a + 1 + |Flatten(node.children)|;
      && b < |q|
      && Cut(q[a]) == node.token
      && Cut(q[b]) == Token(Close, node.token.value, node.closeStart, node.closeStart)
      && Flatten(node.children) == CutAll(q[a + 1..b])
  {
    hide Holds, Flatten, CutAll, Cut;
    var t, inside := node.token, Flatten(node.children);
    var close := Token(Close, t.value, node.closeStart, node.closeStart);
    ThreeParts(t, inside, close);
    HoldsPart(q, a, [], [t], inside + [close]);
    HoldsAt(q, a, t);
    HoldsPart(q, a, [t], inside, [close]);
    InsideHeld(q, a + 1, inside);
    HoldsPart(q, a, [t] + inside, [close], []);
    HoldsAt(q, a + 1 + |inside|, close);
  }

  lemma ThreeParts(t: Token, inside: seq<Token>, close: Token)
    ensures [t] + inside + [close] == [] + [t] + (inside + [close])
    ensures [t] + inside + [close] == [t] + inside + [close] + []
  {
  }

  /** Two tags among the squashed tokens: what is between them is squashed apart. */
  lemma TwoTags(tokens: seq<Option<Token>>, a: nat, b: nat) returns (i: nat, j: nat)
    requires var q := SquashFrom([], tokens); a < b < |q| && q[a].kind != Text && q[b].kind != Text
    ensures i < j < |tokens|
    ensures var q := SquashFrom([], tokens);
      && tokens[i] == Some(q[a]) && tokens[j] == Some(q[b])
      && SquashFrom([], tokens[i + 1..j]) == q[a + 1..b]
  {
    hide SquashFrom;
    var q := SquashFrom([], tokens);
    i := TagSplits([], tokens, a);
    assert q[a + 1..][b - a - 1] == q[b];
    var k := TagSplits([], tokens[i + 1..], b - a - 1);
    j := i + 1 + k;
    assert tokens[i + 1..][k] == tokens[j] && tokens[i + 1..][..k] == tokens[i + 1..j];
    assert q[a + 1..][..b - a - 1] == q[a + 1..b];
  }

  lemma CutKeepsKind(t: Token)
    ensures Cut(t).kind == t.kind && Cut(t).value == t.value && Cut(t).start == t.start
    ensures t.kind != Close ==> Cut(t) == t
  {
  }

  /** Both tags of a section, found among the raw tokens. */
  lemma SectionFound(template: string, raw: seq<Token>, tokens: seq<Option<Token>>, node: Node, a: nat)
    requires Tiles(template, raw, 0, |template|) && OnlyBlanksDeleted(tokens, Kept(raw))
    requires node.Block? && (node.token.kind == Section || node.token.kind == Inverted)
    requires Holds(SquashFrom([], tokens), a, FlattenOne(node))
    ensures exists i, j :: StandsFor(template, raw, tokens, node, i, j)
  {
    hide Tiles, OnlyBlanksDeleted, SquashFrom, Flatten, CutAll, Cut, Holds, FlattenOne, Kept, StandsFor;
    var q := SquashFrom([], tokens);
    SectionParts(q, a, node);
    var b := a + 1 + |Flatten(node.children)|;
    CutKeepsKind(q[a]);
    CutKeepsKind(q[b]);
    var i, j := TwoTags(tokens, a, b);
    KeptToken(tokens, raw, i, q[a]);
    KeptToken(tokens, raw, j, q[b]);
    Between(template, raw, i, j);
    SameSize(tokens, raw);
    TagsStand(template, raw, tokens, node, i, j);
  }

  lemma SameSize(tokens: seq<Option<Token>>, raw: seq<Token>)
    requires OnlyBlanksDeleted(tokens, Kept(raw))
    ensures |tokens| == |raw|
  {
  }

  lemma TagsStand(template: string, raw: seq<Token>, tokens: seq<Option<Token>>, node: Node, i: nat, j: nat)
    requires node.Block? && i < j < |raw| == |tokens| && raw[i] == node.token
    requires raw[j].kind == Close && raw[j].value == node.token.value && raw[j].start == node.closeStart
    requires Tiles(template, raw[i + 1..j], raw[i].end, raw[j].start)
    requires Flatten(node.children) == CutAll(SquashFrom([], tokens[i + 1..j]))
    ensures StandsFor(template, raw, tokens, node, i, j)
  {
    hide Tiles, SquashFrom, Flatten, CutAll;
  }

  lemma InsideHeld(q: seq<Token>, a: nat, inside: seq<Token>)
    requires Holds(q, a, inside)
    ensures inside == CutAll(q[a..a + |inside|])
  {
    var c := CutAll(q[a..a + |inside|]);
    forall k | 0 <= k < |inside|
      ensures inside[k] == c[k]
    {
      assert CutAll(q)[a..a + |inside|][k] == inside[k];
    }
  }

  lemma Between(template: string, raw: seq<Token>, i: nat, j: nat)
    requires Tiles(template, raw, 0, |template|) && i < j < |raw|
    ensures Tiles(template, raw[i + 1..j], raw[i].end, raw[j].start)
  {
    hide Tiles;
    TilesBehind(template, raw, 0, |template|, i);
    TilesInFront(template, raw[i + 1..], raw[i].end, |template|, j - i - 1);
    assert raw[i + 1..][..j - i - 1] == raw[i + 1..j] && raw[i + 1..][j - i - 1] == raw[j];
  }

  /** Sections of the tree are opened by section tags. */
  ghost predicate Opened(nodes: seq<Node>)
    decreases nodes
  {
    forall k :: 0 <= k < |nodes| && !nodes[k].Leaf? ==>
      (nodes[k].token.kind == Section || nodes[k].token.kind == Inverted) && Opened(nodes[k].children)
  }

  ghost predicate OpenFrame(f: Frame) {
    (f.token.kind == Section || f.token.kind == Inverted) && Opened(f.before)
  }

  lemma {:induction false} NestOpens(tokens: seq<Token>, open: seq<Frame>, collected: seq<Node>)
    requires Opened(collected) && forall k :: 0 <= k < |open| ==> OpenFrame(open[k])
    ensures NestFrom(tokens, open, collected).Some? ==> Opened(NestFrom(tokens, open, collected).value)
    decreases tokens
  {
    hide NestFrom;
    if tokens == [] {
      UnwoundOpened(open, collected);
      NestAtEnd(open, collected);
    } else {
      var t := tokens[0];
      NestStep(tokens, open, collected);
      if t.kind == Section || t.kind == Inverted {
        NestOpens(tokens[1..], open + [Frame(collected, t)], []);
      } else if t.kind != Close {
        NestOpens(tokens[1..], open, collected + [Leaf(t)]);
      } else if open != [] {
        var f := open[|open| - 1];
        assert OpenFrame(f);
        NestOpens(tokens[1..], open[..|open| - 1], f.before + [Block(f.token, collected, t.start)]);
      }
    }
  }

  lemma NestAtEnd(open: seq<Frame>, collected: seq<Node>)
    ensures NestFrom([], open, collected) == Some(Unwound(open, collected))
  {
  }

  lemma {:induction false} UnwoundOpened(open: seq<Frame>, collected: seq<Node>)
    requires Opened(collected) && forall k :: 0 <= k < |open| ==> OpenFrame(open[k])
    ensures Opened(Unwound(open, collected))
    decreases |open|
  {
    if open != [] {
      var f := open[|open| - 1];
      assert OpenFrame(f);
      UnwoundOpened(open[..|open| - 1], f.before + [Unclosed(f.token, collected)]);
    }
  }

  lemma {:induction false} SectionsExact(template: string, raw: seq<Token>, tokens: seq<Option<Token>>,
                                         nodes: seq<Node>, a: nat)
    requires Tiles(template, raw, 0, |template|) && OnlyBlanksDeleted(tokens, Kept(raw))
    requires Opened(nodes) && Holds(SquashFrom([], tokens), a, Flatten(nodes))
    ensures Exact(template, raw, tokens, nodes)
    decreases nodes
  {
    hide Tiles, OnlyBlanksDeleted, SquashFrom, Holds, StandsFor, FlattenOne;
    forall k | 0 <= k < |nodes| && nodes[k].Block?
      ensures exists i, j :: StandsFor(template, raw, tokens, nodes[k], i, j)
      ensures Exact(template, raw, tokens, nodes[k].children)
    {
      var front := Flatten(nodes[..k]);
      NodeHeld(SquashFrom([], tokens), a, nodes, k);
      SectionFound(template, raw, tokens, nodes[k], a + |front|);
      ChildrenHeld(SquashFrom([], tokens), a + |front|, nodes[k]);
      SectionsExact(template, raw, tokens, nodes[k].children, a + |front| + 1);
    }
  }

  lemma NodeHeld(q: seq<Token>, a: nat, nodes: seq<Node>, k: nat)
    requires k < |nodes| && Holds(q, a, Flatten(nodes))
    ensures Holds(q, a + |Flatten(nodes[..k])|, FlattenOne(nodes[k]))
  {
    hide Holds, FlattenOne;
    assert nodes == nodes[..k] + nodes[k..];
    FlattenAppend(nodes[..k], nodes[k..]);
    assert nodes[k..][1..] == nodes[k + 1..];
    assert Flatten(nodes) == Flatten(nodes[..k]) + FlattenOne(nodes[k]) + Flatten(nodes[k + 1..]);
    HoldsPart(q, a, Flatten(nodes[..k]), FlattenOne(nodes[k]), Flatten(nodes[k + 1..]));
  }

  lemma ChildrenHeld(q: seq<Token>, a: nat, node: Node)
    requires node.Block? && Holds(q, a, FlattenOne(node))
    ensures Holds(q, a + 1, Flatten(node.children))
  {
    hide Holds, Flatten;
    HoldsPart(q, a, [node.token], Flatten(node.children),
              [Token(Close, node.token.value, node.closeStart, node.closeStart)]);
  }

  /**
   In the tree of every template that parses, each section stands for the raw tokens between two tags of its
   name: together they are exactly the recorded slice of the template, and its inside is made of them and of
   nothing else.
   */
  lemma SectionsHoldTheirSlices(tags: Tags, template: string)
    requires TagsOk(tags) && ParseFrom(tags, template, 0, NO_LINES, []).Ok?
    ensures Parse(tags, template).Ok?
    ensures Exact(template, RawFrom(tags, template, 0), ParseFrom(tags, template, 0, NO_LINES, []).value,
                  Parse(tags, template).value)
  {
    hide ParseFrom, RawFrom, SquashFrom, NestFrom, Tiles, OnlyBlanksDeleted, Exact, InOrder, Slices, AllClosed;
    var tokens := ParseFrom(tags, template, 0, NO_LINES, []).value;
    TokensCoverTemplate(tags, template);
    TreeHoldsTokens(tags, template);
    var tree := Parse(tags, template).value;
    NestOpens(SquashFrom([], tokens), [], []);
    assert Holds(SquashFrom([], tokens), 0, Flatten(tree)) by {
      assert CutAll(SquashFrom([], tokens))[0..|Flatten(tree)|] == Flatten(tree);
    }
    SectionsExact(template, RawFrom(tags, template, 0), tokens, tree, 0);
  }
}
