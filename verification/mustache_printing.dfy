/**
 Printing a template tree and parsing it again: what comes back.  The tree may have texts of many lines;
 the parser deletes the white space of lines with tags on which nothing is shown.
 */
module MustachePrinting {
  import opened Words
  import opened MustacheParser
  import opened MustacheTokens
  import opened MustacheSquashing
  import opened MustacheLines
  import opened MustacheReading
  import opened MustacheRoundTrip

  // ----- the tree with what is left of its texts -----

  /** One text, if anything is left of it. */
  function TextLeft(toks: seq<Option<Token>>): seq<Node> {
    if Present(toks) == [] then [] else [Leaf(OneText(Present(toks)))]
  }

  /** The tree printed at `pos`; `toks` are its raw tokens, some of them deleted. */
  function NodesLeft(b: Body, pos: nat, toks: seq<Option<Token>>): seq<Node>
    requires |toks| == RawSize(b)
    decreases b
  {
    match b
    case Done(_) => TextLeft(toks)
    case Then(text, item, rest) =>
      var n, m := |text|, |text| + ItemSize(item);
      TextLeft(toks[..n]) + [NodeLeft(item, pos + n, toks[n..m])] +
      NodesLeft(rest, pos + n + |PrintItem(item)|, toks[m..])
  }

  function NodeLeft(item: Item, pos: nat, toks: seq<Option<Token>>): Node
    requires |toks| == ItemSize(item)
    decreases item
  {
    match item
    case Single(style, name) => Leaf(TagToken(StyleMark(style), name, pos))
    case Group(inverted, name, body) =>
      var t := TagToken(SectionMark(inverted), name, pos);
      Block(t, NodesLeft(body, t.end, toks[1..|toks| - 1]), t.end + |Print(body)|)
  }

  lemma NodesOfParts(b: Body, pos: nat, toks: seq<Option<Token>>, x: seq<Option<Token>>, y: seq<Option<Token>>,
                     z: seq<Option<Token>>)
    requires b.Then? && |toks| == RawSize(b) && |x| == |b.text| && |y| == ItemSize(b.item)
    requires x == toks[..|x|] && y == toks[|x|..|x| + |y|] && z == toks[|x| + |y|..]
    ensures NodesLeft(b, pos, toks) ==
            TextLeft(x) + [NodeLeft(b.item, pos + |b.text|, y)] +
            NodesLeft(b.rest, pos + |b.text| + |PrintItem(b.item)|, z)
  {
    hide TextLeft, NodeLeft, PrintItem;
  }

  // ----- parts of the tokens -----

  lemma PartsLeft(toks: seq<Option<Token>>, a: seq<Token>, b: seq<Token>)
    requires OnlyBlanksDeleted(toks, Kept(a + b))
    ensures |toks| == |a| + |b|
    ensures OnlyBlanksDeleted(toks[..|a|], Kept(a)) && OnlyBlanksDeleted(toks[|a|..], Kept(b))
  {
    hide IsBlank;
    forall k | 0 <= k < |a|
      ensures toks[..|a|][k] == Kept(a)[k] || (toks[..|a|][k] == None && IsBlank(Kept(a)[k]))
    {
      assert Kept(a + b)[k] == Kept(a)[k];
    }
    forall k | 0 <= k < |b|
      ensures toks[|a|..][k] == Kept(b)[k] || (toks[|a|..][k] == None && IsBlank(Kept(b)[k]))
    {
      assert Kept(a + b)[|a| + k] == Kept(b)[k];
    }
  }

  /** The parts of a tree: text, item and rest. */
  lemma BodyParts(b: Body, pos: nat, toks: seq<Option<Token>>)
    requires b.Then? && OnlyBlanksDeleted(toks, Kept(RawOf(b, pos)))
    ensures var n, m := |b.text|, |b.text| + ItemSize(b.item);
      && m <= |toks|
      && OnlyBlanksDeleted(toks[..n], Kept(RawText(b.text, pos)))
      && OnlyBlanksDeleted(toks[n..m], Kept(RawItem(b.item, pos + n)))
      && OnlyBlanksDeleted(toks[m..], Kept(RawOf(b.rest, pos + n + |PrintItem(b.item)|)))
      && toks == toks[..n] + (toks[n..m] + toks[m..])
  {
    hide OnlyBlanksDeleted, PrintItem;
    var n, m := |b.text|, |b.text| + ItemSize(b.item);
    var x, y := RawText(b.text, pos), RawItem(b.item, pos + n);
    PartsLeft(toks, x + y, RawOf(b.rest, pos + n + |PrintItem(b.item)|));
    PartsLeft(toks[..m], x, y);
    assert toks[..m][..n] == toks[..n] && toks[..m][n..] == toks[n..m];
  }

  lemma TagLeft(toks: seq<Option<Token>>, t: Token)
    requires OnlyBlanksDeleted(toks, Kept([t])) && t.kind != Text
    ensures toks == [Some(t)]
  {
    assert Kept([t])[0] == Some(t);
  }

  /** The parts of a section: its two tags and its inside. */
  lemma GroupParts(item: Item, pos: nat, toks: seq<Option<Token>>)
    requires item.Group? && OnlyBlanksDeleted(toks, Kept(RawItem(item, pos)))
    ensures var t := TagToken(SectionMark(item.inverted), item.name, pos);
      var close := TagToken("/", item.name, t.end + |Print(item.body)|);
      var n := |toks| - 1;
      && 1 <= n == RawSize(item.body) + 1
      && toks == [Some(t)] + (toks[1..n] + [Some(close)])
      && OnlyBlanksDeleted(toks[1..n], Kept(RawOf(item.body, t.end)))
  {
    hide OnlyBlanksDeleted, MarkKind, TagText;
    var t := TagToken(SectionMark(item.inverted), item.name, pos);
    var close := TagToken("/", item.name, t.end + |Print(item.body)|);
    var inside := RawOf(item.body, t.end);
    TagKind(SectionMark(item.inverted), item.name, pos);
    TagKind("/", item.name, t.end + |Print(item.body)|);
    PartsLeft(toks, [t] + inside, [close]);
    TagLeft(toks[|inside| + 1..], close);
    PartsLeft(toks[..|inside| + 1], [t], inside);
    TagLeft(toks[..|inside| + 1][..1], t);
    assert toks[..|inside| + 1][1..] == toks[1..|inside| + 1];
    assert toks == toks[..|inside| + 1][..1] + (toks[1..|inside| + 1] + toks[|inside| + 1..]);
  }

  lemma TagKind(mark: string, name: string, pos: nat)
    ensures TagToken(mark, name, pos).kind != Text
  {
  }

  /** An item starts and ends with a tag. */
  lemma ItemTags(item: Item, pos: nat, toks: seq<Option<Token>>)
    requires OnlyBlanksDeleted(toks, Kept(RawItem(item, pos)))
    ensures StartsWithTag(toks) && EndsInTag(toks)
  {
    hide OnlyBlanksDeleted, MarkKind, TagText;
    match item {
      case Single(style, name) =>
        TagKind(StyleMark(style), name, pos);
        TagLeft(toks, TagToken(StyleMark(style), name, pos));
      case Group(inverted, name, body) =>
        var end := TagToken(SectionMark(inverted), name, pos).end;
        TagKind(SectionMark(inverted), name, pos);
        TagKind("/", name, end + |Print(body)|);
        GroupParts(item, pos, toks);
    }
  }

  // ----- squashing and nesting -----

  lemma TextTokensLeft(text: string, pos: nat, toks: seq<Option<Token>>)
    requires OnlyBlanksDeleted(toks, Kept(RawText(text, pos)))
    ensures TextsOnly(toks)
  {
    forall k | 0 <= k < |toks| && toks[k].Some?
      ensures toks[k].value.kind == Text
    {
      assert Kept(RawText(text, pos))[k] == Some(RawText(text, pos)[k]);
    }
  }

  lemma NestLeaf(t: Token, k: seq<Token>, open: seq<Frame>, collected: seq<Node>)
    requires t.kind != Section && t.kind != Inverted && t.kind != Close
    ensures NestFrom([t] + k, open, collected) == NestFrom(k, open, collected + [Leaf(t)])
  {
    assert ([t] + k)[1..] == k;
  }

  lemma NestOpen(t: Token, k: seq<Token>, open: seq<Frame>, collected: seq<Node>)
    requires t.kind == Section || t.kind == Inverted
    ensures NestFrom([t] + k, open, collected) == NestFrom(k, open + [Frame(collected, t)], [])
  {
    assert ([t] + k)[1..] == k;
  }

  lemma NestClose(t: Token, k: seq<Token>, open: seq<Frame>, f: Frame, collected: seq<Node>)
    requires t.kind == Close
    ensures NestFrom([t] + k, open + [f], collected) ==
            NestFrom(k, open, f.before + [Block(f.token, collected, t.start)])
  {
    assert ([t] + k)[1..] == k;
    assert (open + [f])[..|open|] == open;
  }

  lemma NestText(text: string, pos: nat, toks: seq<Option<Token>>, k: seq<Token>, open: seq<Frame>,
                 collected: seq<Node>)
    requires OnlyBlanksDeleted(toks, Kept(RawText(text, pos)))
    ensures NestFrom(SquashFrom([], toks) + k, open, collected) == NestFrom(k, open, collected + TextLeft(toks))
  {
    hide NestFrom, SquashFrom, OnlyBlanksDeleted;
    TextTokensLeft(text, pos, toks);
    SquashedTexts(toks);
    if Present(toks) == [] {
      assert [] + k == k && collected + [] == collected;
    } else {
      NestLeaf(OneText(Present(toks)), k, open, collected);
    }
  }

  lemma {:induction false} NestBody(b: Body, pos: nat, toks: seq<Option<Token>>, k: seq<Token>, open: seq<Frame>,
                                    collected: seq<Node>)
    requires OnlyBlanksDeleted(toks, Kept(RawOf(b, pos)))
    ensures |toks| == RawSize(b)
    ensures NestFrom(SquashFrom([], toks) + k, open, collected) ==
            NestFrom(k, open, collected + NodesLeft(b, pos, toks))
    decreases b
  {
    hide NestFrom, SquashFrom, OnlyBlanksDeleted, TextLeft, PrintItem, NodeLeft, StartsWithTag, EndsInTag;
    hide NodesLeft, RawOf, RawItem, RawText, RawSize, ItemSize, Kept;
    SizeLeft(toks, RawOf(b, pos));
    match b {
      case Done(text) =>
        NestDone(text, pos, toks, k, open, collected);
      case Then(text, item, rest) =>
        var n, m := |text|, |text| + ItemSize(item);
        var p1 := pos + n;
        var p2 := p1 + |PrintItem(item)|;
        BodyParts(b, pos, toks);
        var x, y, z := toks[..n], toks[n..m], toks[m..];
        SizeLeft(z, RawOf(rest, p2));
        NodesOfParts(b, pos, toks, x, y, z);
        ItemTags(item, p1, y);
        SquashThree(x, y, z);
        var qx, qy, qz := SquashFrom([], x), SquashFrom([], y), SquashFrom([], z);
        FourTokens(qx, qy, qz, k);
        NestText(text, pos, x, qy + (qz + k), open, collected);
        NestItem(item, p1, y, qz + k, open, collected + TextLeft(x));
        NestBody(rest, p2, z, k, open, collected + TextLeft(x) + [NodeLeft(item, p1, y)]);
        FourNodes(collected, TextLeft(x), [NodeLeft(item, p1, y)], NodesLeft(rest, p2, z));
    }
  }

  lemma NestDone(text: string, pos: nat, toks: seq<Option<Token>>, k: seq<Token>, open: seq<Frame>,
                 collected: seq<Node>)
    requires OnlyBlanksDeleted(toks, Kept(RawOf(Done(text), pos))) && |toks| == RawSize(Done(text))
    ensures NestFrom(SquashFrom([], toks) + k, open, collected) ==
            NestFrom(k, open, collected + NodesLeft(Done(text), pos, toks))
  {
    hide NestFrom, SquashFrom, OnlyBlanksDeleted, TextLeft, Kept, RawText;
    NestText(text, pos, toks, k, open, collected);
  }

  lemma FourTokens(a: seq<Token>, b: seq<Token>, c: seq<Token>, d: seq<Token>)
    ensures a + (b + c) + d == a + (b + (c + d))
  {
  }

  lemma FourNodes(a: seq<Node>, b: seq<Node>, c: seq<Node>, d: seq<Node>)
    ensures a + b + c + d == a + (b + c + d)
  {
  }

  lemma SquashThree(x: seq<Option<Token>>, y: seq<Option<Token>>, z: seq<Option<Token>>)
    requires StartsWithTag(y) && EndsInTag(y)
    ensures SquashFrom([], x + (y + z)) == SquashFrom([], x) + (SquashFrom([], y) + SquashFrom([], z))
  {
    hide SquashFrom, StartsWithTag, EndsInTag;
    StartsStay(y, z);
    SquashApart(x, y + z);
    SquashApart(y, z);
  }

  lemma StartsStay(y: seq<Option<Token>>, z: seq<Option<Token>>)
    requires StartsWithTag(y)
    ensures StartsWithTag(y + z)
  {
  }

  lemma SizeLeft(toks: seq<Option<Token>>, raw: seq<Token>)
    requires OnlyBlanksDeleted(toks, Kept(raw))
    ensures |toks| == |raw|
  {
  }

  lemma {:induction false} NestItem(item: Item, pos: nat, toks: seq<Option<Token>>, k: seq<Token>,
                                    open: seq<Frame>, collected: seq<Node>)
    requires OnlyBlanksDeleted(toks, Kept(RawItem(item, pos)))
    ensures |toks| == ItemSize(item)
    ensures NestFrom(SquashFrom([], toks) + k, open, collected) ==
            NestFrom(k, open, collected + [NodeLeft(item, pos, toks)])
    decreases item
  {
    hide NestFrom, SquashFrom, OnlyBlanksDeleted, NodesLeft, MarkKind, TagText;
    SizeLeft(toks, RawItem(item, pos));
    match item {
      case Single(style, name) =>
        var t := TagToken(StyleMark(style), name, pos);
        SingleKinds(style);
        TagLeft(toks, t);
        SquashOne(t);
        NestLeaf(t, k, open, collected);
      case Group(inverted, name, body) =>
        var t := TagToken(SectionMark(inverted), name, pos);
        var close := TagToken("/", name, t.end + |Print(body)|);
        var inside := toks[1..|toks| - 1];
        SectionKinds(inverted);
        GroupParts(item, pos, toks);
        SquashBetween(t, inside, close);
        var q := SquashFrom([], inside);
        assert [t] + (q + [close]) + k == [t] + (q + ([close] + k));
        NestOpen(t, q + ([close] + k), open, collected);
        NestBody(body, t.end, inside, [close] + k, open + [Frame(collected, t)], []);
        assert [] + NodesLeft(body, t.end, inside) == NodesLeft(body, t.end, inside);
        NestClose(close, k, open, Frame(collected, t), NodesLeft(body, t.end, inside));
    }
  }

  lemma SingleKinds(style: Style)
    ensures MarkKind(StyleMark(style)) !in {Text, Section, Inverted, Close}
  {
  }

  lemma SectionKinds(inverted: bool)
    ensures MarkKind(SectionMark(inverted)) == if inverted then Inverted else Section
    ensures MarkKind("/") == Close
  {
  }

  lemma SquashOne(t: Token)
    ensures SquashFrom([], [Some(t)]) == [t]
  {
    assert [Some(t)] + [] == [Some(t)];
    SquashStep([], t, []);
  }

  lemma SquashBetween(t: Token, inside: seq<Option<Token>>, close: Token)
    requires t.kind != Text && close.kind != Text
    ensures SquashFrom([], [Some(t)] + (inside + [Some(close)])) == [t] + (SquashFrom([], inside) + [close])
  {
    hide SquashFrom;
    SquashApart([Some(t)], inside + [Some(close)]);
    SquashApart(inside, [Some(close)]);
    SquashOne(t);
    SquashOne(close);
  }

  // ----- lines -----

  /** Reading a printed tree: complete lines are cleaned, the last one stays open. */
  lemma {:induction false} BodyLines(st: Lines, done: seq<Option<Token>>, line: seq<Token>, b: Body, pos: nat,
                                     rest: seq<Token>)
    returns (done1: seq<Option<Token>>, line1: seq<Token>)
    requires st.Valid() && Represents(st, done, line)
    ensures Represents(AfterBody(st, b, pos), done1, line1)
    ensures done + CleanLines(line + (RawOf(b, pos) + rest)) == done1 + CleanLines(line1 + rest)
    decreases b
  {
    hide Represents, CleanLines, RawText, AddText, AfterItem, RawItem, PrintItem;
    match b {
      case Done(text) =>
        done1, line1 := TextLines(st, done, line, text, pos, rest);
      case Then(text, item, more) =>
        var p1 := pos + |text|;
        var p2 := p1 + |PrintItem(item)|;
        var x, y, z := RawText(text, pos), RawItem(item, p1), RawOf(more, p2);
        Parts(x, y, z, rest);
        done1, line1 := TextLines(st, done, line, text, pos, y + (z + rest));
        var st1 := AddText(st, text, pos);
        done1, line1 := ItemLines(st1, done1, line1, item, p1, z + rest);
        done1, line1 := BodyLines(AfterItem(st1, item, p1), done1, line1, more, p2, rest);
    }
  }

  lemma Parts(a: seq<Token>, b: seq<Token>, c: seq<Token>, d: seq<Token>)
    ensures a + b + c + d == a + (b + (c + d))
  {
  }

  lemma {:induction false} ItemLines(st: Lines, done: seq<Option<Token>>, line: seq<Token>, item: Item, pos: nat,
                                     rest: seq<Token>)
    returns (done1: seq<Option<Token>>, line1: seq<Token>)
    requires st.Valid() && Represents(st, done, line)
    ensures Represents(AfterItem(st, item, pos), done1, line1)
    ensures done + CleanLines(line + (RawItem(item, pos) + rest)) == done1 + CleanLines(line1 + rest)
    decreases item
  {
    hide Represents, CleanLines, AddTag, AfterBody, RawOf, MarkKind, TagText;
    match item {
      case Single(style, name) =>
        var t := TagToken(StyleMark(style), name, pos);
        TagKind(StyleMark(style), name, pos);
        TagAppended(st, done, line, t);
        Shift(line, t, rest);
        done1, line1 := done, line + [t];
      case Group(inverted, name, body) =>
        var t := TagToken(SectionMark(inverted), name, pos);
        var close := TagToken("/", name, t.end + |Print(body)|);
        TagKind(SectionMark(inverted), name, pos);
        TagKind("/", name, t.end + |Print(body)|);
        var inside := RawOf(body, t.end);
        Parts([t], inside, [close], rest);
        TagAppended(st, done, line, t);
        Shift(line, t, inside + ([close] + rest));
        done1, line1 := BodyLines(AddTag(st, t), done, line + [t], body, t.end, [close] + rest);
        var st1 := AfterBody(AddTag(st, t), body, t.end);
        TagAppended(st1, done1, line1, close);
        Shift(line1, close, rest);
        line1 := line1 + [close];
    }
  }

  // ----- what comes back -----

  lemma EndReads(pos: nat, st: Lines)
    requires st.Valid()
    ensures ParseFrom(DEFAULT_TAGS, "", pos, st, []) == Ok(st.tokens)
  {
  }

  /** The tokens of a printed tree: as printed, except for the lines that are cleaned. */
  lemma PrintedTokens(b: Body)
    requires Printable(b)
    ensures ParseFrom(DEFAULT_TAGS, Print(b), 0, NO_LINES, []) == Ok(CleanLines(RawOf(b, 0)))
  {
    hide ParseFrom, AfterBody, Print, RawOf, Printable, CleanLines, Represents;
    assert Print(b) + "" == Print(b);
    BodyReads(b, "", 0, NO_LINES, []);
    EndReads(|Print(b)|, AfterBody(NO_LINES, b, 0));
    NothingRepresented();
    var done, line := BodyLines(NO_LINES, [], [], b, 0, []);
    RepresentsKept(AfterBody(NO_LINES, b, 0), done, line);
    assert [] + (RawOf(b, 0) + []) == RawOf(b, 0);
    assert [] + CleanLines(RawOf(b, 0)) == CleanLines(RawOf(b, 0));
  }

  lemma NestNothing(nodes: seq<Node>)
    ensures NestFrom([], [], nodes) == Some(nodes)
  {
  }

  /**
   Print and parse: every template tree of texts, variables and nested sections with plain names, printed and
   parsed with the default delimiters, comes back with every node at the place it was printed at, and with
   what the cleaning of its lines leaves of its texts.
   */
  lemma PrintParse(b: Body)
    requires Printable(b)
    ensures Parse(DEFAULT_TAGS, Print(b)) == Ok(NodesLeft(b, 0, CleanLines(RawOf(b, 0))))
  {
    hide ParseFrom, SquashFrom, NestFrom, Print, RawOf, Printable, CleanLines, NodesLeft, OnlyBlanksDeleted;
    var toks := CleanLines(RawOf(b, 0));
    PrintedTokens(b);
    CleanedLines(RawOf(b, 0));
    NestBody(b, 0, toks, [], [], []);
    assert SquashFrom([], toks) + [] == SquashFrom([], toks);
    assert [] + NodesLeft(b, 0, toks) == NodesLeft(b, 0, toks);
    NestNothing(NodesLeft(b, 0, toks));
  }
}
