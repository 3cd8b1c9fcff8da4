/** When a printed template tree comes back from the parser unchanged. */
module MustacheUnchanged {
  import opened Words
  import opened MustacheParser
  import opened MustacheTokens
  import opened MustacheSquashing
  import opened MustacheLines
  import opened MustacheReading
  import opened MustacheRoundTrip
  import opened MustachePrinting

  // ----- the tokens of a text -----

  /** The first character of a text is left or deleted, and the others are a text themselves. */
  lemma CharLeft(text: string, pos: nat, toks: seq<Option<Token>>)
    requires text != "" && OnlyBlanksDeleted(toks, Kept(RawText(text, pos)))
    ensures var t := Token(Text, [text[0]], pos, pos + 1);
      var more := RawText(text[1..], pos + 1);
      && RawText(text, pos) == [t] + more
      && toks != [] && (toks[0] == Some(t) || toks[0] == None) && OnlyBlanksDeleted(toks[1..], Kept(more))
      && (toks == Kept(RawText(text, pos)) <==> toks[0] == Some(t) && toks[1..] == Kept(more))
  {
    hide OnlyBlanksDeleted, Kept;
    var t := Token(Text, [text[0]], pos, pos + 1);
    var more := RawText(text[1..], pos + 1);
    assert RawText(text, pos) == [t] + more;
    hide RawText;
    PartsLeft(toks, [t], more);
    OneLeft(toks[..1], t);
    KeptCons(toks, t, more);
  }

  lemma OneLeft(toks: seq<Option<Token>>, t: Token)
    requires OnlyBlanksDeleted(toks, Kept([t]))
    ensures |toks| == 1 && (toks[0] == Some(t) || toks[0] == None)
  {
    assert Kept([t])[0] == Some(t);
  }

  lemma KeptCons(toks: seq<Option<Token>>, t: Token, more: seq<Token>)
    requires |toks| == 1 + |more|
    ensures toks == Kept([t] + more) <==> toks[0] == Some(t) && toks[1..] == Kept(more)
  {
    assert Kept([t] + more) == [Some(t)] + Kept(more);
    assert ([Some(t)] + Kept(more))[1..] == Kept(more);
    assert toks == [toks[0]] + toks[1..];
  }

  lemma {:induction false} LettersLeft(text: string, pos: nat, toks: seq<Option<Token>>)
    requires OnlyBlanksDeleted(toks, Kept(RawText(text, pos)))
    ensures |Letters(Present(toks))| <= |text|
    ensures |Letters(Present(toks))| == |text| <==> toks == Kept(RawText(text, pos))
    ensures toks == Kept(RawText(text, pos)) ==> Present(toks) == RawText(text, pos) && Letters(Present(toks)) == text
    decreases text
  {
    hide OnlyBlanksDeleted, Letters;
    if text == "" {
      NothingLeftOver(toks, pos);
    } else {
      hide Kept, RawText;
      CharLeft(text, pos, toks);
      LettersLeft(text[1..], pos + 1, toks[1..]);
      if toks[0].Some? {
        LettersCons(toks[0].value, Present(toks[1..]));
      }
    }
  }

  lemma NothingLeftOver(toks: seq<Option<Token>>, pos: nat)
    requires OnlyBlanksDeleted(toks, Kept(RawText("", pos)))
    ensures toks == Kept(RawText("", pos)) == [] && Present(toks) == RawText("", pos) == [] && Letters([]) == ""
  {
  }

  lemma TextComesBack(text: string, pos: nat, toks: seq<Option<Token>>)
    requires OnlyBlanksDeleted(toks, Kept(RawText(text, pos)))
    ensures TextLeft(toks) == TextNodes(text, pos) <==> toks == Kept(RawText(text, pos))
  {
    hide OnlyBlanksDeleted, Letters, Present, Kept, RawText;
    LettersLeft(text, pos, toks);
    if TextLeft(toks) == TextNodes(text, pos) && text != "" {
      assert TextNodes(text, pos)[0].token.value == text;
      assert TextLeft(toks)[0].token.value == Letters(Present(toks));
    }
    NothingToSay();
  }

  lemma NothingToSay()
    ensures Letters([]) == ""
  {
  }

  // ----- the parts of a tree -----

  ghost predicate TextNodesOnly(nodes: seq<Node>) {
    |nodes| <= 1 && forall k :: 0 <= k < |nodes| ==> nodes[k].token.kind == Text
  }

  /** At most one text in front of another node: the parts of such a list are determined. */
  lemma SameParts(a: seq<Node>, m: Node, c: seq<Node>, a1: seq<Node>, m1: Node, c1: seq<Node>)
    requires TextNodesOnly(a) && TextNodesOnly(a1) && m.token.kind != Text && m1.token.kind != Text
    ensures a + [m] + c == a1 + [m1] + c1 <==> a == a1 && m == m1 && c == c1
  {
    var s, s1 := a + [m] + c, a1 + [m1] + c1;
    assert s[|a|] == m && s1[|a1|] == m1;
    assert s[|a| + 1..] == c && s1[|a1| + 1..] == c1;
    assert s[..|a|] == a && s1[..|a1|] == a1;
    assert a != [] ==> s[0] == a[0];
    assert a1 != [] ==> s1[0] == a1[0];
  }

  lemma SameTokens(toks: seq<Option<Token>>, a: seq<Token>, b: seq<Token>, c: seq<Token>)
    requires |toks| == |a| + |b| + |c|
    ensures toks == Kept(a + b + c) <==>
            toks[..|a|] == Kept(a) && toks[|a|..|a| + |b|] == Kept(b) && toks[|a| + |b|..] == Kept(c)
  {
    hide Kept;
    var m := |a| + |b|;
    KeptParts(a + b, c);
    KeptParts(a, b);
    assert toks == toks[..m] + toks[m..];
    SameSides(toks[..m], toks[m..], Kept(a + b), Kept(c));
    assert toks[..m] == toks[..|a|] + toks[|a|..m];
    SameSides(toks[..|a|], toks[|a|..m], Kept(a), Kept(b));
  }

  lemma NodeKinds(item: Item, pos: nat, toks: seq<Option<Token>>)
    requires |toks| == ItemSize(item)
    ensures NodeLeft(item, pos, toks).token.kind != Text && NodeOf(item, pos).token.kind != Text
  {
    hide MarkKind, TagText, NodesLeft, NodesOf;
    match item {
      case Single(style, name) =>
        TagKind(StyleMark(style), name, pos);
      case Group(inverted, name, _) =>
        TagKind(SectionMark(inverted), name, pos);
    }
  }

  /** The tree is the printed one if and only if no token is deleted. */
  lemma {:induction false} BodyComesBack(b: Body, pos: nat, toks: seq<Option<Token>>)
    requires OnlyBlanksDeleted(toks, Kept(RawOf(b, pos)))
    ensures |toks| == RawSize(b)
    ensures NodesLeft(b, pos, toks) == NodesOf(b, pos) <==> toks == Kept(RawOf(b, pos))
    decreases b
  {
    hide OnlyBlanksDeleted, TextLeft, TextNodes, PrintItem, NodeLeft, NodeOf, Kept, RawText, RawItem;
    hide NodesLeft, NodesOf, RawOf, RawSize, ItemSize;
    SizeLeft(toks, RawOf(b, pos));
    match b {
      case Done(text) =>
        DoneComesBack(text, pos, toks);
      case Then(text, item, rest) =>
        var n, m := |text|, |text| + ItemSize(item);
        var p1 := pos + n;
        var p2 := p1 + |PrintItem(item)|;
        BodyParts(b, pos, toks);
        TextComesBack(text, pos, toks[..n]);
        ItemComesBack(item, p1, toks[n..m]);
        BodyComesBack(rest, p2, toks[m..]);
        PartsComeBack(b, pos, toks);
    }
  }

  lemma DoneComesBack(text: string, pos: nat, toks: seq<Option<Token>>)
    requires OnlyBlanksDeleted(toks, Kept(RawOf(Done(text), pos))) && |toks| == RawSize(Done(text))
    ensures NodesLeft(Done(text), pos, toks) == NodesOf(Done(text), pos) <==> toks == Kept(RawOf(Done(text), pos))
  {
    hide OnlyBlanksDeleted, TextLeft, TextNodes, Kept, RawText;
    TextComesBack(text, pos, toks);
  }

  /** A tree is the printed one if its text, its item and its rest are. */
  lemma PartsComeBack(b: Body, pos: nat, toks: seq<Option<Token>>)
    requires b.Then? && |toks| == RawSize(b)
    requires var n, m := |b.text|, |b.text| + ItemSize(b.item);
      var p1, p2 := pos + n, pos + n + |PrintItem(b.item)|;
      var x, y, z := toks[..n], toks[n..m], toks[m..];
      && (TextLeft(x) == TextNodes(b.text, pos) <==> x == Kept(RawText(b.text, pos)))
      && (NodeLeft(b.item, p1, y) == NodeOf(b.item, p1) <==> y == Kept(RawItem(b.item, p1)))
      && (NodesLeft(b.rest, p2, z) == NodesOf(b.rest, p2) <==> z == Kept(RawOf(b.rest, p2)))
    ensures NodesLeft(b, pos, toks) == NodesOf(b, pos) <==> toks == Kept(RawOf(b, pos))
  {
    hide TextLeft, TextNodes, PrintItem, NodeLeft, NodeOf, Kept, RawText, RawItem, NodesLeft, NodesOf, RawOf, ItemSize;
    PrintedParts(b, pos);
    var n, m := |b.text|, |b.text| + ItemSize(b.item);
    var p1, p2 := pos + n, pos + n + |PrintItem(b.item)|;
    var x, y, z := toks[..n], toks[n..m], toks[m..];
    NodesOfParts(b, pos, toks, x, y, z);
    SameTokens(toks, RawText(b.text, pos), RawItem(b.item, p1), RawOf(b.rest, p2));
    NodeKinds(b.item, p1, y);
    TextsShort(b.text, pos, x);
    SameParts(TextLeft(x), NodeLeft(b.item, p1, y), NodesLeft(b.rest, p2, z),
              TextNodes(b.text, pos), NodeOf(b.item, p1), NodesOf(b.rest, p2));
  }

  lemma PrintedParts(b: Body, pos: nat)
    requires b.Then?
    ensures var p1, p2 := pos + |b.text|, pos + |b.text| + |PrintItem(b.item)|;
      && NodesOf(b, pos) == TextNodes(b.text, pos) + [NodeOf(b.item, p1)] + NodesOf(b.rest, p2)
      && RawOf(b, pos) == RawText(b.text, pos) + RawItem(b.item, p1) + RawOf(b.rest, p2)
  {
    hide TextNodes, PrintItem, NodeOf, RawText, RawItem;
  }

  lemma TextsShort(text: string, pos: nat, toks: seq<Option<Token>>)
    ensures TextNodesOnly(TextLeft(toks)) && TextNodesOnly(TextNodes(text, pos))
  {
  }

  lemma {:induction false} ItemComesBack(item: Item, pos: nat, toks: seq<Option<Token>>)
    requires OnlyBlanksDeleted(toks, Kept(RawItem(item, pos)))
    ensures |toks| == ItemSize(item)
    ensures NodeLeft(item, pos, toks) == NodeOf(item, pos) <==> toks == Kept(RawItem(item, pos))
    decreases item
  {
    hide OnlyBlanksDeleted, NodesLeft, NodesOf, Kept, RawOf, MarkKind, TagText;
    SizeLeft(toks, RawItem(item, pos));
    match item {
      case Single(style, name) =>
        var t := TagToken(StyleMark(style), name, pos);
        TagKind(StyleMark(style), name, pos);
        TagLeft(toks, t);
        assert Kept([t]) == [Some(t)];
      case Group(inverted, name, body) =>
        var t := TagToken(SectionMark(inverted), name, pos);
        var close := TagToken("/", name, t.end + |Print(body)|);
        var inside := toks[1..|toks| - 1];
        GroupParts(item, pos, toks);
        BodyComesBack(body, t.end, inside);
        TokensBetween(t, RawOf(body, t.end), close, inside);
    }
  }

  lemma TokensBetween(t: Token, raw: seq<Token>, close: Token, inside: seq<Option<Token>>)
    requires |inside| == |raw|
    ensures [Some(t)] + (inside + [Some(close)]) == Kept([t] + raw + [close]) <==> inside == Kept(raw)
  {
    assert [t] + raw + [close] == [t] + (raw + [close]);
    KeptParts([t], raw + [close]);
    KeptParts(raw, [close]);
    assert Kept([t]) == [Some(t)] && Kept([close]) == [Some(close)];
    hide Kept;
    SameSides([Some(t)], inside + [Some(close)], [Some(t)], Kept(raw) + [Some(close)]);
    SameSides(inside, [Some(close)], Kept(raw), [Some(close)]);
  }

  // ----- main results -----

  /**
   Exactly when the printed tree comes back unchanged: if and only if no complete line of it holds a tag and
   shows nothing but white space.
   */
  lemma PrintParseExactly(b: Body)
    requires Printable(b)
    ensures Parse(DEFAULT_TAGS, Print(b)) == Ok(NodesOf(b, 0)) <==> Undisturbed(RawOf(b, 0))
  {
    hide Parse, Print, RawOf, Printable, CleanLines, NodesLeft, NodesOf, OnlyBlanksDeleted, Undisturbed;
    PrintParse(b);
    CleanedLines(RawOf(b, 0));
    BodyComesBack(b, 0, CleanLines(RawOf(b, 0)));
    UndisturbedExactly(RawOf(b, 0));
  }

  /** The same for every template tree, with adjacent texts merged. */
  lemma PrintParseTree(t: Tree)
    requires PrintableTree(t)
    ensures var b := Merged(t);
      && Parse(DEFAULT_TAGS, PrintTree(t)) == Ok(NodesLeft(b, 0, CleanLines(RawOf(b, 0))))
      && (Parse(DEFAULT_TAGS, PrintTree(t)) == Ok(NodesOf(b, 0)) <==> Undisturbed(RawOf(b, 0)))
  {
    hide Parse, NodesOf, NodesLeft, CleanLines, Undisturbed, RawOf;
    MergedPrints(t);
    PrintParse(Merged(t));
    PrintParseExactly(Merged(t));
  }

  predicate OneLine(b: Body) {
    match b
    case Done(text) => '\n' !in text
    case Then(text, Single(_, _), rest) => '\n' !in text && OneLine(rest)
    case Then(text, Group(_, _, body), rest) => '\n' !in text && OneLine(body) && OneLine(rest)
  }

  ghost predicate NoLineBreaks(ts: seq<Token>) {
    forall k :: 0 <= k < |ts| ==> !IsNewline(ts[k])
  }

  lemma {:induction false} BodyOnLine(b: Body, pos: nat)
    requires OneLine(b)
    ensures NoLineBreaks(RawOf(b, pos))
    decreases b
  {
    hide MarkKind, TagText, PrintItem, IsNewline, NoLineBreaks, RawText;
    match b {
      case Done(text) =>
        TextOnLine(text, pos);
      case Then(text, item, rest) =>
        var p1 := pos + |text|;
        var p2 := p1 + |PrintItem(item)|;
        TextOnLine(text, pos);
        BodyOnLine(rest, p2);
        match item {
          case Single(style, name) =>
            TagOnLine(StyleMark(style), name, p1);
          case Group(inverted, name, body) =>
            var t := TagToken(SectionMark(inverted), name, p1);
            var close := TagToken("/", name, t.end + |Print(body)|);
            TagOnLine(SectionMark(inverted), name, p1);
            TagOnLine("/", name, t.end + |Print(body)|);
            BodyOnLine(body, t.end);
            OnLineTogether([t], RawOf(body, t.end));
            OnLineTogether([t] + RawOf(body, t.end), [close]);
        }
        OnLineTogether(RawText(text, pos), RawItem(item, p1));
        OnLineTogether(RawText(text, pos) + RawItem(item, p1), RawOf(rest, p2));
    }
  }

  lemma OnLineTogether(a: seq<Token>, b: seq<Token>)
    requires NoLineBreaks(a) && NoLineBreaks(b)
    ensures NoLineBreaks(a + b)
  {
  }

  lemma TagOnLine(mark: string, name: string, pos: nat)
    ensures NoLineBreaks([TagToken(mark, name, pos)])
  {
  }

  lemma TextOnLine(text: string, pos: nat)
    requires '\n' !in text
    ensures NoLineBreaks(RawText(text, pos))
  {
    assert "\n"[0] == '\n';
  }

  /** Trees on one line come back unchanged. */
  lemma OneLineComesBack(b: Body)
    requires Printable(b) && OneLine(b)
    ensures Parse(DEFAULT_TAGS, Print(b)) == Ok(NodesOf(b, 0))
  {
    hide Parse, Print, RawOf, Printable, NodesOf, Undisturbed, OneLine, IsNewline;
    BodyOnLine(b, 0);
    OneLineUndisturbed(RawOf(b, 0));
    PrintParseExactly(b);
  }

  /** A section around a line break. */
  function Lone(name: string): (b: Body)
    ensures RawSize(b) == 3
  {
    var item := Group(false, name, Done("\n"));
    assert ItemSize(item) == 3;
    Then("", item, Done(""))
  }

  lemma LoneTokens(name: string)
    ensures var t := TagToken("#", name, 0);
      RawOf(Lone(name), 0) ==
      [t] + ([Token(Text, "\n", t.end, t.end + 1)] + [TagToken("/", name, t.end + 1)])
  {
    hide MarkKind, TagText, RawText;
    var item := Group(false, name, Done("\n"));
    var t := TagToken("#", name, 0);
    OneCharText('\n', t.end);
    assert RawItem(item, 0) == [t] + RawOf(Done("\n"), t.end) + [TagToken("/", name, t.end + 1)];
    assert RawOf(Lone(name), 0) == RawText("", 0) + RawItem(item, 0) + RawOf(Done(""), |PrintItem(item)|);
  }

  lemma OneCharText(c: char, pos: nat)
    ensures RawText([c], pos) == [Token(Text, [c], pos, pos + 1)]
  {
  }

  lemma LoneCleaned(t: Token, line: Token, close: Token)
    requires t.kind == Section && IsNewline(line) && close.kind == Close
    ensures CleanLines([t] + ([line] + [close])) == [Some(t), None, Some(close)]
  {
    hide CleanLines;
    LinesSplit([t], line, [close]);
    NoLineBreak([close]);
    assert [close] + [] == [close] && Kept([close]) == [Some(close)];
    var both := [t] + [line];
    assert both[0] == t && both[1] == line;
    assert CleanLine(both) == [Some(t), None];
  }

  lemma LoneLeft(name: string)
    ensures var t := TagToken("#", name, 0);
      NodesLeft(Lone(name), 0, [Some(t), None, Some(TagToken("/", name, t.end + 1))]) == [Block(t, [], t.end + 1)]
  {
    hide MarkKind, TagText;
    var t := TagToken("#", name, 0);
    var toks := [Some(t), None, Some(TagToken("/", name, t.end + 1))];
    var item := Group(false, name, Done("\n"));
    assert toks[0..3] == toks && toks[1..2] == [None] && toks[..0] == [] && toks[3..] == [];
    assert TextLeft([]) == [];
    assert Present([None]) == Present([None][1..]) == [];
    assert NodesLeft(Done("\n"), t.end, [None]) == [];
    assert NodeLeft(item, 0, toks) == Block(t, [], t.end + 1);
    assert NodesLeft(Done(""), |PrintItem(item)|, []) == [];
  }

  /** A section whose tags stand on lines of their own around a line break loses it. */
  lemma SectionLosesLineBreak(name: string)
    requires PlainName(name)
    ensures var b := Lone(name);
      var t := TagToken("#", name, 0);
      && Printable(b) && Print(b) == "{{#" + name + "}}" + "\n" + "{{/" + name + "}}"
      && Parse(DEFAULT_TAGS, Print(b)) == Ok([Block(t, [], t.end + 1)])
      && NodesOf(b, 0) == [Block(t, [Leaf(Token(Text, "\n", t.end, t.end + 1))], t.end + 1)]
  {
    hide Parse, CleanLines, PlainName, MarkKind, RawOf, NodesLeft;
    var t := TagToken("#", name, 0);
    PrinterKinds("#");
    PrinterKinds("/");
    LonePrinted(name);
    PrintParse(Lone(name));
    LoneTokens(name);
    LoneCleaned(t, Token(Text, "\n", t.end, t.end + 1), TagToken("/", name, t.end + 1));
    LoneLeft(name);
  }

  lemma LonePrinted(name: string)
    requires PlainName(name)
    ensures var b := Lone(name);
      var t := TagToken("#", name, 0);
      && Printable(b) && Print(b) == "{{#" + name + "}}" + "\n" + "{{/" + name + "}}"
      && NodesOf(b, 0) == [Block(t, [Leaf(Token(Text, "\n", t.end, t.end + 1))], t.end + 1)]
  {
    hide PlainName, MarkKind;
    var item := Group(false, name, Done("\n"));
    var t := TagToken("#", name, 0);
    assert "{{" + "#" + name + "}}" == "{{#" + name + "}}" && "{{" + "/" + name + "}}" == "{{/" + name + "}}";
    assert PrintItem(item) == "{{#" + name + "}}" + "\n" + "{{/" + name + "}}";
    assert "" + PrintItem(item) + "" == PrintItem(item);
    SafeEmpty();
    assert SafeText("\n");
    assert NodesOf(Done("\n"), t.end) == [Leaf(Token(Text, "\n", t.end, t.end + 1))];
    assert NodeOf(item, 0) == Block(t, NodesOf(Done("\n"), t.end), t.end + 1);
    assert NodesOf(Done(""), |PrintItem(item)|) == [];
    assert [] + [NodeOf(item, 0)] + [] == [NodeOf(item, 0)];
  }
}
