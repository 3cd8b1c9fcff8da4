/** What a template means: printing, parsing and rendering compose to evaluating the tree. */
module MustacheMeaning {
  import opened Words
  import opened MustacheScanner
  import opened MustacheParser
  import opened MustacheTokens
  import opened MustacheSquashing
  import opened MustacheLines
  import opened MustacheReading
  import opened MustacheRoundTrip
  import opened MustachePrinting
  import opened MustacheUnchanged
  import opened MustacheRender

  // ----- the meaning of a template, without tokens, positions or parsing -----

  /** What a template shows: texts, fields, areas, which know how their inside is written, and silent tags. */
  datatype Template = Ended(text: string) | Followed(text: string, piece: Piece, rest: Template)
  datatype Piece =
    | Field(escaped: bool, name: string)
    | Area(inverted: bool, name: string, source: string, inside: Template)
    | Silent

  /** The contexts in which the inside of a section is shown, one for each time; functions are apart. */
  function Rounds(v: Value, ctx: Context): seq<Context> {
    match v
    case List(items) => seq(|items|, k requires 0 <= k < |items| => Context(items[k], Some(ctx)))
    case Obj(_) => [Context(v, Some(ctx))]
    case _ => if Truthy(v) then [ctx] else []
  }

  function Meaning(h: Host, t: Template, ctx: Context): Option<string>
    decreases t, 0
  {
    match t
    case Ended(text) => Some(text)
    case Followed(text, piece, rest) =>
      var shown, more := PieceMeaning(h, piece, ctx), Meaning(h, rest, ctx);
      if shown.Some? && more.Some? then Some(text + shown.value + more.value) else None
  }

  function PieceMeaning(h: Host, piece: Piece, ctx: Context): Option<string>
    decreases piece, 0
  {
    match piece
    case Silent => Some("")
    case Field(escaped, name) =>
      var v := Resolve(h, ctx, name);
      if v.None? then None
      else
        var shown := Shown(h, v.value);
        Some(if escaped then EscapeHtml(shown) else shown)
    case Area(inverted, name, source, inside) =>
      var v := Resolve(h, ctx, name);
      if v.None? then None
      else
        var rounds := Rounds(v.value, ctx);
        if inverted then (if rounds == [] then Meaning(h, inside, ctx) else Some(""))
        else if v.value.Fn? then Some(Shown(h, h.section(v.value, ctx, source)))
        else MeaningInAll(h, inside, rounds)
  }

  function MeaningInAll(h: Host, t: Template, contexts: seq<Context>): Option<string>
    decreases t, |contexts| + 1
  {
    if contexts == [] then Some("")
    else
      var first, more := Meaning(h, t, contexts[0]), MeaningInAll(h, t, contexts[1..]);
      if first.Some? && more.Some? then Some(first.value + more.value) else None
  }

  /** The template that a tree prints as. */
  function Whole(b: Body): Template {
    match b
    case Done(text) => Ended(text)
    case Then(text, item, rest) => Followed(text, WholePiece(item), Whole(rest))
  }

  function WholePiece(item: Item): Piece {
    match item
    case Single(style, name) => ShownAs(style, name)
    case Group(inverted, name, body) => Area(inverted, name, Print(body), Whole(body))
  }

  /** Values are escaped, or with three braces or an ampersand not; comments and partials show nothing. */
  function ShownAs(style: Style, name: string): Piece {
    match style
    case Escaped => Field(true, name)
    case Braces => Field(false, name)
    case Ampersand => Field(false, name)
    case Remark => Silent
    case Include => Silent
  }

  /** The same with what is left of its texts; functions still get the inside as it is written. */
  function Left(b: Body, toks: seq<Option<Token>>): Template
    requires |toks| == RawSize(b)
    decreases b
  {
    match b
    case Done(_) => Ended(Letters(Present(toks)))
    case Then(text, item, rest) =>
      var n, m := |text|, |text| + ItemSize(item);
      Followed(Letters(Present(toks[..n])), LeftPiece(item, toks[n..m]), Left(rest, toks[m..]))
  }

  function LeftPiece(item: Item, toks: seq<Option<Token>>): Piece
    requires |toks| == ItemSize(item)
    decreases item
  {
    match item
    case Single(style, name) => ShownAs(style, name)
    case Group(inverted, name, body) => Area(inverted, name, Print(body), Left(body, toks[1..|toks| - 1]))
  }

  /** Where no token is deleted it is the whole template. */
  lemma {:induction false} WholeLeft(b: Body, pos: nat)
    ensures Left(b, Kept(RawOf(b, pos))) == Whole(b)
    decreases b
  {
    hide Kept, RawText, RawItem, PrintItem, Letters, Present, OnlyBlanksDeleted, LeftPiece, WholePiece;
    match b {
      case Done(text) =>
        TextWhole(text, pos);
      case Then(text, item, rest) =>
        var p1 := pos + |text|;
        var p2 := p1 + |PrintItem(item)|;
        var x, y, z := RawText(text, pos), RawItem(item, p1), RawOf(rest, p2);
        SameTokens(Kept(RawOf(b, pos)), x, y, z);
        LeftOfParts(b, Kept(RawOf(b, pos)), Kept(x), Kept(y), Kept(z));
        hide Left;
        TextWhole(text, pos);
        PieceLeft(item, p1);
        WholeLeft(rest, p2);
    }
  }

  lemma LeftOfParts(b: Body, toks: seq<Option<Token>>, x: seq<Option<Token>>, y: seq<Option<Token>>,
                    z: seq<Option<Token>>)
    requires b.Then? && |toks| == RawSize(b) && |x| == |b.text| && |y| == ItemSize(b.item)
    requires x == toks[..|x|] && y == toks[|x|..|x| + |y|] && z == toks[|x| + |y|..]
    ensures Left(b, toks) == Followed(Letters(Present(x)), LeftPiece(b.item, y), Left(b.rest, z))
  {
    hide Letters, Present, LeftPiece;
  }

  lemma TextWhole(text: string, pos: nat)
    ensures Letters(Present(Kept(RawText(text, pos)))) == text
  {
    hide Kept, RawText, Letters, Present, OnlyBlanksDeleted;
    BlanksSelf(Kept(RawText(text, pos)));
    LettersLeft(text, pos, Kept(RawText(text, pos)));
  }

  lemma {:induction false} PieceLeft(item: Item, pos: nat)
    ensures LeftPiece(item, Kept(RawItem(item, pos))) == WholePiece(item)
    decreases item
  {
    hide Kept, RawItem, Left, Whole;
    if item.Group? {
      InsideKept(item, pos);
      WholeLeft(item.body, TagToken(SectionMark(item.inverted), item.name, pos).end);
    }
  }

  lemma InsideKept(item: Item, pos: nat)
    requires item.Group?
    ensures var t := TagToken(SectionMark(item.inverted), item.name, pos);
      var toks := Kept(RawItem(item, pos));
      toks[1..|toks| - 1] == Kept(RawOf(item.body, t.end))
  {
    hide MarkKind, TagText;
  }

  // ----- rendering computes it -----

  lemma {:induction false} RenderAppend(h: Host, template: string, a: seq<Node>, b: seq<Node>, ctx: Context)
    ensures Render(h, template, a + b, ctx) == Concat(Render(h, template, a, ctx), Render(h, template, b, ctx))
    decreases a
  {
    hide RenderNode;
    if a == [] {
      assert a + b == b;
      ConcatEmpty(Render(h, template, b, ctx));
    } else {
      assert (a + b)[1..] == a[1..] + b;
      RenderAppend(h, template, a[1..], b, ctx);
      Associative(RenderNode(h, template, a[0], ctx), Render(h, template, a[1..], ctx), Render(h, template, b, ctx));
    }
  }

  lemma Associative(a: Option<string>, b: Option<string>, c: Option<string>)
    ensures Concat(a, Concat(b, c)) == Concat(Concat(a, b), c)
  {
    if a.Some? && b.Some? && c.Some? {
      assert a.value + (b.value + c.value) == a.value + b.value + c.value;
    }
  }

  lemma InOrder(text: string, a: Option<string>, b: Option<string>)
    ensures Concat(Some(text), Concat(a, b)) ==
            if a.Some? && b.Some? then Some(text + a.value + b.value) else None
  {
    if a.Some? && b.Some? {
      assert text + (a.value + b.value) == text + a.value + b.value;
    }
  }

  lemma RenderOne(h: Host, template: string, node: Node, ctx: Context)
    ensures Render(h, template, [node], ctx) == RenderNode(h, template, node, ctx)
  {
    hide RenderNode;
    assert [node][1..] == [];
    ConcatEmpty(RenderNode(h, template, node, ctx));
  }

  lemma RenderText(h: Host, template: string, toks: seq<Option<Token>>, ctx: Context)
    ensures Render(h, template, TextLeft(toks), ctx) == Some(Letters(Present(toks)))
  {
    if Present(toks) != [] {
      RenderOne(h, template, Leaf(OneText(Present(toks))), ctx);
    }
  }

  /** `s` stands in the template at `pos`. */
  predicate At(template: string, pos: nat, s: string) {
    pos + |s| <= |template| && template[pos..pos + |s|] == s
  }

  lemma AtParts(template: string, pos: nat, a: string, b: string, c: string)
    requires At(template, pos, a + b + c)
    ensures At(template, pos + |a|, b) && At(template, pos + |a| + |b|, c)
  {
    var s := a + b + c;
    assert s[|a|..|a| + |b|] == b && s[|a| + |b|..|s|] == c;
    SliceOfSlice(template, pos, pos + |s|, |a|, |a| + |b|);
    SliceOfSlice(template, pos, pos + |s|, |a| + |b|, |s|);
  }

  lemma SliceOfSlice(s: string, from: nat, to: nat, i: nat, j: nat)
    requires i <= j <= to - from && from <= to <= |s|
    ensures s[from..to][i..j] == s[from + i..from + j]
  {
    var a, b := s[from..to][i..j], s[from + i..from + j];
    assert |a| == |b|;
    forall k | 0 <= k < |a|
      ensures a[k] == b[k]
    {
    }
  }

  lemma {:induction false} RenderIsMeaning(h: Host, template: string, b: Body, pos: nat, toks: seq<Option<Token>>,
                                           ctx: Context)
    requires |toks| == RawSize(b) && At(template, pos, Print(b))
    ensures Render(h, template, NodesLeft(b, pos, toks), ctx) == Meaning(h, Left(b, toks), ctx)
    decreases b, 0
  {
    hide Render, PieceMeaning, NodeLeft, LeftPiece, PrintItem, TextLeft, Letters, Present, At;
    match b {
      case Done(text) =>
        RenderText(h, template, toks, ctx);
      case Then(text, item, rest) =>
        var n, m := |text|, |text| + ItemSize(item);
        var p1 := pos + n;
        var p2 := p1 + |PrintItem(item)|;
        var x, y, z := toks[..n], toks[n..m], toks[m..];
        AtParts(template, pos, text, PrintItem(item), Print(rest));
        RenderAppend(h, template, TextLeft(x) + [NodeLeft(item, p1, y)], NodesLeft(rest, p2, z), ctx);
        RenderAppend(h, template, TextLeft(x), [NodeLeft(item, p1, y)], ctx);
        RenderText(h, template, x, ctx);
        RenderOne(h, template, NodeLeft(item, p1, y), ctx);
        ItemIsMeaning(h, template, item, p1, y, ctx);
        RenderIsMeaning(h, template, rest, p2, z, ctx);
        Associative(Some(Letters(Present(x))), PieceMeaning(h, LeftPiece(item, y), ctx),
                    Meaning(h, Left(rest, z), ctx));
        InOrder(Letters(Present(x)), PieceMeaning(h, LeftPiece(item, y), ctx), Meaning(h, Left(rest, z), ctx));
    }
  }

  lemma {:induction false} ItemIsMeaning(h: Host, template: string, item: Item, pos: nat, toks: seq<Option<Token>>,
                                         ctx: Context)
    requires |toks| == ItemSize(item) && At(template, pos, PrintItem(item))
    ensures RenderNode(h, template, NodeLeft(item, pos, toks), ctx) == PieceMeaning(h, LeftPiece(item, toks), ctx)
    decreases item, 0
  {
    hide Render, NodesLeft, Left, Meaning, Resolve, EscapeHtml, At, RawInside, MeaningInAll, RenderEach;
    match item {
      case Single(style, name) =>
        NothingEscaped();
      case Group(inverted, name, body) =>
        SectionKinds(inverted);
        var t := TagToken(SectionMark(inverted), name, pos);
        var inside := toks[1..|toks| - 1];
        AtParts(template, pos, TagText(SectionMark(inverted), name), Print(body), TagText("/", name));
        var found := Resolve(h, ctx, name);
        if found.Some? {
          var v := found.value;
          if inverted {
            RenderIsMeaning(h, template, body, t.end, inside, ctx);
            assert Rounds(v, ctx) == [] <==> (!Truthy(v) || v == List([]));
          } else if v.Fn? {
            InsideIs(template, NodeLeft(item, pos, toks), Print(body));
          } else if v.List? {
            EachIsMeaning(h, template, body, t.end, inside, v.items, ctx);
          } else {
            var inner := if v.Obj? then Context(v, Some(ctx)) else ctx;
            RenderIsMeaning(h, template, body, t.end, inside, inner);
            OneRound(h, Left(body, inside), inner);
          }
        }
    }
  }

  lemma NothingEscaped()
    ensures EscapeHtml("") == ""
  {
  }

  lemma InsideIs(template: string, node: Node, s: string)
    requires node.Block? && node.closeStart == node.token.end + |s| && At(template, node.token.end, s)
    ensures RawInside(template, node) == s
  {
  }

  lemma OneRound(h: Host, t: Template, ctx: Context)
    ensures MeaningInAll(h, t, [ctx]) == Meaning(h, t, ctx)
    ensures MeaningInAll(h, t, []) == Some("")
  {
    hide Meaning;
    assert [ctx][1..] == [];
    ConcatEmpty(Meaning(h, t, ctx));
    assert MeaningInAll(h, t, []) == Some("");
  }

  lemma {:induction false} EachIsMeaning(h: Host, template: string, body: Body, pos: nat, toks: seq<Option<Token>>,
                                         items: seq<Value>, ctx: Context)
    requires |toks| == RawSize(body) && At(template, pos, Print(body))
    ensures RenderEach(h, template, NodesLeft(body, pos, toks), items, ctx) ==
            MeaningInAll(h, Left(body, toks), Rounds(List(items), ctx))
    decreases body, |items| + 1
  {
    hide Render, NodesLeft, Left, Meaning, At;
    if items != [] {
      var inner := Context(items[0], Some(ctx));
      RenderIsMeaning(h, template, body, pos, toks, inner);
      EachIsMeaning(h, template, body, pos, toks, items[1..], ctx);
      assert Rounds(List(items), ctx)[0] == inner;
      assert Rounds(List(items), ctx)[1..] == Rounds(List(items[1..]), ctx);
    }
  }

  /**
   Printing any template tree, parsing the text and rendering the result is evaluating the tree with what the
   cleaning of its lines leaves of its texts; functions in the view get exactly the printed inside of their
   section.  Where no line is cleaned it is evaluating the tree itself.
   */
  lemma RenderPrinted(h: Host, t: Tree, ctx: Context)
    requires PrintableTree(t)
    ensures var template, b := PrintTree(t), Merged(t);
      var tree := Parse(DEFAULT_TAGS, template);
      && tree.Ok?
      && Render(h, template, tree.value, ctx) == Meaning(h, Left(b, CleanLines(RawOf(b, 0))), ctx)
      && (Undisturbed(RawOf(b, 0)) ==> Render(h, template, tree.value, ctx) == Meaning(h, Whole(b), ctx))
  {
    hide Parse, Render, Meaning, NodesLeft, NodesOf, Merged, PrintableTree, PrintTree, Left, Whole, RawOf, CleanLines;
    hide Undisturbed;
    var b := Merged(t);
    PrintParseTree(t);
    MergedPrints(t);
    assert PrintTree(t)[0..0 + |PrintTree(t)|] == PrintTree(t);
    RenderIsMeaning(h, PrintTree(t), b, 0, CleanLines(RawOf(b, 0)), ctx);
    if Undisturbed(RawOf(b, 0)) {
      UndisturbedExactly(RawOf(b, 0));
      WholeLeft(b, 0);
    }
  }

  // ----- templates without tags -----

  predicate NoTag(tags: Tags, template: string) {
    forall k :: 0 <= k <= |template| ==> !(tags.open <= template[k..])
  }

  lemma PlainTurn(tags: Tags, template: string)
    requires NoTag(tags, template)
    ensures NextTurn(tags, template, 0) == Finish(|template|)
  {
    hide Search, TagTurn;
    forall k | 0 <= k < |template|
      ensures Match(TagThenSpace(tags.open), template[k..]) == None
    {
    }
    SearchIs(TagThenSpace(tags.open), template, |template|);
    assert Match(TagThenSpace(tags.open), template[|template|..]) == None;
  }

  lemma PlainParse(tags: Tags, template: string)
    requires NoTag(tags, template)
    ensures ParseFrom(tags, template, 0, NO_LINES, []) == Ok(Kept(RawText(template, 0)))
  {
    hide NextTurn, NoTag, AddText, CleanLines, Kept, RawText, Undisturbed, Represents;
    var raw, st := RawText(template, 0), AddText(NO_LINES, template, 0);
    PlainTurn(tags, template);
    assert template[..|template|] == template;
    NothingRead(template);
    NothingRepresented();
    var done, line := TextLines(NO_LINES, [], [], template, 0, []);
    RepresentsKept(st, done, line);
    assert [] + (raw + []) == raw && [] + CleanLines(raw) == CleanLines(raw);
    NoTagsUndisturbed(raw);
    UndisturbedExactly(raw);
  }

  lemma NothingRead(template: string)
    ensures template == "" ==> AddText(NO_LINES, template, 0) == NO_LINES
  {
  }

  /** A template without an opening delimiter renders to itself, whatever the view. */
  lemma PlainTemplate(h: Host, tags: Tags, template: string, ctx: Context)
    requires NoTag(tags, template)
    ensures Parse(tags, template) == Ok(TextNodes(template, 0))
    ensures Render(h, template, Parse(tags, template).value, ctx) == Some(template)
  {
    hide ParseFrom, SquashFrom, NestFrom, NoTag, Render, Kept, RawText, OnlyBlanksDeleted;
    hide TextLeft, TextNodes, Letters;
    var toks := Kept(RawText(template, 0));
    PlainParse(tags, template);
    BlanksSelf(toks);
    NestText(template, 0, toks, [], [], []);
    assert SquashFrom([], toks) + [] == SquashFrom([], toks) && [] + TextLeft(toks) == TextLeft(toks);
    NestNothing(TextLeft(toks));
    TextComesBack(template, 0, toks);
    LettersLeft(template, 0, toks);
    RenderText(h, template, toks, ctx);
  }
}
