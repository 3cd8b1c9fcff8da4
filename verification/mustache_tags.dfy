/**
 How single tags are read (ncm_visualizer/js/mustache.js:419-472): each kind in its written form, and white
 space inside a tag.
 */
module MustacheTags {
  import opened Words
  import opened MustacheScanner
  import opened MustacheParser
  import opened MustacheTokens
  import opened MustacheReading
  import opened MustacheRoundTrip
  import opened MustachePrinting
  import opened MustacheUnchanged
  import opened MustacheRender

  // ----- one tag is the whole template -----

  lemma SingleTag(style: Style, n: string)
    requires PlainName(n)
    ensures Parse(DEFAULT_TAGS, TagText(StyleMark(style), n)) == Ok([Leaf(TagToken(StyleMark(style), n, 0))])
  {
    hide Parse, PlainName, MarkKind, TagText;
    var b := Then("", Single(style, n), Done(""));
    SafeEmpty();
    OneLineComesBack(b);
    assert "" + TagText(StyleMark(style), n) + "" == TagText(StyleMark(style), n);
    assert [] + [Leaf(TagToken(StyleMark(style), n, 0))] + [] == [Leaf(TagToken(StyleMark(style), n, 0))];
  }

  lemma RenderLeafAlone(h: Host, template: string, t: Token, ctx: Context)
    ensures Render(h, template, [Leaf(t)], ctx) == RenderLeaf(h, t, ctx)
  {
    hide RenderLeaf;
    assert [Leaf(t)][1..] == [];
    ConcatEmpty(RenderLeaf(h, t, ctx));
  }

  /** A tag that parses to one token, and what it shows. */
  ghost predicate ReadsAs(h: Host, template: string, kind: Kind, n: string, ctx: Context, shown: string) {
    var nodes := [Leaf(Token(kind, n, 0, |template|))];
    Parse(DEFAULT_TAGS, template) == Ok(nodes) && Render(h, template, nodes, ctx) == Some(shown)
  }

  /**
   Every tag that stands alone, by how it is written: two braces show the value escaped; three braces, or an
   ampersand, show it as it is; a comment and a partial show nothing.  Null shows nothing.
   */
  lemma TagsShow(h: Host, n: string, ctx: Context, v: Value)
    requires PlainName(n) && Resolve(h, ctx, n) == Some(v)
    ensures var text := if v == Null then "" else h.shown(v);
      && ReadsAs(h, "{{" + n + "}}", Name, n, ctx, EscapeHtml(text))
      && ReadsAs(h, "{{{" + n + "}}}", Unescaped, n, ctx, text)
      && ReadsAs(h, "{{&" + n + "}}", Unescaped, n, ctx, text)
      && ReadsAs(h, "{{!" + n + "}}", Comment, n, ctx, "")
      && ReadsAs(h, "{{>" + n + "}}", Partial, n, ctx, "")
  {
    hide Parse, PlainName, Resolve, Render, TagText, ReadsAs, EscapeHtml;
    TagTexts(n);
    NothingEscaped();
    StyleShows(h, Escaped, n, ctx, v);
    StyleShows(h, Braces, n, ctx, v);
    StyleShows(h, Ampersand, n, ctx, v);
    StyleShows(h, Remark, n, ctx, v);
    StyleShows(h, Include, n, ctx, v);
  }

  lemma NothingEscaped()
    ensures EscapeHtml("") == ""
  {
  }

  lemma StyleShows(h: Host, style: Style, n: string, ctx: Context, v: Value)
    requires PlainName(n) && Resolve(h, ctx, n) == Some(v)
    ensures var text := if v == Null then "" else h.shown(v);
      var shown := match style
                   case Escaped => EscapeHtml(text)
                   case Braces => text
                   case Ampersand => text
                   case Remark => ""
                   case Include => "";
      ReadsAs(h, TagText(StyleMark(style), n), MarkKind(StyleMark(style)), n, ctx, shown)
  {
    hide Parse, PlainName, Resolve, Render, TagText, EscapeHtml;
    SingleTag(style, n);
    RenderLeafAlone(h, TagText(StyleMark(style), n), TagToken(StyleMark(style), n, 0), ctx);
    NothingEscaped();
  }

  lemma TagTexts(n: string)
    ensures TagText("", n) == "{{" + n + "}}" && TagText("{", n) == "{{{" + n + "}}}"
    ensures TagText("&", n) == "{{&" + n + "}}" && TagText("!", n) == "{{!" + n + "}}"
    ensures TagText(">", n) == "{{>" + n + "}}"
  {
  }

  // ----- from one turn of the loop to the tree -----

  /** A tag that stands at the front and leaves the sections as they are is the next token. */
  lemma TurnReads(tags: Tags, s: string, k: string, pos: nat, st: Lines, t: Token, tags1: Tags)
    requires st.Valid() && s != "" && NextTurn(tags, s + k, pos) == Found(0, t, tags1) && t.end == pos + |s|
    requires t.kind !in {Section, Inverted, Close}
    ensures ParseFrom(tags, s + k, pos, st, []) == ParseFrom(tags1, k, t.end, AddTag(st, t), [])
  {
    hide NextTurn, AddTag, AddText;
    ParseTurn(tags, s + k, pos, st, []);
    assert (s + k)[..0] == "" && (s + k)[|s|..] == k;
    NoText(st, pos);
  }

  /** Neither text nor a section tag. */
  predicate StandsAlone(kind: Kind) {
    kind != Text && kind != Section && kind != Inverted && kind != Close
  }

  /** Tokens that are neither text nor section tags are the leaves of the tree. */
  lemma {:induction false} LeavesOnly(ts: seq<Token>, collected: seq<Node>)
    requires forall k :: 0 <= k < |ts| ==> StandsAlone(ts[k].kind)
    ensures NestFrom(ts, [], collected) == Some(collected + Leaves(ts))
  {
    if ts == [] {
      assert collected + Leaves(ts) == collected;
    } else {
      LeavesOnly(ts[1..], collected + [Leaf(ts[0])]);
      assert collected + [Leaf(ts[0])] + Leaves(ts[1..]) == collected + Leaves(ts);
    }
  }

  function Leaves(ts: seq<Token>): (r: seq<Node>)
    ensures |r| == |ts| && forall k :: 0 <= k < |ts| ==> r[k] == Leaf(ts[k])
  {
    seq(|ts|, k requires 0 <= k < |ts| => Leaf(ts[k]))
  }

  lemma {:induction false} NoTextSquashed(done: seq<Token>, ts: seq<Token>)
    requires forall k :: 0 <= k < |ts| ==> ts[k].kind != Text
    ensures SquashFrom(done, Kept(ts)) == done + ts
    decreases ts
  {
    if ts == [] {
      assert done + ts == done;
    } else {
      assert Kept(ts)[0] == Some(ts[0]) && Kept(ts)[1..] == Kept(ts[1..]);
      assert Join(done, ts[0]) == done + [ts[0]];
      NoTextSquashed(done + [ts[0]], ts[1..]);
      assert done + [ts[0]] + ts[1..] == done + ts;
    }
  }

  lemma TagsAlone(tags: Tags, template: string, ts: seq<Token>)
    requires ParseFrom(tags, template, 0, NO_LINES, []) == Ok(Kept(ts))
    requires forall k :: 0 <= k < |ts| ==> StandsAlone(ts[k].kind)
    ensures Parse(tags, template) == Ok(Leaves(ts))
  {
    hide ParseFrom, SquashFrom, NestFrom, Kept, Leaves;
    NoTextSquashed([], ts);
    LeavesOnly(ts, []);
    assert [] + ts == ts && [] + Leaves(ts) == Leaves(ts);
  }

  lemma OneTagParses(tags: Tags, s: string, t: Token, tags1: Tags)
    requires s != "" && NextTurn(tags, s, 0) == Found(0, t, tags1) && t.end == |s|
    requires StandsAlone(t.kind)
    ensures Parse(tags, s) == Ok([Leaf(t)])
  {
    hide NextTurn, Parse, ParseFrom;
    assert s + "" == s;
    TurnReads(tags, s, "", 0, NO_LINES, t, tags1);
    NothingLeft(tags1, t.end, AddTag(NO_LINES, t), []);
    assert AddTag(NO_LINES, t).tokens == Kept([t]);
    TagsAlone(tags, s, [t]);
    assert Leaves([t]) == [Leaf(t)];
  }

  // ----- white space inside a tag -----

  lemma PaddedOpening(w: string, k: string)
    requires Blank(w) && k != "" && !IsSpace(k[0])
    ensures Scanned(TagThenSpace("{{"), "{{" + w + k) == 2 + |w|
  {
    hide Leading, Blank;
    assert "{{" <= "{{" + w + k && ("{{" + w + k)[2..] == w + k;
    LeadingBlank(w, k);
  }

  /** White space of a tag: behind its opening delimiter, behind its mark and in front of its closing delimiter. */
  lemma PaddedTurn(w0: string, mark: string, w1: string, n: string, w2: string, pos: nat)
    requires Blank(w0) && Blank(w1) && Blank(w2) && PrinterMark(mark) && PlainName(n) && (mark == "" ==> w1 == "")
    ensures var s := "{{" + w0 + (mark + w1 + n + w2 + Closer(mark) + "}}");
      NextTurn(DEFAULT_TAGS, s, pos) == Found(0, Token(MarkKind(mark), n, pos, pos + |s|), DEFAULT_TAGS)
  {
    hide ReadTag, Search, Scanned, MarkKind, PlainName, Closer, Blank, SafeText, PrinterMark, IsSpace, NextTurn;
    hide Match, TagTurn;
    var inner := mark + w1 + n + w2 + Closer(mark) + "}}";
    var s := "{{" + w0 + inner;
    InnerSolidAt(mark, w1, n, w2 + Closer(mark) + "}}");
    PaddedWhole(w0, mark, w1, n, w2);
    PaddedOpening(w0, inner);
    PaddedRead(mark, w1, n, w2, "");
    SafeEmpty();
    TextEndsAtTag("", s);
    PrinterKinds(mark);
    TurnToTag(DEFAULT_TAGS, s, inner, 2 + |w0|, pos);
    TagRead(DEFAULT_TAGS, inner, 2 + |w0|, pos, ReadTag(DEFAULT_TAGS, inner).value);
  }

  lemma PaddedWhole(w0: string, mark: string, w1: string, n: string, w2: string)
    ensures var inner := mark + w1 + n + w2 + Closer(mark) + "}}";
      var s := "{{" + w0 + inner;
      && inner == mark + w1 + n + (w2 + Closer(mark) + "}}") && inner + "" == inner
      && "" + s == s && s[0..] == s && "{{" <= s && s[2 + |w0|..] == inner
  {
  }

  lemma InnerSolidAt(mark: string, w: string, n: string, k: string)
    requires PrinterMark(mark) && PlainName(n) && (mark == "" ==> w == "")
    ensures var s := mark + w + n + k; s != "" && !IsSpace(s[0])
  {
    hide IsSpace;
    MarksSolid();
    assert (mark + w + n + k)[0] == if mark == "" then n[0] else mark[0];
  }

  /** Tags that stand alone are the same with white space in them: only their end is further on. */
  lemma PaddedTag(style: Style, w0: string, w1: string, n: string, w2: string)
    requires Blank(w0) && Blank(w1) && Blank(w2) && PlainName(n) && (style.Escaped? ==> w1 == "")
    ensures var mark := StyleMark(style);
      var s := "{{" + w0 + (mark + w1 + n + w2 + Closer(mark) + "}}");
      Parse(DEFAULT_TAGS, s) == Ok([Leaf(Token(MarkKind(mark), n, 0, |s|))])
  {
    hide Parse, NextTurn, MarkKind, PlainName, Blank;
    var mark := StyleMark(style);
    var s := "{{" + w0 + (mark + w1 + n + w2 + Closer(mark) + "}}");
    PaddedTurn(w0, mark, w1, n, w2, 0);
    SingleKinds(style);
    OneTagParses(DEFAULT_TAGS, s, Token(MarkKind(mark), n, 0, |s|), DEFAULT_TAGS);
  }
}
