/** Printing a template tree and parsing it again. */
module MustacheRoundTrip {
  import opened Words
  import opened MustacheScanner
  import opened MustacheParser
  import opened MustacheTokens
  import opened MustacheReading

  /** A template tree with adjacent text merged: text and items alternate, the text may be empty. */
  datatype Body = Done(text: string) | Then(text: string, item: Item, rest: Body)
  datatype Item = Single(style: Style, name: string) | Group(inverted: bool, name: string, body: Body)

  /** Tags that stand alone: a value, escaped or not, in two spellings; a comment; a partial. */
  datatype Style = Escaped | Braces | Ampersand | Remark | Include

  function SectionMark(inverted: bool): string {
    if inverted then "^" else "#"
  }

  function StyleMark(style: Style): string {
    match style
    case Escaped => ""
    case Braces => "{"
    case Ampersand => "&"
    case Remark => "!"
    case Include => ">"
  }

  function TagText(mark: string, name: string): string {
    "{{" + mark + name + Closer(mark) + "}}"
  }

  function Print(b: Body): string {
    match b
    case Done(text) => text
    case Then(text, item, rest) => text + PrintItem(item) + Print(rest)
  }

  function PrintItem(item: Item): string {
    match item
    case Single(style, name) => TagText(StyleMark(style), name)
    case Group(inverted, name, body) => TagText(SectionMark(inverted), name) + Print(body) + TagText("/", name)
  }

  /** Text that cannot be mistaken for the start of a tag; it may have line breaks. */
  predicate SafeText(t: string) {
    && (forall k :: 0 <= k < |t| - 1 ==> !(t[k] == '{' && t[k + 1] == '{'))
    && (t != "" ==> t[|t| - 1] != '{')
  }

  predicate Printable(b: Body) {
    match b
    case Done(text) => SafeText(text)
    case Then(text, Single(_, name), rest) => SafeText(text) && PlainName(name) && Printable(rest)
    case Then(text, Group(_, name, body), rest) =>
      SafeText(text) && PlainName(name) && Printable(body) && Printable(rest)
  }

  // ----- what the parser should make of it -----

  function TagToken(mark: string, name: string, pos: nat): Token {
    Token(MarkKind(mark), name, pos, pos + |TagText(mark, name)|)
  }

  function TextNodes(t: string, pos: nat): seq<Node> {
    if t == "" then [] else [Leaf(Token(Text, t, pos, pos + |t|))]
  }

  /** The tree with its positions in the printed text. */
  function NodesOf(b: Body, pos: nat): seq<Node> {
    match b
    case Done(text) => TextNodes(text, pos)
    case Then(text, item, rest) =>
      TextNodes(text, pos) + [NodeOf(item, pos + |text|)] + NodesOf(rest, pos + |text| + |PrintItem(item)|)
  }

  function NodeOf(item: Item, pos: nat): Node {
    match item
    case Single(style, name) => Leaf(TagToken(StyleMark(style), name, pos))
    case Group(inverted, name, body) =>
      var t := TagToken(SectionMark(inverted), name, pos);
      Block(t, NodesOf(body, t.end), t.end + |Print(body)|)
  }

  /** The state of the line after the parser has read the printed text. */
  function AfterBody(st: Lines, b: Body, pos: nat): (r: Lines)
    requires st.Valid()
    ensures r.Valid()
    decreases b
  {
    match b
    case Done(text) => AddText(st, text, pos)
    case Then(text, item, rest) =>
      AfterBody(AfterItem(AddText(st, text, pos), item, pos + |text|), rest, pos + |text| + |PrintItem(item)|)
  }

  function AfterItem(st: Lines, item: Item, pos: nat): (r: Lines)
    requires st.Valid()
    ensures r.Valid()
    decreases item
  {
    match item
    case Single(style, name) => AddTag(st, TagToken(StyleMark(style), name, pos))
    case Group(inverted, name, body) =>
      var t := TagToken(SectionMark(inverted), name, pos);
      AddTag(AfterBody(AddTag(st, t), body, t.end), TagToken("/", name, t.end + |Print(body)|))
  }

  // ----- scanning -----

  /** What may follow a text: nothing, or a tag. */
  predicate TagNext(k: string) {
    k == "" || "{{" <= k
  }

  lemma NoOpening(s: string, t: string)
    requires t != "" && t <= s && !(t[0] == '{' && (|t| == 1 || t[1] == '{'))
    ensures !("{{" <= s)
  {
    assert "{{"[0] == '{' && "{{"[1] == '{';
  }

  lemma TextEndsAtTag(t: string, k: string)
    requires SafeText(t) && TagNext(k)
    ensures Search(TagThenSpace("{{"), t + k) == |t|
  {
    var s := t + k;
    forall i | 0 <= i < |t|
      ensures Match(TagThenSpace("{{"), s[i..]) == None
    {
      NoOpening(s[i..], t[i..]);
    }
    assert s[|t|..] == k;
    SearchIs(TagThenSpace("{{"), s, |t|);
  }

  /** Text in front of a tag, or at the end, goes into the line first. */
  lemma TextFirst(t: string, k: string, pos: nat, st: Lines, open: seq<Token>)
    requires st.Valid() && SafeText(t) && TagNext(k)
    ensures ParseFrom(DEFAULT_TAGS, t + k, pos, st, open) ==
            ParseFrom(DEFAULT_TAGS, k, pos + |t|, AddText(st, t, pos), open)
  {
    hide ParseFrom, NextTurn, AddText, SafeText, Nesting, AddTag, AtEnd, TagNext;
    NoText(st, pos);
    if t == "" {
      assert t + k == k;
    } else {
      SameTurn(t, k, pos);
      TurnHere(t, k, pos);
      assert (t + k)[..|t|] == t && k[..0] == "";
      ParseTurn(DEFAULT_TAGS, t + k, pos, st, open);
      if k == "" {
        NothingLeft(DEFAULT_TAGS, pos + |t|, AddText(st, t, pos), open);
      } else {
        NoText(AddText(st, t, pos), pos + |t|);
        ParseTurn(DEFAULT_TAGS, k, pos + |t|, AddText(st, t, pos), open);
      }
    }
  }

  /** Where the rest of the template starts does not depend on the text in front. */
  lemma TurnHere(t: string, k: string, pos: nat)
    ensures var turn := NextTurn(DEFAULT_TAGS, k, pos + |t|);
      turn.Found? ==> |t| <= turn.token.end - pos <= |t + k| &&
                      (t + k)[turn.token.end - pos..] == k[turn.token.end - (pos + |t|)..]
    ensures k == "" ==> NextTurn(DEFAULT_TAGS, k, pos + |t|) == Finish(0)
  {
    hide ReadTag, NewTags, Leading;
    var turn := NextTurn(DEFAULT_TAGS, k, pos + |t|);
    if turn.Found? {
      DropBoth(t, k, turn.token.end - (pos + |t|));
    }
  }

  lemma DropBoth(t: string, k: string, n: nat)
    requires n <= |k|
    ensures (t + k)[|t| + n..] == k[n..]
  {
  }

  /** The turn of the loop that starts at the text is the one that starts at the tag behind it. */
  lemma SameTurn(t: string, k: string, pos: nat)
    requires SafeText(t) && TagNext(k)
    ensures var a, b := NextTurn(DEFAULT_TAGS, t + k, pos), NextTurn(DEFAULT_TAGS, k, pos + |t|);
      match b
      case Finish(n) => n == 0 && a == Finish(|t|)
      case Bad(e) => a == b
      case Found(n, token, tags) => n == 0 && a == Found(|t|, token, tags)
  {
    hide ReadTag, NewTags, Search, Scanned, Match, SafeText, TagNext;
    TextEndsAtTag(t, k);
    TextEndsAtTag("", k);
    assert "" + k == k && k[0..] == k;
    DropBoth(t, k, 0);
    DropBoth(t, k, Scanned(TagThenSpace("{{"), k));
  }

  lemma ReadPlain(mark: string, n: string, k: string)
    requires PrinterMark(mark) && PlainName(n)
    ensures ReadTag(DEFAULT_TAGS, mark + n + Closer(mark) + "}}" + k) ==
            Some(Tag(KindOf(mark), n, |mark| + |n| + |Closer(mark)| + 2))
  {
    hide ReadTag, PlainName, KindOf, MarkKind, PrinterMark, Closer;
    PaddedRead(mark, "", n, "", k);
    PrinterKinds(mark);
    assert mark + "" + n + "" + Closer(mark) + "}}" + k == mark + n + Closer(mark) + "}}" + k;
  }

  lemma OpeningScanned(mark: string, n: string, k: string)
    requires PrinterMark(mark) && PlainName(n)
    ensures Scanned(TagThenSpace("{{"), TagText(mark, n) + k) == 2
  {
    hide IsSpace;
    var s := TagText(mark, n) + k;
    var rest := s[2..];
    assert rest[0] == if mark == "" then n[0] else mark[0];
    MarksSolid();
    NotSpace(rest);
  }

  lemma PrintedTagTurn(mark: string, n: string, k: string, pos: nat)
    requires PrinterMark(mark) && PlainName(n)
    ensures NextTurn(DEFAULT_TAGS, TagText(mark, n) + k, pos) == Found(0, TagToken(mark, n, pos), DEFAULT_TAGS)
  {
    hide ReadTag, Search, Scanned, KindOf, MarkKind, Match, PlainName, PrinterMark, SafeText, TagText;
    var s, inner := TagText(mark, n) + k, mark + n + Closer(mark) + "}}" + k;
    BehindOpening(mark, n, k);
    TextEndsAtTag("", s);
    OpeningScanned(mark, n, k);
    ReadPlain(mark, n, k);
    PrinterKinds(mark);
    SafeEmpty();
    TurnOfTag(s, inner, pos);
  }

  lemma BehindOpening(mark: string, n: string, k: string)
    ensures var s := TagText(mark, n) + k;
      && "{{" <= s && s[2..] == mark + n + Closer(mark) + "}}" + k
      && |TagText(mark, n)| == 2 + |mark| + |n| + |Closer(mark)| + 2
      && "" + s == s && s[0..] == s
  {
  }

  /** A turn at a tag that stands at the front and changes no delimiters. */
  lemma TurnOfTag(s: string, inner: string, pos: nat)
    requires Search(TagThenSpace("{{"), s) == 0 && Scanned(TagThenSpace("{{"), s) == 2
    requires s[0..] == s && s[2..] == inner && ReadTag(DEFAULT_TAGS, inner).Some?
    requires ReadTag(DEFAULT_TAGS, inner).value.kind != SetTags
    ensures var tag := ReadTag(DEFAULT_TAGS, inner).value;
      NextTurn(DEFAULT_TAGS, s, pos) ==
      Found(0, Token(tag.kind, tag.value, pos, pos + 2 + tag.length), DEFAULT_TAGS)
  {
    hide ReadTag, Search, Scanned;
  }

  /** A printed tag is read as that tag. */
  lemma TagReads(mark: string, n: string, k: string, pos: nat, st: Lines, open: seq<Token>)
    requires st.Valid() && PrinterMark(mark) && PlainName(n)
    ensures var t := TagToken(mark, n, pos);
      ParseFrom(DEFAULT_TAGS, TagText(mark, n) + k, pos, st, open) ==
      match Nesting(open, t)
      case Err(e) => Err(e)
      case Ok(open1) => ParseFrom(DEFAULT_TAGS, k, t.end, AddTag(st, t), open1)
  {
    hide NextTurn, Nesting, AddText;
    var s := TagText(mark, n) + k;
    PrintedTagTurn(mark, n, k, pos);
    assert s[..0] == "";
    NoText(st, pos);
    assert s[|TagText(mark, n)|..] == k;
  }

  lemma NoText(st: Lines, pos: nat)
    requires st.Valid()
    ensures AddText(st, "", pos) == st
  {
  }

  lemma PrintedTagNext(item: Item, k: string)
    ensures TagNext(PrintItem(item) + k)
  {
  }

  /** The parser reads a printed body and goes on behind it, with the sections as before. */
  lemma {:induction false} BodyReads(b: Body, k: string, pos: nat, st: Lines, open: seq<Token>)
    requires Printable(b) && TagNext(k) && st.Valid()
    ensures ParseFrom(DEFAULT_TAGS, Print(b) + k, pos, st, open) ==
            ParseFrom(DEFAULT_TAGS, k, pos + |Print(b)|, AfterBody(st, b, pos), open)
    decreases b
  {
    hide ParseFrom, AddText, TagNext, SafeText, PlainName, PrintItem, AfterItem;
    match b {
      case Done(text) =>
        TextFirst(text, k, pos, st, open);
      case Then(text, item, rest) =>
        var tail := Print(rest) + k;
        var st1 := AddText(st, text, pos);
        assert Print(b) + k == text + (PrintItem(item) + tail);
        PrintedTagNext(item, tail);
        TextFirst(text, PrintItem(item) + tail, pos, st, open);
        ItemReads(item, tail, pos + |text|, st1, open);
        BodyReads(rest, k, pos + |text| + |PrintItem(item)|, AfterItem(st1, item, pos + |text|), open);
    }
  }

  lemma {:induction false} ItemReads(item: Item, k: string, pos: nat, st: Lines, open: seq<Token>)
    requires st.Valid()
    requires match item case Single(_, n) => PlainName(n) case Group(_, n, body) => PlainName(n) && Printable(body)
    ensures ParseFrom(DEFAULT_TAGS, PrintItem(item) + k, pos, st, open) ==
            ParseFrom(DEFAULT_TAGS, k, pos + |PrintItem(item)|, AfterItem(st, item, pos), open)
    decreases item
  {
    hide ParseFrom, AddText, AddTag, PlainName, MarkKind, AfterBody, TagText;
    match item {
      case Single(style, n) =>
        SingleReads(style, n, k, pos, st, open);
      case Group(inverted, n, body) =>
        var mark := SectionMark(inverted);
        var t := TagToken(mark, n, pos);
        var close := TagText("/", n) + k;
        Regroup(TagText(mark, n), Print(body), TagText("/", n), k);
        OpeningReads(inverted, n, Print(body) + close, pos, st, open);
        ClosingNext(n, k);
        BodyReads(body, close, t.end, AddTag(st, t), open + [t]);
        ClosingReads(n, k, t.end + |Print(body)|, AfterBody(AddTag(st, t), body, t.end), open, t);
    }
  }

  lemma SingleReads(style: Style, n: string, k: string, pos: nat, st: Lines, open: seq<Token>)
    requires st.Valid() && PlainName(n)
    ensures var t := TagToken(StyleMark(style), n, pos);
      ParseFrom(DEFAULT_TAGS, TagText(StyleMark(style), n) + k, pos, st, open) ==
      ParseFrom(DEFAULT_TAGS, k, t.end, AddTag(st, t), open)
  {
    hide ParseFrom, PlainName, TagText, AddTag;
    TagReads(StyleMark(style), n, k, pos, st, open);
  }

  lemma OpeningReads(inverted: bool, n: string, k: string, pos: nat, st: Lines, open: seq<Token>)
    requires st.Valid() && PlainName(n)
    ensures var t := TagToken(SectionMark(inverted), n, pos);
      ParseFrom(DEFAULT_TAGS, TagText(SectionMark(inverted), n) + k, pos, st, open) ==
      ParseFrom(DEFAULT_TAGS, k, t.end, AddTag(st, t), open + [t])
  {
    hide ParseFrom, PlainName, TagText, AddTag;
    TagReads(SectionMark(inverted), n, k, pos, st, open);
  }

  lemma ClosingReads(n: string, k: string, pos: nat, st: Lines, open: seq<Token>, t: Token)
    requires st.Valid() && PlainName(n) && t.value == n
    ensures var close := TagToken("/", n, pos);
      ParseFrom(DEFAULT_TAGS, TagText("/", n) + k, pos, st, open + [t]) ==
      ParseFrom(DEFAULT_TAGS, k, close.end, AddTag(st, close), open)
  {
    hide ParseFrom, PlainName, TagText, AddTag;
    TagReads("/", n, k, pos, st, open + [t]);
    assert (open + [t])[..|open|] == open;
  }

  lemma Regroup(a: string, b: string, c: string, d: string)
    ensures a + b + c + d == a + (b + (c + d))
  {
  }

  lemma ClosingNext(n: string, k: string)
    ensures TagNext(TagText("/", n) + k)
  {
  }

  // ----- tokens -----

  function RawSize(b: Body): nat {
    match b
    case Done(text) => |text|
    case Then(text, item, rest) => |text| + ItemSize(item) + RawSize(rest)
  }

  function ItemSize(item: Item): nat {
    match item
    case Single(_, _) => 1
    case Group(_, _, body) => RawSize(body) + 2
  }

  /** Raw tokens: one per character of text, one per tag. */
  function RawOf(b: Body, pos: nat): (r: seq<Token>)
    ensures |r| == RawSize(b)
    decreases b
  {
    match b
    case Done(text) => RawText(text, pos)
    case Then(text, item, rest) =>
      RawText(text, pos) + RawItem(item, pos + |text|) + RawOf(rest, pos + |text| + |PrintItem(item)|)
  }

  function RawItem(item: Item, pos: nat): (r: seq<Token>)
    ensures |r| == ItemSize(item)
    decreases item
  {
    match item
    case Single(style, name) => [TagToken(StyleMark(style), name, pos)]
    case Group(inverted, name, body) =>
      var t := TagToken(SectionMark(inverted), name, pos);
      [t] + RawOf(body, t.end) + [TagToken("/", name, t.end + |Print(body)|)]
  }

  // ----- trees with adjacent texts -----

  /** Any template tree: texts may stand side by side. */
  datatype Tree = End | Words(text: string, rest: Tree) | Tagged(part: Part, rest: Tree)
  datatype Part = Alone(style: Style, name: string) | Nested(inverted: bool, name: string, inside: Tree)

  function PrintTree(t: Tree): string {
    match t
    case End => ""
    case Words(text, rest) => text + PrintTree(rest)
    case Tagged(part, rest) => PrintPart(part) + PrintTree(rest)
  }

  function PrintPart(part: Part): string {
    match part
    case Alone(style, name) => TagText(StyleMark(style), name)
    case Nested(inverted, name, inside) =>
      TagText(SectionMark(inverted), name) + PrintTree(inside) + TagText("/", name)
  }

  predicate PrintableTree(t: Tree) {
    match t
    case End => true
    case Words(text, rest) => SafeText(text) && PrintableTree(rest)
    case Tagged(Alone(_, name), rest) => PlainName(name) && PrintableTree(rest)
    case Tagged(Nested(_, name, inside), rest) => PlainName(name) && PrintableTree(inside) && PrintableTree(rest)
  }

  /** Adjacent texts made one. */
  function Merged(t: Tree): Body {
    match t
    case End => Done("")
    case Words(text, rest) => InFront(text, Merged(rest))
    case Tagged(part, rest) => Then("", MergedPart(part), Merged(rest))
  }

  function MergedPart(part: Part): Item {
    match part
    case Alone(style, name) => Single(style, name)
    case Nested(inverted, name, inside) => Group(inverted, name, Merged(inside))
  }

  function InFront(text: string, b: Body): Body {
    match b
    case Done(t) => Done(text + t)
    case Then(t, item, rest) => Then(text + t, item, rest)
  }

  lemma SafeJoin(a: string, b: string)
    requires SafeText(a) && SafeText(b)
    ensures SafeText(a + b)
  {
    var s := a + b;
    forall k | 0 <= k < |s| - 1
      ensures !(s[k] == '{' && s[k + 1] == '{')
    {
      assert k < |a| ==> s[k] == a[k];
      assert k + 1 < |a| ==> s[k + 1] == a[k + 1];
      assert k >= |a| ==> s[k] == b[k - |a|] && s[k + 1] == b[k + 1 - |a|];
    }
  }

  lemma PrintInFront(text: string, b: Body)
    ensures Print(InFront(text, b)) == text + Print(b)
  {
    hide PrintItem;
    if b.Then? {
      Regroup(text, b.text, PrintItem(b.item), Print(b.rest));
      assert b.text + (PrintItem(b.item) + Print(b.rest)) == b.text + PrintItem(b.item) + Print(b.rest);
    }
  }

  lemma {:induction false} MergedPrints(t: Tree)
    requires PrintableTree(t)
    ensures Printable(Merged(t)) && Print(Merged(t)) == PrintTree(t)
    decreases t
  {
    hide SafeText, PlainName, TagText;
    match t {
      case End =>
        SafeEmpty();
      case Words(text, rest) =>
        MergedPrints(rest);
        SafeJoin(text, Merged(rest).text);
        PrintInFront(text, Merged(rest));
      case Tagged(part, rest) =>
        SafeEmpty();
        MergedPrints(rest);
        if part.Nested? {
          MergedPrints(part.inside);
        }
        assert "" + PrintItem(MergedPart(part)) == PrintItem(MergedPart(part));
    }
  }

  lemma SafeEmpty()
    ensures SafeText("")
  {
  }
}
