/**
 The parser as mustache.js runs it: a scanner that moves over the template, buffers that grow token by
 token, and two passes over the result. Every method meets the function of MustacheParser of its name.
 */
module MustacheProgram {
  import opened Words
  import opened MustacheScanner
  import opened MustacheParser
  import opened MustacheTokens

  /** The variables that the parser and its inner function `stripSpace` share. */
  class LineBuffers {
    var tokens: seq<Option<Token>>
    var spaces: seq<nat>
    var hasTag: bool
    var nonSpace: bool

    ghost function Now(): Lines
      reads this
    {
      Lines(tokens, spaces, hasTag, nonSpace)
    }

    constructor ()
      ensures Now() == NO_LINES
    {
      tokens, spaces, hasTag, nonSpace := [], [], false, false;
    }

    method StripSpaces()
      requires Now().Valid()
      modifies this
      ensures Now() == StripSpace(old(Now()))
    {
      if hasTag && !nonSpace {
        while spaces != []
          invariant hasTag == old(hasTag) && nonSpace == old(nonSpace)
          invariant forall k :: 0 <= k < |spaces| ==> spaces[k] < |tokens|
          invariant Deleted(tokens, spaces) == Deleted(old(tokens), old(spaces))
          decreases |spaces|
        {
          var last := spaces[|spaces| - 1];
          spaces := spaces[..|spaces| - 1];
          tokens := tokens[last := None];
        }
      } else {
        spaces := [];
      }
      hasTag := false;
      nonSpace := false;
    }

    method PushChar(chr: char, at: nat)
      requires Now().Valid()
      modifies this
      ensures Now() == AddChar(old(Now()), chr, at)
    {
      hide StripSpace, IsSpace;
      if IsSpace(chr) {
        spaces := spaces + [|tokens|];
      } else {
        nonSpace := true;
      }
      tokens := tokens + [Some(Token(Text, [chr], at, at + 1))];
      assert Now() == AppendChar(old(Now()), chr, at);
      if chr == '\n' {
        StripSpaces();
      }
    }

    method PushText(value: string, from: nat)
      requires Now().Valid()
      modifies this
      ensures Now() == AddText(old(Now()), value, from)
    {
      hide AddChar, IsBlank;
      var i := 0;
      while i < |value|
        invariant 0 <= i <= |value|
        invariant Now().Valid()
        invariant AddText(Now(), value[i..], from + i) == AddText(old(Now()), value, from)
      {
        assert value[i..][1..] == value[i + 1..];
        PushChar(value[i], from + i);
        i := i + 1;
      }
    }

    method PushTag(token: Token)
      requires Now().Valid()
      modifies this
      ensures Now() == AddTag(old(Now()), token)
    {
      tokens := tokens + [Some(token)];
      hasTag := true;
      if token.kind == Name || token.kind == Unescaped {
        nonSpace := true;
      }
    }
  }

  /**
   Reads a tag behind its opening delimiter. `None` when it is not closed: then the scanner has run to the
   end of the template.
   */
  method ScanTag(scanner: Scanner, tags: Tags) returns (r: Option<(Kind, string)>)
    requires scanner.Valid() && TagsOk(tags)
    modifies scanner
    ensures scanner.Valid()
    ensures match ReadTag(tags, old(scanner.tail))
      case None => r.None? && scanner.pos == |scanner.text|
      case Some(tag) =>
        && r == Some((tag.kind, tag.value))
        && scanner.tail == old(scanner.tail)[tag.length..] && scanner.pos == old(scanner.pos) + tag.length
  {
    hide Match, Search, Scanned, Leading, KindOf, Mark, Inner, AfterValue, StopAt, ReadTag, TagsOk;
    ghost var s := scanner.tail;
    var mark := scanner.Scan(TagType);
    var _ := scanner.Scan(White);
    InnerStarts(s);
    var value := ScanValue(scanner, tags, mark);
    ghost var rest := scanner.tail;
    var closing := scanner.Scan(SpaceThen(tags.close));
    ReadTagParts(tags, s);
    if closing == "" {
      r := None;
    } else {
      r := Some((KindOf(mark), value));
    }
  }

  lemma InnerStarts(s: string)
    ensures var m := Scanned(TagType, s);
      && Mark(s) == s[..m]
      && m + Scanned(White, s[m..]) == Inner(s)
      && s[m..][Scanned(White, s[m..])..] == s[Inner(s)..]
  {
    hide Leading;
    DropTwice(s, |Mark(s)|, Leading(s[|Mark(s)|..]));
  }

  /** A tag in the order in which its parts are scanned. */
  lemma ReadTagParts(tags: Tags, s: string)
    ensures var inner := s[Inner(s)..];
      var size := Search(StopAt(tags, Mark(s)), inner);
      var skipped := AfterValue(tags, Mark(s), inner[size..]);
      var rest := inner[size..][skipped..];
      var closing := Scanned(SpaceThen(tags.close), rest);
      var length := Inner(s) + size + skipped + closing;
      && length <= |s| && s[length..] == rest[closing..]
      && ReadTag(tags, s) == if closing == 0 then None else Some(Tag(KindOf(Mark(s)), inner[..size], length))
  {
    hide Search, Scanned, Mark, Inner, AfterValue, StopAt, KindOf, Match, ReadTag;
    var inner := s[Inner(s)..];
    var size := Search(StopAt(tags, Mark(s)), inner);
    var skipped := AfterValue(tags, Mark(s), inner[size..]);
    SliceDrop(s, Inner(s), size);
    DropTwice(s, Inner(s), size);
    DropTwice(s, Inner(s) + size, skipped);
    DropTwice(s, Inner(s) + size + skipped, Scanned(SpaceThen(tags.close), inner[size..][skipped..]));
    ReadTagAt(tags, s, Inner(s) + size);
  }

  lemma ReadTagAt(tags: Tags, s: string, end: nat)
    requires end == Inner(s) + ValueSize(tags, s)
    ensures var after := end + AfterValue(tags, Mark(s), s[end..]);
      var closing := Scanned(SpaceThen(tags.close), s[after..]);
      ReadTag(tags, s) == if closing == 0 then None else Some(Tag(KindOf(Mark(s)), s[Inner(s)..end], after + closing))
  {
    hide Search, Scanned, Mark, Inner, AfterValue, StopAt, KindOf, Match, ValueSize;
  }

  /** The value of a tag; then the scanner is in front of the closing delimiter, or at the end of the template. */
  method ScanValue(scanner: Scanner, tags: Tags, mark: string) returns (value: string)
    requires scanner.Valid() && TagsOk(tags)
    modifies scanner
    ensures scanner.Valid()
    ensures var s := old(scanner.tail);
      var size := Search(StopAt(tags, mark), s);
      && value == s[..size]
      && var n := AfterValue(tags, mark, s[size..]);
         && scanner.tail == s[size..][n..] && scanner.pos == old(scanner.pos) + size + n
    ensures scanner.tail != "" ==> Scanned(SpaceThen(tags.close), scanner.tail) > 0
  {
    hide Match, Search, Scanned, SkipTo;
    if mark == "=" {
      value := scanner.ScanUntil(SpaceThen("="));
      SkipToClose(scanner, tags, SpaceThen("="));
    } else if mark == "{" {
      value := scanner.ScanUntil(SpaceThen("}" + tags.close));
      SkipToClose(scanner, tags, SpaceThen("}"));
    } else {
      CloseFound(tags, scanner.tail);
      value := scanner.ScanUntil(SpaceThen(tags.close));
    }
  }

  method SkipToClose(scanner: Scanner, tags: Tags, mark: Re)
    requires scanner.Valid() && TagsOk(tags)
    modifies scanner
    ensures scanner.Valid()
    ensures var n := SkipTo(tags, mark, old(scanner.tail));
      scanner.tail == old(scanner.tail)[n..] && scanner.pos == old(scanner.pos) + n
    ensures scanner.tail != "" ==> Scanned(SpaceThen(tags.close), scanner.tail) > 0
  {
    hide Match, Search, Scanned, TagsOk;
    ghost var s := scanner.tail;
    var _ := scanner.Scan(mark);
    CloseFound(tags, scanner.tail);
    DropTwice(s, Scanned(mark, s), Search(SpaceThen(tags.close), scanner.tail));
    var _ := scanner.ScanUntil(SpaceThen(tags.close));
  }

  lemma CloseFound(tags: Tags, s: string)
    requires TagsOk(tags)
    ensures var n := Search(SpaceThen(tags.close), s);
      s[n..] != "" ==> Scanned(SpaceThen(tags.close), s[n..]) > 0
  {
    hide Search;
  }

  lemma SliceDrop(s: string, a: nat, b: nat)
    requires a + b <= |s|
    ensures s[a..][..b] == s[a..a + b]
  {
  }

  /** The delimiters behind a tag. */
  method SetDelimiters(token: Token, tags: Tags) returns (r: Result<Tags>)
    ensures r == NewTags(tags, token)
  {
    hide TwoParts;
    if token.kind == SetTags {
      var parts := TwoParts(token.value);
      if parts.None? {
        return Err(InvalidTags);
      }
      return Ok(Tags(parts.value.0, parts.value.1));
    }
    r := Ok(tags);
  }

  /** The open sections behind a tag. */
  method EnterTag(token: Token, sections0: seq<Token>) returns (r: Result<seq<Token>>)
    ensures r == Nesting(sections0, token)
  {
    var sections := sections0;
    if token.kind == Section || token.kind == Inverted {
      sections := sections + [token];
    } else if token.kind == Close {
      if sections == [] {
        return Err(UnopenedSection(token.value, token.start));
      }
      var openSection := sections[|sections| - 1];
      sections := sections[..|sections| - 1];
      if openSection.value != token.value {
        return Err(UnclosedSection(openSection.value, token.start));
      }
    }
    r := Ok(sections);
  }

  /** The text up to the next opening delimiter, and that delimiter; empty at the end of the template. */
  method ScanOpening(scanner: Scanner, lines: LineBuffers, tags: Tags) returns (value: string, opening: string)
    requires scanner.Valid() && lines.Now().Valid()
    modifies scanner, lines
    ensures scanner.Valid()
    ensures var s := old(scanner.tail);
      && |value| == TextSize(tags, s) && value == s[..|value|] && |opening| == OpeningSize(tags, s)
      && scanner.tail == BehindOpening(tags, s) && scanner.pos == old(scanner.pos) + |value| + |opening|
    ensures lines.Now() == AddText(old(lines.Now()), value, old(scanner.pos))
  {
    hide Search, Match, Scanned, AddText;
    ghost var s := scanner.tail;
    var start := scanner.pos;
    value := scanner.ScanUntil(TagThenSpace(tags.open));
    lines.PushText(value, start);
    opening := scanner.Scan(TagThenSpace(tags.open));
    DropTwice(s, |value|, |opening|);
  }

  lemma BehindTag(tags: Tags, s: string, n: nat)
    requires n <= |BehindOpening(tags, s)|
    ensures BehindOpening(tags, s)[n..] == s[TextSize(tags, s) + OpeningSize(tags, s) + n..]
  {
    hide TextSize, OpeningSize;
    DropTwice(s, TextSize(tags, s) + OpeningSize(tags, s), n);
  }

  /** One turn of the loop up to its tag. */
  method TakeTurn(scanner: Scanner, lines: LineBuffers, tags: Tags) returns (t: Turn)
    requires scanner.Valid() && lines.Now().Valid() && TagsOk(tags)
    modifies scanner, lines
    ensures scanner.Valid()
    ensures t == NextTurn(tags, old(scanner.tail), old(scanner.pos))
    ensures t.Finish? ==> scanner.pos == old(scanner.pos) + t.n
    ensures t.Bad? || var text := AddText(old(lines.Now()), old(scanner.tail)[..t.n], old(scanner.pos));
                      lines.Now() == if t.Found? then AddTag(text, t.token) else text
    ensures t.Found? ==> TagsOk(t.tags) && scanner.pos == t.token.end
    ensures t.Found? ==> scanner.tail == old(scanner.tail)[t.token.end - old(scanner.pos)..]
  {
    hide ReadTag, NewTags, NextTurn, AddTag, AddText, TagsOk, TextSize, OpeningSize, BehindOpening;
    ghost var tail := scanner.tail;
    TurnOpens(tags, tail, scanner.pos);
    var start := scanner.pos;
    var value, opening := ScanOpening(scanner, lines, tags);
    start := start + |value|;
    if opening == "" {
      return Finish(|value|);
    }
    ghost var s := scanner.tail;
    var tag := ScanTag(scanner, tags);
    if tag.None? {
      return Bad(UnclosedTag(scanner.pos));
    }
    var token := Token(tag.value.0, tag.value.1, start, scanner.pos);
    lines.PushTag(token);
    NewTagsOk(tags, s, token);
    BehindTag(tags, tail, |s| - |scanner.tail|);
    var tags1 := SetDelimiters(token, tags);
    match tags1 {
      case Err(e) => t := Bad(e);
      case Ok(tags2) => t := Found(|value|, token, tags2);
    }
  }

  /** `exports.parse` for one pair of delimiters. */
  method ParseTemplate(template: string, tags0: Tags) returns (r: Result<seq<Node>>)
    requires TagsOk(tags0)
    ensures r == Parse(tags0, template)
  {
    hide ParseFrom, NextTurn, Nesting, AddTag, AddText, SquashFrom, NestFrom, TagsOk, AtEnd;
    var tags := tags0;
    var scanner := new Scanner(template);
    var sections: seq<Token> := [];
    var lines := new LineBuffers();
    ghost var goal := ParseFrom(tags0, template, 0, NO_LINES, []);
    var more := true;
    while more
      invariant scanner.Valid() && lines.Now().Valid() && TagsOk(tags)
      invariant more ==> ParseFrom(tags, scanner.tail, scanner.pos, lines.Now(), sections) == goal
      invariant !more ==> AtEnd(lines.Now(), sections, scanner.pos) == goal
      decreases |scanner.tail|, more
    {
      more := false;
      var eos := scanner.Eos();
      if eos {
        NothingLeft(tags, scanner.pos, lines.Now(), sections);
      } else {
        ParseTurn(tags, scanner.tail, scanner.pos, lines.Now(), sections);
        var turn := TakeTurn(scanner, lines, tags);
        match turn {
          case Finish(_) =>
          case Bad(e) =>
            return Err(e);
          case Found(_, token, tags1) =>
            var entered := EnterTag(token, sections);
            if entered.Err? {
              return Err(entered.error);
            }
            sections, tags := entered.value, tags1;
            more := true;
        }
      }
    }
    AtEndIs(lines.Now(), sections, scanner.pos);
    if sections != [] {
      return Err(UnclosedSection(sections[|sections| - 1].value, scanner.pos));
    }
    var squashed := SquashTokens(lines.tokens);
    var tree := NestTokens(squashed);
    match tree {
      case Some(nodes) => r := Ok(nodes);
      case None => r := Err(UnclosedSection("", 0));
    }
  }

  lemma AtEndIs(st: Lines, open: seq<Token>, pos: nat)
    ensures AtEnd(st, open, pos) ==
            if open == [] then Ok(st.tokens) else Err(UnclosedSection(open[|open| - 1].value, pos))
  {
  }

  /** Joins consecutive text tokens. */
  method SquashTokens(tokens: seq<Option<Token>>) returns (squashed: seq<Token>)
    ensures squashed == SquashFrom([], tokens)
  {
    squashed := [];
    var i := 0;
    while i < |tokens|
      invariant 0 <= i <= |tokens|
      invariant SquashFrom(squashed, tokens[i..]) == SquashFrom([], tokens)
    {
      assert tokens[i..][1..] == tokens[i + 1..];
      if tokens[i].Some? {
        var token := tokens[i].value;
        if token.kind == Text && squashed != [] && squashed[|squashed| - 1].kind == Text {
          var last := squashed[|squashed| - 1];
          squashed := squashed[|squashed| - 1 := last.(value := last.value + token.value, end := token.end)];
        } else {
          squashed := squashed + [token];
        }
      }
      i := i + 1;
    }
  }

  /** Builds the tree with a stack of open sections. */
  method NestTokens(tokens: seq<Token>) returns (tree: Option<seq<Node>>)
    ensures tree == NestFrom(tokens, [], [])
  {
    var collector: seq<Node> := [];
    var sections: seq<Frame> := [];
    var i := 0;
    while i < |tokens|
      invariant 0 <= i <= |tokens|
      invariant NestFrom(tokens[i..], sections, collector) == NestFrom(tokens, [], [])
    {
      assert tokens[i..][1..] == tokens[i + 1..];
      var token := tokens[i];
      match token.kind {
        case Section | Inverted =>
          sections := sections + [Frame(collector, token)];
          collector := [];
        case Close =>
          if sections == [] {
            return None;
          }
          var section := sections[|sections| - 1];
          sections := sections[..|sections| - 1];
          collector := section.before + [Block(section.token, collector, token.start)];
        case _ =>
          collector := collector + [Leaf(token)];
      }
      i := i + 1;
    }
    ghost var tree0 := Unwound(sections, collector);
    while sections != []
      invariant Unwound(sections, collector) == tree0
      decreases |sections|
    {
      var section := sections[|sections| - 1];
      sections := sections[..|sections| - 1];
      collector := section.before + [Unclosed(section.token, collector)];
    }
    tree := Some(collector);
  }
}
