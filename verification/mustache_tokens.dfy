/** What every successful parse of a template guarantees about its tokens and its tree. */
module MustacheTokens {
  import opened Words
  import opened MustacheScanner
  import opened MustacheParser

  // ----- tokens cover the template -----

  function RawText(s: string, pos: nat): (r: seq<Token>)
    ensures |r| == |s| && forall k :: 0 <= k < |s| ==> r[k] == Token(Text, [s[k]], pos + k, pos + k + 1)
  {
    seq(|s|, k requires 0 <= k < |s| => Token(Text, [s[k]], pos + k, pos + k + 1))
  }

  /** The tokens before any of them is deleted; [] behind an error. */
  function RawFrom(tags: Tags, tail: string, pos: nat): seq<Token>
    decreases |tail|
  {
    if tail == "" then []
    else
      match NextTurn(tags, tail, pos)
      case Finish(n) => RawText(tail[..n], pos)
      case Bad(_) => []
      case Found(n, token, tags1) =>
        RawText(tail[..n], pos) + ([token] + RawFrom(tags1, tail[token.end - pos..], token.end))
  }

  /** `tokens` is `raw`, except that some white space tokens are deleted. */
  ghost predicate OnlyBlanksDeleted(tokens: seq<Option<Token>>, raw: seq<Option<Token>>) {
    && |tokens| == |raw|
    && forall k :: 0 <= k < |raw| ==> tokens[k] == raw[k] || (tokens[k] == None && IsBlank(raw[k]))
  }

  function Kept(tokens: seq<Token>): (r: seq<Option<Token>>)
    ensures |r| == |tokens| && forall k :: 0 <= k < |r| ==> r[k] == Some(tokens[k])
  {
    seq(|tokens|, k requires 0 <= k < |tokens| => Some(tokens[k]))
  }

  /** The tokens that are not deleted. */
  function Present(ts: seq<Option<Token>>): seq<Token> {
    if ts == [] then []
    else if ts[0].Some? then [ts[0].value] + Present(ts[1..])
    else Present(ts[1..])
  }

  lemma BlanksTrans(a: seq<Option<Token>>, b: seq<Option<Token>>, c: seq<Option<Token>>)
    requires OnlyBlanksDeleted(a, b) && OnlyBlanksDeleted(b, c)
    ensures OnlyBlanksDeleted(a, c)
  {
    forall k | 0 <= k < |c|
      ensures a[k] == c[k] || (a[k] == None && IsBlank(c[k]))
    {
      assert b[k] == c[k] || (b[k] == None && IsBlank(c[k]));
    }
  }

  lemma BlanksAppend(a: seq<Option<Token>>, b: seq<Option<Token>>, more: seq<Option<Token>>)
    requires OnlyBlanksDeleted(a, b)
    ensures OnlyBlanksDeleted(a + more, b + more)
  {
  }

  lemma AddCharKeeps(st: Lines, c: char, pos: nat)
    requires st.Valid()
    ensures OnlyBlanksDeleted(AddChar(st, c, pos).tokens, st.tokens + [Some(Token(Text, [c], pos, pos + 1))])
  {
    var st1 := AppendChar(st, c, pos);
    if c == '\n' && st1.hasTag && !st1.nonSpace {
      forall k | 0 <= k < |st1.tokens|
        ensures Deleted(st1.tokens, st1.spaces)[k] == st1.tokens[k] || IsBlank(st1.tokens[k])
      {
        if k in st1.spaces {
          var j :| 0 <= j < |st1.spaces| && st1.spaces[j] == k;
        }
      }
    }
  }

  lemma {:induction false} AddTextKeeps(st: Lines, s: string, pos: nat)
    requires st.Valid()
    ensures OnlyBlanksDeleted(AddText(st, s, pos).tokens, st.tokens + Kept(RawText(s, pos)))
    decreases s
  {
    if s == "" {
      assert st.tokens + Kept(RawText(s, pos)) == st.tokens;
    } else {
      hide OnlyBlanksDeleted, AddChar, RawText;
      var st1 := AddChar(st, s[0], pos);
      AddCharKeeps(st, s[0], pos);
      AddTextKeeps(st1, s[1..], pos + 1);
      RawTextSplits(s, pos);
      BlanksChain(AddText(st, s, pos).tokens, st1.tokens, st.tokens, [Some(Token(Text, [s[0]], pos, pos + 1))],
                  Kept(RawText(s[1..], pos + 1)));
    }
  }

  lemma BlanksChain(a: seq<Option<Token>>, b: seq<Option<Token>>, c: seq<Option<Token>>, first: seq<Option<Token>>,
                    more: seq<Option<Token>>)
    requires OnlyBlanksDeleted(b, c + first) && OnlyBlanksDeleted(a, b + more)
    ensures OnlyBlanksDeleted(a, c + (first + more))
  {
    hide OnlyBlanksDeleted;
    BlanksAppend(b, c + first, more);
    BlanksTrans(a, b + more, c + first + more);
    assert c + first + more == c + (first + more);
  }

  lemma RawTextSplits(s: string, pos: nat)
    requires s != ""
    ensures Kept(RawText(s, pos)) == [Some(Token(Text, [s[0]], pos, pos + 1))] + Kept(RawText(s[1..], pos + 1))
  {
  }

  /** Parsing only ever deletes white space tokens. */
  lemma {:induction false} ParseDeletesBlanks(tags: Tags, tail: string, pos: nat, st: Lines, open: seq<Token>)
    requires st.Valid() && ParseFrom(tags, tail, pos, st, open).Ok?
    ensures OnlyBlanksDeleted(ParseFrom(tags, tail, pos, st, open).value, st.tokens + Kept(RawFrom(tags, tail, pos)))
    decreases |tail|
  {
    hide AddText, NextTurn, OnlyBlanksDeleted, Nesting;
    if tail == "" {
      assert st.tokens + Kept([]) == st.tokens;
      BlanksSelf(st.tokens);
    } else {
      var turn := NextTurn(tags, tail, pos);
      AddTextKeeps(st, tail[..turn.n], pos);
      if turn.Found? {
        var token := turn.token;
        var st1 := AddText(st, tail[..turn.n], pos);
        var rest := RawFrom(turn.tags, tail[token.end - pos..], token.end);
        ParseDeletesBlanks(turn.tags, tail[token.end - pos..], token.end, AddTag(st1, token),
                           Nesting(open, token).value);
        BlanksThroughTag(st, st1, RawText(tail[..turn.n], pos), token, rest,
                         ParseFrom(tags, tail, pos, st, open).value);
      }
    }
  }

  lemma BlanksThroughTag(st: Lines, st1: Lines, text: seq<Token>, token: Token, rest: seq<Token>,
                         tokens: seq<Option<Token>>)
    requires st1.Valid()
    requires OnlyBlanksDeleted(st1.tokens, st.tokens + Kept(text))
    requires OnlyBlanksDeleted(tokens, AddTag(st1, token).tokens + Kept(rest))
    ensures OnlyBlanksDeleted(tokens, st.tokens + Kept(text + ([token] + rest)))
  {
    hide OnlyBlanksDeleted;
    BlanksAppend(st1.tokens, st.tokens + Kept(text), [Some(token)] + Kept(rest));
    assert st1.tokens + ([Some(token)] + Kept(rest)) == AddTag(st1, token).tokens + Kept(rest);
    assert st.tokens + Kept(text) + ([Some(token)] + Kept(rest)) == st.tokens + Kept(text + ([token] + rest));
    BlanksTrans(tokens, AddTag(st1, token).tokens + Kept(rest), st.tokens + Kept(text + ([token] + rest)));
  }

  lemma BlanksSelf(a: seq<Option<Token>>)
    ensures OnlyBlanksDeleted(a, a)
  {
  }

  /** Consecutive slices from `from` to `to`; the value of a text token is its slice of the template. */
  ghost predicate Tiles(template: string, tokens: seq<Token>, from: nat, to: nat)
    decreases tokens
  {
    if tokens == [] then from == to
    else
      var t := tokens[0];
      && t.start == from && from < t.end <= |template|
      && (t.kind == Text ==> t.value == template[from..t.end])
      && Tiles(template, tokens[1..], t.end, to)
  }

  lemma {:induction false} TilesAppend(template: string, a: seq<Token>, b: seq<Token>, from: nat, mid: nat, to: nat)
    requires Tiles(template, a, from, mid) && Tiles(template, b, mid, to)
    ensures Tiles(template, a + b, from, to)
    decreases a
  {
    if a == [] {
      assert a + b == b;
    } else {
      assert (a + b)[1..] == a[1..] + b;
      TilesAppend(template, a[1..], b, a[0].end, mid, to);
    }
  }

  lemma TilesOne(template: string, token: Token, rest: seq<Token>)
    requires token.kind != Text && token.start < token.end <= |template| && Tiles(template, rest, token.end, |template|)
    ensures Tiles(template, [token] + rest, token.start, |template|)
  {
    assert ([token] + rest)[1..] == rest;
  }

  lemma {:induction false} RawTextTiles(template: string, s: string, pos: nat)
    requires pos + |s| <= |template| && template[pos..pos + |s|] == s
    ensures Tiles(template, RawText(s, pos), pos, pos + |s|)
    decreases s
  {
    if s != "" {
      assert template[pos + 1..pos + |s|] == s[1..];
      RawTextTiles(template, s[1..], pos + 1);
      assert RawText(s, pos)[1..] == RawText(s[1..], pos + 1);
      assert template[pos] == s[0];
    }
  }

  lemma {:induction false} RawTiles(template: string, tags: Tags, pos: nat, st: Lines, open: seq<Token>)
    requires pos <= |template| && st.Valid() && TagsOk(tags)
    requires ParseFrom(tags, template[pos..], pos, st, open).Ok?
    ensures Tiles(template, RawFrom(tags, template[pos..], pos), pos, |template|)
    decreases |template| - pos
  {
    hide AddText, NextTurn, Nesting, TagsOk, RawText, Tiles, RawFrom, ParseFrom;
    var tail := template[pos..];
    if tail == "" {
      NothingTiles(template, tags, pos);
    } else {
      var turn := NextTurn(tags, tail, pos);
      TurnFacts(tags, tail, pos);
      TurnParses(tags, tail, pos, st, open);
      assert template[pos..pos + turn.n] == tail[..turn.n];
      RawTextTiles(template, tail[..turn.n], pos);
      if turn.Found? {
        var token := turn.token;
        assert tail[token.end - pos..] == template[token.end..];
        RawTiles(template, turn.tags, token.end, AddTag(AddText(st, tail[..turn.n], pos), token),
                 Nesting(open, token).value);
        var rest := RawFrom(turn.tags, template[token.end..], token.end);
        TilesOne(template, token, rest);
        TilesAppend(template, RawText(tail[..turn.n], pos), [token] + rest, pos, pos + turn.n, |template|);
      }
    }
  }

  lemma NothingTiles(template: string, tags: Tags, pos: nat)
    requires pos == |template|
    ensures RawFrom(tags, "", pos) == [] && Tiles(template, [], pos, |template|)
  {
  }

  /** One turn of the loop. */
  lemma ParseTurn(tags: Tags, tail: string, pos: nat, st: Lines, open: seq<Token>)
    requires st.Valid() && tail != ""
    ensures var t := NextTurn(tags, tail, pos);
      var r := ParseFrom(tags, tail, pos, st, open);
      && (t.Finish? ==> r == AtEnd(AddText(st, tail[..t.n], pos), open, pos + t.n))
      && (t.Bad? ==> r == Err(t.error))
      && (t.Found? && Nesting(open, t.token).Err? ==> r == Err(Nesting(open, t.token).error))
      && (t.Found? && Nesting(open, t.token).Ok? ==>
            r == ParseFrom(t.tags, tail[t.token.end - pos..], t.token.end,
                           AddTag(AddText(st, tail[..t.n], pos), t.token), Nesting(open, t.token).value))
  {
    hide AddText, Nesting, AddTag, NextTurn, AtEnd;
  }

  lemma NothingLeft(tags: Tags, pos: nat, st: Lines, open: seq<Token>)
    requires st.Valid()
    ensures ParseFrom(tags, "", pos, st, open) == AtEnd(st, open, pos)
  {
  }

  /** One turn of a parse that succeeds. */
  lemma TurnParses(tags: Tags, tail: string, pos: nat, st: Lines, open: seq<Token>)
    requires st.Valid() && tail != "" && ParseFrom(tags, tail, pos, st, open).Ok?
    ensures var t := NextTurn(tags, tail, pos);
      && !t.Bad?
      && (t.Finish? ==> open == [] && RawFrom(tags, tail, pos) == RawText(tail[..t.n], pos)
                        && ParseFrom(tags, tail, pos, st, open) == Ok(AddText(st, tail[..t.n], pos).tokens))
      && (t.Found? ==>
            && Nesting(open, t.token).Ok?
            && var rest := tail[t.token.end - pos..];
               && ParseFrom(tags, tail, pos, st, open) ==
                  ParseFrom(t.tags, rest, t.token.end, AddTag(AddText(st, tail[..t.n], pos), t.token),
                            Nesting(open, t.token).value)
               && RawFrom(tags, tail, pos) ==
                  RawText(tail[..t.n], pos) + ([t.token] + RawFrom(t.tags, rest, t.token.end)))
  {
    hide AddText, NextTurn, Nesting, RawText;
  }

  // ----- facts about one turn -----

  lemma DropTwice(s: string, a: nat, b: nat)
    requires a + b <= |s|
    ensures s[a..][b..] == s[a + b..]
  {
  }

  /** The text in front of the next opening delimiter, and the length of that delimiter. */
  function TextSize(tags: Tags, s: string): (n: nat)
    ensures n <= |s|
  {
    Search(TagThenSpace(tags.open), s)
  }

  function OpeningSize(tags: Tags, s: string): (n: nat)
    ensures n <= |s| - TextSize(tags, s)
  {
    Scanned(TagThenSpace(tags.open), s[TextSize(tags, s)..])
  }

  /** What follows it. */
  function BehindOpening(tags: Tags, s: string): string {
    s[TextSize(tags, s) + OpeningSize(tags, s)..]
  }

  lemma TurnOpens(tags: Tags, s: string, pos: nat)
    ensures var n, opening := TextSize(tags, s), OpeningSize(tags, s);
      NextTurn(tags, s, pos) ==
      if opening == 0 then Finish(n) else TagTurn(tags, BehindOpening(tags, s), n, pos + n, opening)
  {
    hide Search, Scanned, TagTurn, Match;
  }

  lemma SpaceExtendsMatch(x: string, s: string)
    requires s != "" && IsSpace(s[0]) && Match(SpaceThen(x), s[1..]).Some?
    ensures Match(SpaceThen(x), s).Some?
  {
    assert s[Leading(s)..] == s[1..][Leading(s[1..])..];
  }

  /** The text skipped before `\s*x` does not end in white space. */
  lemma SkippedEndsSolid(x: string, s: string)
    requires var n := Search(SpaceThen(x), s); 0 < n < |s|
    ensures !IsSpace(s[Search(SpaceThen(x), s) - 1])
  {
    var n := Search(SpaceThen(x), s);
    assert s[n - 1..][1..] == s[n..];
    if IsSpace(s[n - 1]) {
      SpaceExtendsMatch(x, s[n - 1..]);
    }
  }

  lemma PartsNotEmpty(s: string)
    requires s != "" && !IsSpace(s[0]) && !IsSpace(s[|s| - 1]) && TwoParts(s).Some?
    ensures TwoParts(s).value.0 != "" && TwoParts(s).value.1 != ""
  {
    hide IsSpace;
    var n := FirstSpace(s);
    assert s[n..][|s| - 1 - n] == s[|s| - 1];
  }

  lemma NoPartsInNothing()
    ensures TwoParts("") == None
  {
  }

  lemma ReadTagKind(tags: Tags, s: string)
    requires ReadTag(tags, s).Some?
    ensures ReadTag(tags, s).value.kind != Text && ReadTag(tags, s).value.length > 0
  {
    hide Inner, ValueSize, Mark, AfterValue, Scanned;
  }

  lemma SetTagsMark(s: string)
    requires KindOf(Mark(s)) == SetTags
    ensures Mark(s) == "="
  {
    hide Mark;
  }

  /** The value of a tag that sets the delimiters has no white space at its ends. */
  lemma SetTagsValue(tags: Tags, s: string)
    requires TagsOk(tags) && ReadTag(tags, s).Some? && ReadTag(tags, s).value.kind == SetTags
    ensures var v := ReadTag(tags, s).value.value; v != "" ==> !IsSpace(v[0]) && !IsSpace(v[|v| - 1])
  {
    hide IsSpace, Mark, AfterValue, Scanned, ValueSize, Search, Leading;
    SetTagsMark(s);
    if ValueSize(tags, s) == |s| - Inner(s) {
      UnfinishedValue(tags, s);
    } else {
      ValueEnds(tags, s);
    }
  }

  /** Without the closing `=` everything is skipped, and nothing is left to close the tag. */
  lemma UnfinishedValue(tags: Tags, s: string)
    requires TagsOk(tags) && Mark(s) == "=" && ValueSize(tags, s) == |s| - Inner(s)
    ensures ReadTag(tags, s) == None
  {
    hide IsSpace, Mark, AfterValue, Scanned, ValueSize, Search, Leading;
    NothingInNothing(tags);
    assert s[Inner(s) + ValueSize(tags, s)..] == "";
  }

  lemma SliceEnds(s: string, from: nat, n: nat)
    requires 0 < n && from + n <= |s|
    ensures s[from..from + n] != ""
    ensures s[from..from + n][0] == s[from] && s[from..from + n][|s[from..from + n]| - 1] == s[from..][n - 1]
  {
  }

  lemma ValueEnds(tags: Tags, s: string)
    requires Mark(s) == "=" && ValueSize(tags, s) < |s| - Inner(s)
    ensures var v := s[Inner(s)..Inner(s) + ValueSize(tags, s)]; v != "" ==> !IsSpace(v[0]) && !IsSpace(v[|v| - 1])
  {
    hide IsSpace, Mark, Inner, ValueSize, Search, Match, Leading;
    var size := ValueSize(tags, s);
    if size > 0 {
      ValueSizeIs(tags, s);
      InnerSolid(s);
      SkippedEndsSolid("=", s[Inner(s)..]);
      SliceEnds(s, Inner(s), size);
    }
  }

  lemma ValueSizeIs(tags: Tags, s: string)
    requires Mark(s) == "="
    ensures ValueSize(tags, s) == Search(SpaceThen("="), s[Inner(s)..])
  {
    hide Mark, Inner, Search;
  }

  lemma InnerSolid(s: string)
    ensures Inner(s) < |s| ==> !IsSpace(s[Inner(s)])
  {
    hide IsSpace, Mark, Leading;
    var rest := s[|Mark(s)|..];
    assert Leading(rest) < |rest| ==> rest[Leading(rest)] == s[Inner(s)];
  }

  lemma NothingInNothing(tags: Tags)
    requires TagsOk(tags)
    ensures AfterValue(tags, "=", "") == 0 && Scanned(SpaceThen(tags.close), "") == 0
  {
  }

  lemma OpeningFound(tags: Tags, tail: string)
    requires TagsOk(tags)
    ensures var n := Search(TagThenSpace(tags.open), tail);
      n < |tail| ==> Scanned(TagThenSpace(tags.open), tail[n..]) > 0
  {
    hide Search;
  }

  lemma NewTagsOk(tags: Tags, s: string, t: Token)
    requires TagsOk(tags) && ReadTag(tags, s).Some?
    requires t.kind == ReadTag(tags, s).value.kind && t.value == ReadTag(tags, s).value.value
    ensures NewTags(tags, t).Ok? ==> TagsOk(NewTags(tags, t).value)
  {
    hide ReadTag, TwoParts, IsSpace;
    if t.kind == SetTags && TwoParts(t.value).Some? {
      SetTagsValue(tags, s);
      NoPartsInNothing();
      PartsNotEmpty(t.value);
    }
  }

  lemma TurnFacts(tags: Tags, tail: string, pos: nat)
    requires TagsOk(tags) && tail != ""
    ensures var t := NextTurn(tags, tail, pos);
      && (t.Finish? ==> t.n == |tail|)
      && (t.Found? ==> t.token.kind != Text && TagsOk(t.tags))
  {
    hide ReadTag, NewTags, Search, Scanned, TagsOk;
    var n := Search(TagThenSpace(tags.open), tail);
    var opening := Scanned(TagThenSpace(tags.open), tail[n..]);
    OpeningFound(tags, tail);
    var s := tail[n + opening..];
    if opening > 0 && ReadTag(tags, s).Some? {
      var tag := ReadTag(tags, s).value;
      ReadTagKind(tags, s);
      NewTagsOk(tags, s, Token(tag.kind, tag.value, pos + n, pos + n + opening + tag.length));
    }
  }

  /**
   Every successful parse, before squashing: the tokens are the consecutive slices of the template, text
   tokens with the text of their slice, except that white space tokens may have been deleted.
   */
  lemma TokensCoverTemplate(tags: Tags, template: string)
    requires TagsOk(tags) && ParseFrom(tags, template, 0, NO_LINES, []).Ok?
    ensures var raw := RawFrom(tags, template, 0);
      && Tiles(template, raw, 0, |template|)
      && OnlyBlanksDeleted(ParseFrom(tags, template, 0, NO_LINES, []).value, Kept(raw))
  {
    assert template[0..] == template;
    RawTiles(template, tags, 0, NO_LINES, []);
    ParseDeletesBlanks(tags, template, 0, NO_LINES, []);
    assert [] + Kept(RawFrom(tags, template, 0)) == Kept(RawFrom(tags, template, 0));
  }
}
