/** New delimiters in a template (ncm_visualizer/js/mustache.js:371-384 and 466-471). */
module MustacheDelimiters {
  import opened Words
  import opened MustacheScanner
  import opened MustacheParser
  import opened MustacheTokens
  import opened MustacheReading
  import opened MustacheRoundTrip
  import opened MustachePrinting
  import opened MustacheTags

  // ----- the tag that sets them -----

  /** Neither white space nor `=` in it. */
  predicate PlainDelimiter(d: string) {
    d != "" && forall k :: 0 <= k < |d| ==> !IsSpace(d[k]) && d[k] != '='
  }

  lemma EqualsMatch(k: string)
    ensures Match(SpaceThen("="), "=" + k) == Some(1)
  {
    assert ("=" + k)[0] == '=' && ("=" + k)[0..] == "=" + k;
    NotSpace("=" + k);
  }

  lemma NoEqualsHere(s: string)
    requires s != "" && s[0] != '='
    requires !IsSpace(s[0]) || (s[0] == ' ' && |s| > 1 && !IsSpace(s[1]) && s[1] != '=')
    ensures Match(SpaceThen("="), s) == None
  {
    hide IsSpace;
    if !IsSpace(s[0]) {
      NotSpace(s);
      assert s[0..] == s;
    } else {
      NotSpace(s[1..]);
      assert Leading(s) == 1;
    }
  }

  lemma PairEnds(a: string, b: string, k: string)
    requires PlainDelimiter(a) && PlainDelimiter(b)
    ensures Search(SpaceThen("="), a + " " + b + ("=" + k)) == |a| + 1 + |b|
  {
    hide Search, Match, IsSpace, NoneBefore, PlainDelimiter;
    var s := a + " " + b + ("=" + k);
    NoneInPair(a, b, "=" + k);
    EqualsMatch(k);
    BehindPair(a, b, "=" + k);
    SearchIs(SpaceThen("="), s, |a| + 1 + |b|);
  }

  lemma BehindPair(a: string, b: string, end: string)
    ensures |a + " " + b + end| == |a| + 1 + |b| + |end| && (a + " " + b + end)[|a| + 1 + |b|..] == end
  {
  }

  lemma NoneInPair(a: string, b: string, end: string)
    requires PlainDelimiter(a) && PlainDelimiter(b)
    ensures NoneBefore(SpaceThen("="), a + " " + b + end, |a| + 1 + |b|)
  {
    hide Match, IsSpace;
    var s := a + " " + b + end;
    forall i | 0 <= i < |a| + 1 + |b|
      ensures Match(SpaceThen("="), s[i..]) == None
    {
      assert s[i..][0] == if i < |a| then a[i] else if i == |a| then ' ' else b[i - |a| - 1];
      assert i == |a| ==> s[i..][1] == b[0];
      NoEqualsHere(s[i..]);
    }
  }

  lemma {:induction false} FirstSpaceOf(a: string, k: string)
    requires PlainDelimiter(a) && (k != "" ==> IsSpace(k[0]))
    ensures FirstSpace(a + k) == |a|
  {
    hide IsSpace;
    if |a| == 1 {
      assert (a + k)[1..] == k && (a + k)[0] == a[0];
      if k != "" {
        assert (a + k)[1] == k[0];
      }
    } else {
      assert (a + k)[1..] == a[1..] + k && (a + k)[0] == a[0];
      FirstSpaceOf(a[1..], k);
    }
  }

  lemma PairSplits(a: string, b: string)
    requires PlainDelimiter(a) && PlainDelimiter(b)
    ensures TwoParts(a + " " + b) == Some((a, b))
  {
    hide IsSpace, FirstSpace, Leading;
    var v := a + " " + b;
    assert v == a + (" " + b);
    SpaceIs();
    FirstSpaceOf(a, " " + b);
    assert v[|a|..] == " " + b;
    OneSpace(b);
    assert v[|a| + 1..] == b && v[..|a|] == a;
    assert b + "" == b;
    FirstSpaceOf(b, "");
  }

  lemma SpaceIs()
    ensures IsSpace(' ')
  {
  }

  lemma OneSpace(b: string)
    requires b != "" && !IsSpace(b[0])
    ensures Leading(" " + b) == 1
  {
    assert (" " + b)[1..] == b;
  }

  lemma EqualsMark(a: string, k: string)
    requires PlainDelimiter(a)
    ensures var s := "=" + a + k; Mark(s) == "=" && Inner(s) == 1 && s[1..] == a + k
  {
    hide IsSpace, Leading;
    var s := "=" + a + k;
    assert s[0] == '=' && s[..1] == "=" && s[1..] == a + k && (a + k)[0] == a[0];
    NotSpace(s[1..]);
  }

  /** What is skipped behind the two delimiters. */
  lemma EqualsSkipped(k: string)
    ensures AfterValue(DEFAULT_TAGS, "=", "=" + ("}}" + k)) == 1
  {
    hide Search;
    var s := "=" + ("}}" + k);
    EqualsMatch("}}" + k);
    assert s[1..] == "}}" + k;
    BracesMatch("}}", k);
    assert ("}}" + k)[0..] == "}}" + k;
    SearchIs(SpaceThen("}}"), "}}" + k, 0);
  }

  lemma ReadDelimiters(a: string, b: string, k: string)
    requires PlainDelimiter(a) && PlainDelimiter(b)
    ensures ReadTag(DEFAULT_TAGS, Setting(a, b, k)) == Some(Tag(SetTags, a + " " + b, |a| + |b| + 5))
  {
    hide ReadTag, Mark, Inner, Search, Scanned, AfterValue, PlainDelimiter, ValueSize, Setting, StopAt, Match;
    var s := Setting(a, b, k);
    var end := 1 + (|a| + 1 + |b|);
    SettingParts(a, b, k);
    EqualsMark(a, " " + b + ("=" + ("}}" + k)));
    PairEnds(a, b, "}}" + k);
    EqualsValue(s, |a| + 1 + |b|);
    EqualsSkipped(k);
    CloseScanned(k);
    ReadsToClose(DEFAULT_TAGS, s, end, 1, 2);
  }

  lemma SettingParts(a: string, b: string, k: string)
    ensures var s := Setting(a, b, k);
      var end := 1 + (|a| + 1 + |b|);
      && s == "=" + a + (" " + b + ("=" + ("}}" + k)))
      && s[1..] == a + " " + b + ("=" + ("}}" + k)) && a + (" " + b + ("=" + ("}}" + k))) == s[1..]
      && s[1..end] == a + " " + b && s[end..] == "=" + ("}}" + k) && s[end + 1..] == "}}" + k
  {
  }

  lemma EqualsValue(s: string, size: nat)
    requires Mark(s) == "=" && Inner(s) == 1 && Search(SpaceThen("="), s[1..]) == size
    ensures ValueSize(DEFAULT_TAGS, s) == size
  {
    hide Search, Mark, Inner;
  }

  function DelimiterTag(a: string, b: string): string {
    "{{=" + a + " " + b + "=}}"
  }

  /** A tag of new delimiters: what follows is read with these two, in their order. */
  lemma DelimitersTurn(a: string, b: string, k: string, pos: nat)
    requires PlainDelimiter(a) && PlainDelimiter(b)
    ensures NextTurn(DEFAULT_TAGS, DelimiterTag(a, b) + k, pos) ==
            Found(0, Token(SetTags, a + " " + b, pos, pos + |DelimiterTag(a, b)|), Tags(a, b))
  {
    hide ReadTag, Search, Scanned, SafeText, PlainDelimiter, IsSpace, TwoParts, Leading, TagTurn, Match, DelimiterTag;
    hide NextTurn;
    var s, inner := DelimiterTag(a, b) + k, Setting(a, b, k);
    DelimiterParts(a, b, k);
    EqualsSolid();
    PaddedOpening("", inner);
    SafeEmpty();
    TextEndsAtTag("", s);
    TurnToTag(DEFAULT_TAGS, s, inner, 2, pos);
    ReadDelimiters(a, b, k);
    PairSplits(a, b);
    TagRead(DEFAULT_TAGS, inner, 2, pos, Tag(SetTags, a + " " + b, |a| + |b| + 5));
  }

  /** The rest of a tag of new delimiters, from its mark on. */
  function Setting(a: string, b: string, k: string): string {
    "=" + a + (" " + b + ("=" + ("}}" + k)))
  }

  lemma DelimiterParts(a: string, b: string, k: string)
    ensures var s, inner := DelimiterTag(a, b) + k, Setting(a, b, k);
      && s == "{{" + "" + inner && "" + s == s && s[0..] == s && "{{" <= s && s[2..] == inner
      && inner != "" && inner[0] == '=' && |DelimiterTag(a, b)| == |a| + |b| + 7
  {
  }

  lemma EqualsSolid()
    ensures !IsSpace('=')
  {
  }

  // ----- tags between any delimiters -----

  lemma CloseMatches(close: string, k: string)
    requires PlainDelimiter(close)
    ensures Match(SpaceThen(close), close + k) == Some(|close|)
  {
    hide IsSpace;
    assert (close + k)[0] == close[0] && (close + k)[0..] == close + k;
    NotSpace(close + k);
  }

  lemma NameBetween(n: string, close: string)
    requires PlainName(n) && PlainDelimiter(close) && close[0] !in n
    ensures Search(SpaceThen(close), n + close) == |n|
  {
    hide Search, Match, IsSpace, IsTagType;
    var s := n + close;
    assert close + "" == close && s[|n|..] == close;
    CloseMatches(close, "");
    forall i | 0 <= i < |n|
      ensures Match(SpaceThen(close), s[i..]) == None
    {
      assert s[i..][0] == n[i] && n[i] in n;
      NoCloseHere(s[i..], close);
    }
    SearchIs(SpaceThen(close), s, |n|);
  }

  lemma NoCloseHere(s: string, close: string)
    requires s != "" && !IsSpace(s[0]) && close != "" && s[0] != close[0]
    ensures Match(SpaceThen(close), s) == None
  {
    hide IsSpace;
    NotSpace(s);
    assert s[0..] == s;
  }

  lemma CloserPlain(mark: string, close: string)
    requires PlainDelimiter(close)
    ensures PlainDelimiter(Closer(mark) + close)
    ensures (Closer(mark) + close)[0] == if mark == "{" then '}' else close[0]
  {
    hide IsSpace;
    BraceSolid();
  }

  lemma BraceSolid()
    ensures !IsSpace('}')
  {
  }

  lemma NoBraceInName(n: string)
    requires PlainName(n)
    ensures '}' !in n
  {
    hide IsSpace, IsTagType;
  }

  /** What stands between two delimiters, from the mark to the end. */
  lemma ReadBetween(open: string, mark: string, n: string, close: string)
    requires PrinterMark(mark) && PlainName(n) && PlainDelimiter(close) && close[0] !in n
    ensures ReadTag(Tags(open, close), mark + n + (Closer(mark) + close)) ==
            Some(Tag(MarkKind(mark), n, |mark| + |n| + |Closer(mark)| + |close|))
  {
    hide ReadTag, Search, PlainDelimiter, PlainName, Scanned, Leading, Mark, Inner, ValueSize, AfterValue, IsTagType;
    hide Match, KindOf, MarkKind, Closer, PrinterMark;
    var tags, end := Tags(open, close), Closer(mark) + close;
    var s := mark + n + end;
    CloserPlain(mark, close);
    NoBraceInName(n);
    BetweenParts(mark, n, end);
    NoBlank();
    PaddedMark(mark, "", n, end);
    NameBetween(n, end);
    BetweenValue(tags, mark, s, |mark|, |n|);
    BetweenSkipped(tags, mark);
    CloseScannedWhole(close);
    PrinterKinds(mark);
    assert s[|mark| + |n| + |Closer(mark)|..] == close;
    ReadsToClose(tags, s, |mark| + |n|, |Closer(mark)|, |close|);
  }

  lemma NoBlank()
    ensures Blank("")
  {
  }

  lemma BetweenParts(mark: string, n: string, end: string)
    ensures var s := mark + n + end;
      && mark + "" + (n + end) == s && s[|mark|..] == n + end && s[|mark| + |n|..] == end
      && s[|mark|..|mark| + |n|] == n
  {
  }

  lemma BetweenValue(tags: Tags, mark: string, s: string, from: nat, size: nat)
    requires PrinterMark(mark) && Mark(s) == mark && Inner(s) == from
    requires Search(SpaceThen(Closer(mark) + tags.close), s[from..]) == size
    ensures ValueSize(tags, s) == size
  {
    hide Search, Mark, Inner;
    assert "" + tags.close == tags.close;
  }

  lemma BetweenSkipped(tags: Tags, mark: string)
    requires PrinterMark(mark) && PlainDelimiter(tags.close)
    ensures AfterValue(tags, mark, Closer(mark) + tags.close) == |Closer(mark)|
  {
    hide Search, Match, IsSpace, PlainDelimiter;
    if mark == "{" {
      var close := tags.close;
      BraceDelimiter();
      CloseMatches("}", close);
      assert ("}" + close)[1..] == close && close[0..] == close && close + "" == close;
      CloseMatches(close, "");
      SearchIs(SpaceThen(close), close, 0);
    }
  }

  lemma BraceDelimiter()
    ensures PlainDelimiter("}")
  {
  }

  lemma CloseScannedWhole(close: string)
    requires PlainDelimiter(close)
    ensures Scanned(SpaceThen(close), close) == |close| > 0
  {
    assert close + "" == close;
    CloseMatches(close, "");
  }

  lemma BetweenTurn(open: string, mark: string, n: string, close: string, pos: nat)
    requires PrinterMark(mark) && PlainDelimiter(open) && PlainDelimiter(close) && PlainName(n) && close[0] !in n
    ensures var tags, s := Tags(open, close), open + (mark + n + (Closer(mark) + close));
      NextTurn(tags, s, pos) == Found(0, Token(MarkKind(mark), n, pos, pos + |s|), tags)
  {
    hide ReadTag, Search, PlainDelimiter, PlainName, IsSpace, Leading, TagTurn, Match, MarkKind, Closer, PrinterMark;
    hide NextTurn;
    DelimiterThere(open);
    var inner := mark + n + (Closer(mark) + close);
    var s := open + inner;
    ReadBetween(open, mark, n, close);
    assert s[0..] == s && s[|open|..] == inner && open <= s;
    assert inner == mark + "" + n + (Closer(mark) + close);
    InnerSolidAt(mark, "", n, Closer(mark) + close);
    NotSpace(inner);
    OpenMatches(open, inner);
    SearchIs(TagThenSpace(open), s, 0);
    TurnToTag(Tags(open, close), s, inner, |open|, pos);
    PrinterKinds(mark);
    TagRead(Tags(open, close), inner, |open|, pos, Tag(MarkKind(mark), n, |inner|));
  }

  lemma DelimiterThere(d: string)
    requires PlainDelimiter(d)
    ensures d != ""
  {
  }

  lemma OpenMatches(open: string, k: string)
    requires PlainDelimiter(open) && Leading(k) == 0
    ensures Match(TagThenSpace(open), open + k) == Some(|open|)
  {
    assert (open + k)[|open|..] == k && open <= open + k;
  }

  /** The rest of the template is parsed with the new delimiters. */
  lemma DelimitersHold(a: string, b: string, k: string)
    requires PlainDelimiter(a) && PlainDelimiter(b)
    ensures var tag := "{{=" + a + " " + b + "=}}";
      var t := Token(SetTags, a + " " + b, 0, |tag|);
      ParseFrom(DEFAULT_TAGS, tag + k, 0, NO_LINES, []) == ParseFrom(Tags(a, b), k, |tag|, AddTag(NO_LINES, t), [])
  {
    hide ParseFrom, NextTurn, PlainDelimiter;
    var tag := DelimiterTag(a, b);
    DelimitersTurn(a, b, k, 0);
    TurnReads(DEFAULT_TAGS, tag, k, 0, NO_LINES, Token(SetTags, a + " " + b, 0, |tag|), Tags(a, b));
  }

  /** `second` is read as one tag behind the tag that sets the delimiters. */
  ghost predicate ReadBehind(a: string, b: string, second: string, kind: Kind, n: string) {
    var first := "{{=" + a + " " + b + "=}}";
    Parse(DEFAULT_TAGS, first + second) ==
    Ok([Leaf(Token(SetTags, a + " " + b, 0, |first|)), Leaf(Token(kind, n, |first|, |first + second|))])
  }

  lemma StyleBehind(a: string, b: string, style: Style, n: string)
    requires PlainDelimiter(a) && PlainDelimiter(b) && PlainName(n) && b[0] !in n
    ensures var mark := StyleMark(style); ReadBehind(a, b, a + (mark + n + (Closer(mark) + b)), MarkKind(mark), n)
  {
    hide Parse, ParseFrom, NextTurn, PlainDelimiter, PlainName, MarkKind, Closer;
    var mark := StyleMark(style);
    var first, second := DelimiterTag(a, b), a + (mark + n + (Closer(mark) + b));
    var t := Token(SetTags, a + " " + b, 0, |first|);
    var u := Token(MarkKind(mark), n, |first|, |first + second|);
    DelimitersHold(a, b, second);
    BetweenTurn(a, mark, n, b, |first|);
    SingleKinds(style);
    assert second + "" == second;
    DelimiterThere(a);
    TurnReads(Tags(a, b), second, "", |first|, AddTag(NO_LINES, t), u, Tags(a, b));
    NothingLeft(Tags(a, b), u.end, AddTag(AddTag(NO_LINES, t), u), []);
    assert AddTag(AddTag(NO_LINES, t), u).tokens == Kept([t, u]);
    TagsAlone(DEFAULT_TAGS, first + second, [t, u]);
    assert Leaves([t, u]) == [Leaf(t), Leaf(u)];
  }

  /**
   New delimiters are in force from behind their tag on, for tags of every kind; an unescaped value still has braces
   inside them.
   */
  lemma DelimitersChange(a: string, b: string, n: string)
    requires PlainDelimiter(a) && PlainDelimiter(b) && PlainName(n) && b[0] !in n
    ensures ReadBehind(a, b, a + n + b, Name, n)
    ensures ReadBehind(a, b, a + "{" + n + "}" + b, Unescaped, n)
    ensures ReadBehind(a, b, a + "&" + n + b, Unescaped, n)
    ensures ReadBehind(a, b, a + "!" + n + b, Comment, n)
    ensures ReadBehind(a, b, a + ">" + n + b, Partial, n)
  {
    hide ReadBehind, PlainDelimiter, PlainName;
    TextsBetween(a, b, n);
    StyleBehind(a, b, Escaped, n);
    StyleBehind(a, b, Braces, n);
    StyleBehind(a, b, Ampersand, n);
    StyleBehind(a, b, Remark, n);
    StyleBehind(a, b, Include, n);
  }

  lemma TextsBetween(a: string, b: string, n: string)
    ensures a + ("" + n + ("" + b)) == a + n + b
    ensures a + ("{" + n + ("}" + b)) == a + "{" + n + "}" + b
    ensures a + ("&" + n + ("" + b)) == a + "&" + n + b
    ensures a + ("!" + n + ("" + b)) == a + "!" + n + b
    ensures a + (">" + n + ("" + b)) == a + ">" + n + b
  {
  }
}
