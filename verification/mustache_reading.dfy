/** How a tag is read (ncm_visualizer/js/mustache.js:419-456): its kind, its name, and white space in it. */
module MustacheReading {
  import opened Words
  import opened MustacheScanner
  import opened MustacheParser
  import opened MustacheTokens

  /** What goes in front of the closing delimiter. */
  function Closer(mark: string): string {
    if mark == "{" then "}" else ""
  }

  /** A name without white space or closing braces that cannot be mistaken for a tag type. */
  predicate PlainName(n: string) {
    && n != ""
    && !IsTagType(n[0])
    && forall k :: 0 <= k < |n| ==> !IsSpace(n[k]) && n[k] != '}'
  }

  /** The characters that `\s` matches, by their code points (section 15.10.2.12 of ECMA-262, 5.1 edition). */
  predicate WhiteSpace(c: char) {
    var x := c as int;
    || 9 <= x <= 13 || x == 32 || x == 0xA0 || x == 0x1680 || 0x2000 <= x <= 0x200A
    || x == 0x2028 || x == 0x2029 || x == 0x202F || x == 0x205F || x == 0x3000 || x == 0xFEFF
  }

  lemma SpacesAre(c: char)
    ensures IsSpace(c) <==> WhiteSpace(c)
  {
  }

  /** The names that the results about printed templates are about, character by character. */
  lemma PlainNamesAre(n: string)
    ensures PlainName(n) <==>
            && n != "" && n[0] !in "#^/>{&=!"
            && forall k :: 0 <= k < |n| ==> !WhiteSpace(n[k]) && n[k] != '}'
  {
    hide IsSpace, WhiteSpace;
    forall c: char
      ensures IsSpace(c) <==> WhiteSpace(c)
    {
      SpacesAre(c);
    }
    forall c: char
      ensures c in "#^/>{&=!" <==> IsTagType(c)
    {
      TagTypesAre(c);
    }
  }

  lemma TagTypesAre(c: char)
    ensures c in "#^/>{&=!" <==> IsTagType(c)
  {
    var s := "#^/>{&=!";
    assert s[0] == '#' && s[1] == '^' && s[2] == '/' && s[3] == '>';
    assert s[4] == '{' && s[5] == '&' && s[6] == '=' && s[7] == '!';
  }

  /** The kind of token that each mark stands for. */
  function MarkKind(mark: string): Kind {
    if mark == "#" then Section
    else if mark == "^" then Inverted
    else if mark == "/" then Close
    else if mark == "{" || mark == "&" then Unescaped
    else if mark == "!" then Comment
    else if mark == ">" then Partial
    else Name
  }

  /** The marks that the printer uses. */
  predicate PrinterMark(mark: string) {
    || mark == "" || mark == "#" || mark == "^" || mark == "/" || mark == "{" || mark == "&" || mark == "!"
    || mark == ">"
  }

  lemma PrinterKinds(mark: string)
    requires PrinterMark(mark)
    ensures KindOf(mark) == MarkKind(mark)
    ensures MarkKind(mark) != Text && MarkKind(mark) != SetTags
  {
  }

  // ----- scanning -----

  /** No match in front of index `n`. */
  ghost predicate NoneBefore(re: Re, s: string, n: nat) {
    n <= |s| && forall k :: 0 <= k < n ==> Match(re, s[k..]) == None
  }

  lemma SearchIs(re: Re, s: string, n: nat)
    requires NoneBefore(re, s, n)
    requires n < |s| ==> Match(re, s[n..]).Some?
    ensures Search(re, s) == n
  {
    hide Search, Match;
    var m := Search(re, s);
    assert m < |s| ==> Match(re, s[m..]).Some?;
  }

  lemma NotSpace(s: string)
    requires s != "" && !IsSpace(s[0])
    ensures Leading(s) == 0
  {
  }

  lemma MarksSolid()
    ensures !IsSpace('#') && !IsSpace('^') && !IsSpace('/') && !IsSpace('{') && !IsSpace('&') && !IsSpace('!')
    ensures !IsSpace('>')
  {
  }

  predicate Blank(w: string) {
    forall k :: 0 <= k < |w| ==> w[k] == ' ' || w[k] == '\t' || w[k] == '\n' || w[k] == '\r'
  }

  lemma {:induction false} LeadingBlank(w: string, k: string)
    requires Blank(w) && (k != "" ==> !IsSpace(k[0]))
    ensures Leading(w + k) == |w|
  {
    if w == "" {
      assert w + k == k;
    } else {
      assert (w + k)[1..] == w[1..] + k;
      LeadingBlank(w[1..], k);
    }
  }

  // ----- the end of a name -----

  /** Two or three closing braces. */
  predicate ClosingBraces(close: string) {
    close == "}" || close == "}}" || close == "}}}"
  }

  lemma NoBracesHere(s: string, close: string)
    requires s != "" && !IsSpace(s[0]) && s[0] != '}' && ClosingBraces(close)
    ensures Match(SpaceThen(close), s) == None
  {
    hide IsSpace;
    NotSpace(s);
    assert s[0..] == s;
    assert close[0] == '}';
  }

  lemma NoEndInside(n: string, close: string, end: string, i: nat)
    requires PlainName(n) && i < |n| && ClosingBraces(close)
    ensures Match(SpaceThen(close), (n + end)[i..]) == None
  {
    hide IsSpace, IsTagType, Match, ClosingBraces;
    assert (n + end)[i..][0] == n[i];
    NoBracesHere((n + end)[i..], close);
  }

  lemma NoEndBefore(n: string, close: string, end: string)
    requires PlainName(n) && ClosingBraces(close)
    ensures NoneBefore(SpaceThen(close), n + end, |n|)
  {
    hide Match, PlainName, ClosingBraces;
    forall i | 0 <= i < |n|
      ensures Match(SpaceThen(close), (n + end)[i..]) == None
    {
      NoEndInside(n, close, end, i);
    }
  }

  lemma BracesMatch(close: string, k: string)
    requires ClosingBraces(close)
    ensures Match(SpaceThen(close), close + k) == Some(|close|)
  {
    var s := close + k;
    assert s[0] == '}';
    NotSpace(s);
    assert s[0..] == s;
  }

  lemma CloseScanned(k: string)
    ensures Scanned(SpaceThen("}}"), "}}" + k) == 2
  {
    BracesMatch("}}", k);
  }

  lemma BlankThenClose(w: string, close: string, k: string)
    requires Blank(w) && ClosingBraces(close)
    ensures Match(SpaceThen(close), w + close + k) == Some(|w| + |close|)
  {
    hide Leading, Blank;
    assert w + close + k == w + (close + k) && (close + k)[0] == '}';
    LeadingBlank(w, close + k);
    assert (w + (close + k))[|w|..] == close + k;
  }

  lemma BlankScanned(w: string, close: string, k: string)
    requires Blank(w) && ClosingBraces(close)
    ensures Scanned(SpaceThen(close), w + close + k) == |w| + |close|
  {
    BlankThenClose(w, close, k);
  }

  /** The name of a tag ends in front of white space and closing braces. */
  lemma PaddedEnds(n: string, w: string, close: string, k: string)
    requires PlainName(n) && Blank(w) && ClosingBraces(close)
    ensures Search(SpaceThen(close), n + (w + close + k)) == |n|
  {
    hide Search, Match, PlainName, NoneBefore, ClosingBraces, Blank;
    var end := w + close + k;
    NoEndBefore(n, close, end);
    BlankThenClose(w, close, k);
    assert (n + end)[|n|..] == end;
    SearchIs(SpaceThen(close), n + end, |n|);
  }

  // ----- a whole tag -----

  lemma PaddedMark(mark: string, w: string, n: string, k: string)
    requires PrinterMark(mark) && Blank(w) && PlainName(n)
    ensures var s := mark + w + (n + k);
      && (mark == "" ==> w == "") ==> Mark(s) == mark && Inner(s) == |mark| + |w|
  {
    hide IsSpace, Leading, Blank;
    var s := mark + w + (n + k);
    if mark == "" ==> w == "" {
      assert s[|mark|..] == w + (n + k);
      assert (n + k)[0] == n[0];
      LeadingBlank(w, n + k);
      if mark != "" {
        assert s[0] == mark[0];
        assert s[..1] == mark;
      } else {
        assert s[0] == n[0];
        assert s[..0] == mark;
      }
    }
  }

  /** What is skipped behind a value that is followed by white space. */
  lemma PaddedStops(mark: string, w: string, k: string)
    requires PrinterMark(mark) && Blank(w)
    ensures AfterValue(DEFAULT_TAGS, mark, w + Closer(mark) + "}}" + k) == if mark == "{" then |w| + 1 else 0
  {
    hide Search, Scanned, Blank;
    if mark == "{" {
      var s := w + "}" + ("}}" + k);
      assert w + Closer(mark) + "}}" + k == s;
      BlankScanned(w, "}", "}}" + k);
      assert s[|w| + 1..] == "}}" + k;
      BracesMatch("}}", k);
      assert ("}}" + k)[0..] == "}}" + k;
      SearchIs(SpaceThen("}}"), "}}" + k, 0);
    }
  }

  lemma ReadsToClose(tags: Tags, s: string, end: nat, skipped: nat, closing: nat)
    requires end == Inner(s) + ValueSize(tags, s) && end + skipped <= |s| && closing > 0
    requires AfterValue(tags, Mark(s), s[end..]) == skipped
    requires Scanned(SpaceThen(tags.close), s[end + skipped..]) == closing
    ensures ReadTag(tags, s) == Some(Tag(KindOf(Mark(s)), s[Inner(s)..end], end + skipped + closing))
  {
    hide Search, Scanned, Mark, Inner, KindOf, AfterValue, ValueSize;
  }

  lemma PaddedParts(mark: string, w1: string, n: string, w2: string, k: string)
    ensures var close := Closer(mark) + "}}";
      var s := mark + w1 + (n + (w2 + close + k));
      var from, to := |mark| + |w1|, |mark| + |w1| + |n|;
      && s == mark + w1 + n + w2 + Closer(mark) + "}}" + k
      && s[from..] == n + (w2 + close + k) && s[from..to] == n
      && s[to..] == w2 + Closer(mark) + "}}" + k
  {
  }

  lemma PaddedValue(s: string, mark: string, from: nat, size: nat)
    requires PrinterMark(mark) && Mark(s) == mark && Inner(s) == from
    requires Search(SpaceThen(Closer(mark) + "}}"), s[from..]) == size
    ensures ValueSize(DEFAULT_TAGS, s) == size
  {
    hide Search, Mark, Inner;
  }

  lemma CloserCloses(mark: string)
    ensures ClosingBraces(Closer(mark) + "}}")
  {
  }

  /** From the end of the value to the end of the tag. */
  lemma PaddedCloses(s: string, mark: string, end: nat, w: string, k: string)
    requires PrinterMark(mark) && Blank(w) && Mark(s) == mark && end == Inner(s) + ValueSize(DEFAULT_TAGS, s)
    requires end <= |s| && s[end..] == w + Closer(mark) + "}}" + k
    ensures ReadTag(DEFAULT_TAGS, s) ==
            Some(Tag(KindOf(mark), s[Inner(s)..end], end + |w| + |Closer(mark)| + 2))
  {
    hide ReadTag, Mark, Inner, Scanned, KindOf, AfterValue, Blank, ValueSize;
    PaddedStops(mark, w, k);
    if mark == "{" {
      assert s[end + (|w| + 1)..] == s[end..][|w| + 1..] == "}}" + k;
      CloseScanned(k);
      ReadsToClose(DEFAULT_TAGS, s, end, |w| + 1, 2);
    } else {
      assert s[end + 0..] == s[end..] == w + "}}" + k;
      BlankScanned(w, "}}", k);
      ReadsToClose(DEFAULT_TAGS, s, end, 0, |w| + 2);
    }
  }

  lemma PaddedReadIn(s: string, mark: string, from: nat, n: string, w: string, k: string)
    requires PrinterMark(mark) && PlainName(n) && Blank(w) && Mark(s) == mark && from == Inner(s)
    requires from + |n| <= |s| && s[from..] == n + (w + (Closer(mark) + "}}") + k) && s[from..from + |n|] == n
    requires s[from + |n|..] == w + Closer(mark) + "}}" + k
    ensures ReadTag(DEFAULT_TAGS, s) == Some(Tag(MarkKind(mark), n, from + |n| + |w| + |Closer(mark)| + 2))
  {
    hide ReadTag, Mark, Inner, Search, PlainName, KindOf, MarkKind, Blank, ValueSize, PrinterMark, Closer;
    hide ClosingBraces;
    CloserCloses(mark);
    PaddedEnds(n, w, Closer(mark) + "}}", k);
    PaddedValue(s, mark, from, |n|);
    PrinterKinds(mark);
    PaddedCloses(s, mark, from + |n|, w, k);
  }

  /** White space behind the mark and behind the name makes no difference to what a tag is. */
  lemma PaddedRead(mark: string, w1: string, n: string, w2: string, k: string)
    requires PrinterMark(mark) && PlainName(n) && Blank(w1) && Blank(w2) && (mark == "" ==> w1 == "")
    ensures ReadTag(DEFAULT_TAGS, mark + w1 + n + w2 + Closer(mark) + "}}" + k) ==
            Some(Tag(MarkKind(mark), n, |mark| + |w1| + |n| + |w2| + |Closer(mark)| + 2))
  {
    hide ReadTag, Mark, Inner, PlainName, KindOf, MarkKind, Blank, Closer, PrinterMark;
    PaddedParts(mark, w1, n, w2, k);
    PaddedMark(mark, w1, n, w2 + (Closer(mark) + "}}") + k);
    PaddedReadIn(mark + w1 + n + w2 + Closer(mark) + "}}" + k, mark, |mark| + |w1|, n, w2, k);
  }

  // ----- the turn of the loop at a tag -----

  /** An opening delimiter, with the white space behind it, is at the front. */
  predicate OpensWith(tags: Tags, s: string, opening: nat) {
    Search(TagThenSpace(tags.open), s) == 0 && Scanned(TagThenSpace(tags.open), s) == opening > 0
  }

  lemma OpeningHere(tags: Tags, s: string, opening: nat)
    requires OpensWith(tags, s, opening)
    ensures TextSize(tags, s) == 0 && OpeningSize(tags, s) == opening > 0
  {
    hide Search, Scanned, Match;
  }

  lemma BehindHere(tags: Tags, s: string)
    requires TextSize(tags, s) == 0
    ensures BehindOpening(tags, s) == s[OpeningSize(tags, s)..]
  {
    hide TextSize, OpeningSize;
  }

  lemma TurnToTag(tags: Tags, s: string, inner: string, opening: nat, pos: nat)
    requires OpensWith(tags, s, opening) && opening <= |s| && s[opening..] == inner
    ensures NextTurn(tags, s, pos) == TagTurn(tags, inner, 0, pos, opening)
  {
    hide *;
    OpeningHere(tags, s, opening);
    BehindHere(tags, s);
    TurnOpens(tags, s, pos);
  }

  lemma TagRead(tags: Tags, inner: string, opening: nat, pos: nat, tag: Tag)
    requires ReadTag(tags, inner) == Some(tag)
    ensures var t := Token(tag.kind, tag.value, pos, pos + opening + tag.length);
      TagTurn(tags, inner, 0, pos, opening) ==
      match NewTags(tags, t)
      case Err(e) => Bad(e)
      case Ok(tags1) => Found(0, t, tags1)
  {
    hide ReadTag, NewTags;
  }
}
