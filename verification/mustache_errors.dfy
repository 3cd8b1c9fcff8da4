/** The errors of the template parser and the places they name (ncm_visualizer/js/mustache.js:372-478). */
module MustacheErrors {
  import opened Words
  import opened MustacheScanner
  import opened MustacheParser
  import opened MustacheTokens
  import opened MustacheReading
  import opened MustacheRoundTrip
  import opened MustacheTags
  import opened MustacheDelimiters

  lemma ParseFails(template: string, e: Error)
    requires ParseFrom(DEFAULT_TAGS, template, 0, NO_LINES, []) == Err(e)
    ensures Parse(DEFAULT_TAGS, template) == Err(e)
  {
    hide ParseFrom, NestFrom, SquashFrom;
  }

  /** A closing tag behind a tree in which all sections are closed has no section to close. */
  lemma NothingToClose(b: Body, n: string, k: string)
    requires Printable(b) && PlainName(n)
    ensures Parse(DEFAULT_TAGS, Print(b) + ("{{/" + n + "}}" + k)) == Err(UnopenedSection(n, |Print(b)|))
  {
    hide ParseFrom, Parse, PlainName, Printable, Print, AfterBody, TagText;
    ClosingText(n, k);
    ClosingNext(n, k);
    var st := AfterBody(NO_LINES, b, 0);
    BodyReads(b, TagText("/", n) + k, 0, NO_LINES, []);
    TagReads("/", n, k, |Print(b)|, st, []);
    ParseFails(Print(b) + (TagText("/", n) + k), UnopenedSection(n, |Print(b)|));
  }

  lemma ClosingText(n: string, k: string)
    ensures "{{/" + n + "}}" + k == TagText("/", n) + k && |TagText("/", n)| == |n| + 5
  {
  }

  lemma SectionText(n: string, k: string)
    ensures "{{#" + n + "}}" + k == TagText("#", n) + k && |TagText("#", n)| == |n| + 5 && TagNext(TagText("#", n) + k)
    ensures TagToken("#", n, 0).kind == Section
  {
  }

  /** The front of a template with a section that is open. */
  lemma SectionOpens(b: Body, a: string, inside: Body, k: string) returns (st: Lines)
    requires Printable(b) && Printable(inside) && PlainName(a) && TagNext(k)
    ensures st.Valid()
    ensures ParseFrom(DEFAULT_TAGS, Print(b) + ("{{#" + a + "}}" + (Print(inside) + k)), 0, NO_LINES, []) ==
            ParseFrom(DEFAULT_TAGS, k, |Print(b)| + |a| + 5 + |Print(inside)|, st, [TagToken("#", a, |Print(b)|)])
  {
    hide *;
    SectionText(a, Print(inside) + k);
    st := TextRead(b, TagText("#", a) + (Print(inside) + k));
    st := InsideReads(a, inside, k, |Print(b)|, st);
  }

  lemma TextRead(b: Body, k: string) returns (st: Lines)
    requires Printable(b) && TagNext(k)
    ensures st.Valid()
    ensures ParseFrom(DEFAULT_TAGS, Print(b) + k, 0, NO_LINES, []) ==
            ParseFrom(DEFAULT_TAGS, k, |Print(b)|, st, [])
  {
    hide ParseFrom, Printable, Print, AfterBody, TagNext;
    st := AfterBody(NO_LINES, b, 0);
    BodyReads(b, k, 0, NO_LINES, []);
  }

  /** The opening tag and the inside. */
  lemma InsideReads(a: string, inside: Body, k: string, pos: nat, st: Lines) returns (st1: Lines)
    requires Printable(inside) && PlainName(a) && TagNext(k) && st.Valid()
    ensures st1.Valid()
    ensures ParseFrom(DEFAULT_TAGS, TagText("#", a) + (Print(inside) + k), pos, st, []) ==
            ParseFrom(DEFAULT_TAGS, k, pos + |a| + 5 + |Print(inside)|, st1, [TagToken("#", a, pos)])
  {
    hide ParseFrom, PlainName, Printable, Print, AfterBody, TagText, TagNext, AddTag, MarkKind;
    OpeningReads(false, a, Print(inside) + k, pos, st, []);
    var t := TagToken("#", a, pos);
    SectionText(a, "");
    assert t.end == pos + |a| + 5;
    assert [] + [t] == [t];
    BodyReads(inside, k, t.end, AddTag(st, t), [t]);
    st1 := AfterBody(AddTag(st, t), inside, t.end);
  }

  /** A section that is closed by another name: the error names the section and the place of the closing tag. */
  lemma WrongName(b: Body, a: string, inside: Body, n: string, k: string)
    requires Printable(b) && Printable(inside) && PlainName(a) && PlainName(n) && a != n
    ensures Parse(DEFAULT_TAGS, Print(b) + ("{{#" + a + "}}" + (Print(inside) + ("{{/" + n + "}}" + k)))) ==
            Err(UnclosedSection(a, |Print(b)| + |a| + 5 + |Print(inside)|))
  {
    hide ParseFrom, Parse, PlainName, Printable, Print, TagText, MarkKind;
    ClosingText(n, k);
    ClosingNext(n, k);
    var close := TagText("/", n) + k;
    var st := SectionOpens(b, a, inside, close);
    var pos := |Print(b)| + |a| + 5 + |Print(inside)|;
    var t := TagToken("#", a, |Print(b)|);
    var template := Print(b) + ("{{#" + a + "}}" + (Print(inside) + close));
    TagReads("/", n, k, pos, st, [t]);
    ClosingKind();
    ParseFails(template, UnclosedSection(a, pos));
  }

  lemma ClosingKind()
    ensures MarkKind("/") == Close
  {
  }

  /** A section that is not closed: the error names it and the end of the template. */
  lemma NeverClosed(b: Body, a: string, inside: Body)
    requires Printable(b) && Printable(inside) && PlainName(a)
    ensures var template := Print(b) + ("{{#" + a + "}}" + Print(inside));
      Parse(DEFAULT_TAGS, template) == Err(UnclosedSection(a, |template|))
  {
    hide ParseFrom, Parse, PlainName, Printable, Print, TagText, MarkKind;
    var st := SectionOpens(b, a, inside, "");
    assert Print(inside) + "" == Print(inside);
    var t := TagToken("#", a, |Print(b)|);
    var template := Print(b) + ("{{#" + a + "}}" + Print(inside));
    assert |template| == |Print(b)| + |a| + 5 + |Print(inside)|;
    NothingLeft(DEFAULT_TAGS, |template|, st, [t]);
    ParseFails(template, UnclosedSection(a, |template|));
  }

  // ----- tags that are not closed -----

  lemma NoCloseInName(n: string)
    requires PlainName(n)
    ensures Search(SpaceThen("}}"), n) == |n|
  {
    hide Search, Match, PlainName, NoneBefore;
    assert n + "" == n;
    NoEndBefore(n, "}}", "");
    SearchIs(SpaceThen("}}"), n, |n|);
  }

  lemma ReadNothing(n: string)
    requires PlainName(n)
    ensures ReadTag(DEFAULT_TAGS, n) == None
  {
    hide Search, PlainName, Mark, Inner, Match;
    assert "" + "" + (n + "") == n && n[0..] == n && n[|n|..] == "" && n[|n| + 0..] == "";
    PaddedMark("", "", n, "");
    NoCloseInName(n);
    NothingCloses();
  }

  lemma NothingCloses()
    ensures Scanned(SpaceThen("}}"), "") == 0
  {
  }

  /** A tag that is not closed: the error names the end of the template. */
  lemma TagNotClosed(b: Body, n: string)
    requires Printable(b) && PlainName(n)
    ensures var template := Print(b) + ("{{" + n);
      Parse(DEFAULT_TAGS, template) == Err(UnclosedTag(|template|))
  {
    hide ParseFrom, Parse, PlainName, Printable, Print, AfterBody, NextTurn, IsTagType, IsSpace;
    var s, template := "{{" + n, Print(b) + ("{{" + n);
    BodyReads(b, s, 0, NO_LINES, []);
    var st := AfterBody(NO_LINES, b, 0);
    ParseTurn(DEFAULT_TAGS, s, |Print(b)|, st, []);
    UnclosedTurn(n, |Print(b)|);
    ParseFails(template, UnclosedTag(|template|));
  }

  lemma UnclosedTurn(n: string, pos: nat)
    requires PlainName(n)
    ensures NextTurn(DEFAULT_TAGS, "{{" + n, pos) == Bad(UnclosedTag(pos + 2 + |n|))
  {
    hide ReadTag, Search, PlainName, NextTurn, Match, Leading;
    var s := "{{" + n;
    assert "" + s == s && s[0..] == s && s[2..] == n && "{{" <= s;
    SafeEmpty();
    TextEndsAtTag("", s);
    OpeningBehind(n);
    TurnToTag(DEFAULT_TAGS, s, n, 2, pos);
    ReadNothing(n);
  }

  lemma OpeningBehind(n: string)
    requires PlainName(n)
    ensures Scanned(TagThenSpace("{{"), "{{" + n) == 2
  {
    hide IsSpace, IsTagType;
    assert ("{{" + n)[2..] == n;
    NotSpace(n);
  }

  // ----- a tag of new delimiters with only one -----

  lemma OneEnds(a: string, k: string)
    requires PlainDelimiter(a)
    ensures Search(SpaceThen("="), a + ("=" + k)) == |a|
  {
    hide Search, Match, IsSpace;
    var s := a + ("=" + k);
    forall i | 0 <= i < |a|
      ensures Match(SpaceThen("="), s[i..]) == None
    {
      assert s[i..][0] == a[i];
      NoEqualsHere(s[i..]);
    }
    EqualsMatch(k);
    assert s[|a|..] == "=" + k;
    SearchIs(SpaceThen("="), s, |a|);
  }

  lemma ReadOne(a: string, k: string)
    requires PlainDelimiter(a)
    ensures ReadTag(DEFAULT_TAGS, "=" + a + ("=" + ("}}" + k))) == Some(Tag(SetTags, a, |a| + 4))
  {
    hide ReadTag, Mark, Inner, Search, Scanned, AfterValue, PlainDelimiter, ValueSize, StopAt, Match, KindOf;
    var s := "=" + a + ("=" + ("}}" + k));
    OneParts(a, k);
    EqualsMark(a, "=" + ("}}" + k));
    OneEnds(a, "}}" + k);
    EqualsValue(s, |a|);
    EqualsSkipped(k);
    CloseScanned(k);
    EqualsKind();
    ReadsToClose(DEFAULT_TAGS, s, 1 + |a|, 1, 2);
  }

  lemma EqualsKind()
    ensures KindOf("=") == SetTags
  {
  }

  lemma OneParts(a: string, k: string)
    ensures var s := "=" + a + ("=" + ("}}" + k));
      && s[1..] == a + ("=" + ("}}" + k)) && s[1..1 + |a|] == a
      && s[1 + |a|..] == "=" + ("}}" + k) && s[1 + |a| + 1..] == "}}" + k
  {
  }

  lemma OnePart(a: string)
    requires PlainDelimiter(a)
    ensures TwoParts(a) == None
  {
    hide IsSpace, FirstSpace, Leading;
    assert a + "" == a;
    FirstSpaceOf(a, "");
  }

  /** Only one delimiter is an error. */
  lemma OneDelimiter(b: Body, a: string, k: string)
    requires Printable(b) && PlainDelimiter(a)
    ensures Parse(DEFAULT_TAGS, Print(b) + ("{{=" + a + "=}}" + k)) == Err(InvalidTags)
  {
    hide ParseFrom, Parse, Printable, Print, AfterBody, NextTurn, PlainDelimiter, IsSpace;
    var s := "{{=" + a + "=}}" + k;
    assert "{{" <= s;
    BodyReads(b, s, 0, NO_LINES, []);
    var st := AfterBody(NO_LINES, b, 0);
    ParseTurn(DEFAULT_TAGS, s, |Print(b)|, st, []);
    OneTurn(a, k, |Print(b)|);
    ParseFails(Print(b) + s, InvalidTags);
  }

  lemma OneTurn(a: string, k: string, pos: nat)
    requires PlainDelimiter(a)
    ensures NextTurn(DEFAULT_TAGS, "{{=" + a + "=}}" + k, pos) == Bad(InvalidTags)
  {
    hide ReadTag, Search, Scanned, SafeText, PlainDelimiter, IsSpace, TwoParts, Leading, TagTurn, Match, NextTurn;
    var s, inner := "{{=" + a + "=}}" + k, "=" + a + ("=" + ("}}" + k));
    assert s == "{{" + "" + inner && "" + s == s && s[0..] == s && s[2..] == inner && inner[0] == '=';
    EqualsSolid();
    NoBlank();
    PaddedOpening("", inner);
    SafeEmpty();
    TextEndsAtTag("", s);
    TurnToTag(DEFAULT_TAGS, s, inner, 2, pos);
    ReadOne(a, k);
    OnePart(a);
    TagRead(DEFAULT_TAGS, inner, 2, pos, Tag(SetTags, a, |a| + 4));
  }
}
