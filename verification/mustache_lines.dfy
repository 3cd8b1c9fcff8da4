/**
 What the parser deletes (ncm_visualizer/js/mustache.js:384-433), told by the lines of the template: on a
 line that holds a tag, and besides tags that show nothing only white space, the white space goes.
 */
module MustacheLines {
  import opened Words
  import opened MustacheScanner
  import opened MustacheParser
  import opened MustacheTokens

  predicate IsNewline(t: Token) {
    t.kind == Text && t.value == "\n"
  }

  /** The token shows something: a variable, or text other than one white space character. */
  predicate Shows(t: Token) {
    t.kind == Name || t.kind == Unescaped || (t.kind == Text && !IsBlank(Some(t)))
  }

  predicate HasTag(line: seq<Token>) {
    exists k :: 0 <= k < |line| && line[k].kind != Text
  }

  predicate ShowsNothing(line: seq<Token>) {
    forall k :: 0 <= k < |line| ==> !Shows(line[k])
  }

  function Cleaned(t: Token): Option<Token> {
    if IsBlank(Some(t)) then None else Some(t)
  }

  function CleanAll(line: seq<Token>): (r: seq<Option<Token>>)
    ensures |r| == |line| && forall k :: 0 <= k < |r| ==> r[k] == Cleaned(line[k])
  {
    seq(|line|, k requires 0 <= k < |line| => Cleaned(line[k]))
  }

  /** One line, its line break included. */
  function CleanLine(line: seq<Token>): (r: seq<Option<Token>>)
    ensures |r| == |line|
  {
    if HasTag(line) && ShowsNothing(line) then CleanAll(line) else Kept(line)
  }

  function FirstNewline(ts: seq<Token>): (n: nat)
    ensures n <= |ts|
    ensures forall k :: 0 <= k < n ==> !IsNewline(ts[k])
    ensures n < |ts| ==> IsNewline(ts[n])
  {
    if ts == [] || IsNewline(ts[0]) then 0 else 1 + FirstNewline(ts[1..])
  }

  /** All lines; what follows the last line break is kept as it is. */
  function CleanLines(ts: seq<Token>): (r: seq<Option<Token>>)
    ensures |r| == |ts|
    decreases |ts|
  {
    var n := FirstNewline(ts);
    if n == |ts| then Kept(ts) else CleanLine(ts[..n + 1]) + CleanLines(ts[n + 1..])
  }

  // ----- the parser's variables stand for the current line -----

  /** Places of the white space tokens of a line that starts at `base`. */
  function Blanks(line: seq<Token>, base: nat): (r: seq<nat>)
    ensures forall k :: 0 <= k < |r| ==> base <= r[k] < base + |line|
  {
    if line == [] then []
    else
      var n := |line| - 1;
      Blanks(line[..n], base) + if IsBlank(Some(line[n])) then [base + n] else []
  }

  ghost predicate Represents(st: Lines, done: seq<Option<Token>>, line: seq<Token>) {
    && st.tokens == done + Kept(line)
    && st.spaces == Blanks(line, |done|)
    && (st.hasTag <==> HasTag(line))
    && (st.nonSpace <==> !ShowsNothing(line))
    && (forall k :: 0 <= k < |line| ==> !IsNewline(line[k]))
  }

  lemma HasTagAppend(line: seq<Token>, t: Token)
    ensures HasTag(line + [t]) <==> HasTag(line) || t.kind != Text
    ensures ShowsNothing(line + [t]) <==> ShowsNothing(line) && !Shows(t)
  {
    var r := line + [t];
    assert r[|line|] == t;
    assert forall k :: 0 <= k < |line| ==> r[k] == line[k];
  }

  lemma BlanksAppend(line: seq<Token>, t: Token, base: nat)
    ensures Blanks(line + [t], base) == Blanks(line, base) + if IsBlank(Some(t)) then [base + |line|] else []
  {
    assert (line + [t])[..|line|] == line;
  }

  lemma KeptAppends(done: seq<Option<Token>>, line: seq<Token>, t: Token)
    ensures done + Kept(line + [t]) == done + Kept(line) + [Some(t)]
  {
  }

  lemma CharAppended(st: Lines, done: seq<Option<Token>>, line: seq<Token>, c: char, pos: nat)
    requires st.Valid() && Represents(st, done, line)
    ensures var t := Token(Text, [c], pos, pos + 1);
      var st1 := AppendChar(st, c, pos);
      && st1.tokens == done + Kept(line + [t]) && st1.spaces == Blanks(line + [t], |done|)
      && (st1.hasTag <==> HasTag(line + [t])) && (st1.nonSpace <==> !ShowsNothing(line + [t]))
  {
    hide HasTag, ShowsNothing, Blanks, Kept, IsSpace;
    var t := Token(Text, [c], pos, pos + 1);
    HasTagAppend(line, t);
    BlanksAppend(line, t, |done|);
    KeptAppends(done, line, t);
    assert IsBlank(Some(t)) <==> IsSpace(c);
  }

  /** Within a line nothing happens to its tokens. */
  lemma CharInLine(st: Lines, done: seq<Option<Token>>, line: seq<Token>, c: char, pos: nat)
    requires st.Valid() && Represents(st, done, line) && c != '\n'
    ensures Represents(AddChar(st, c, pos), done, line + [Token(Text, [c], pos, pos + 1)])
  {
    hide HasTag, ShowsNothing, Blanks, Kept, AppendChar;
    CharAppended(st, done, line, c, pos);
    assert [c] != "\n";
  }

  /** Deleting at the white space tokens of a line, the last one first. */
  lemma {:induction false} DeletedBlanks(done: seq<Option<Token>>, line: seq<Token>, tail: seq<Option<Token>>)
    ensures Deleted(done + Kept(line) + tail, Blanks(line, |done|)) == done + CleanAll(line) + tail
    decreases |line|
  {
    hide IsBlank, Deleted;
    if line == [] {
      NothingDeleted(done + Kept(line) + tail);
      assert done + Kept([]) + tail == done + CleanAll([]) + tail;
    } else {
      var n := |line| - 1;
      var front, t := line[..n], line[n];
      assert line == front + [t];
      BlanksAppend(front, t, |done|);
      LastOf(done, front, t, tail);
      DeletedBlanks(done, front, [Cleaned(t)] + tail);
      if IsBlank(Some(t)) {
        LastDeleted(done + Kept(line) + tail, Blanks(front, |done|), |done| + n);
      }
    }
  }

  lemma NothingDeleted(tokens: seq<Option<Token>>)
    ensures Deleted(tokens, []) == tokens
  {
  }

  lemma LastDeleted(tokens: seq<Option<Token>>, at: seq<nat>, last: nat)
    requires last < |tokens| && forall k :: 0 <= k < |at| ==> at[k] < |tokens|
    ensures Deleted(tokens, at + [last]) == Deleted(tokens[last := None], at)
  {
    assert (at + [last])[..|at|] == at;
  }

  lemma LastOf(done: seq<Option<Token>>, front: seq<Token>, t: Token, tail: seq<Option<Token>>)
    ensures done + Kept(front + [t]) + tail == done + Kept(front) + ([Some(t)] + tail)
    ensures (done + Kept(front + [t]) + tail)[|done| + |front| := None] == done + Kept(front) + ([None] + tail)
    ensures done + CleanAll(front + [t]) + tail == done + CleanAll(front) + ([Cleaned(t)] + tail)
  {
    hide IsBlank;
    assert Kept(front + [t]) == Kept(front) + [Some(t)];
    assert CleanAll(front + [t]) == CleanAll(front) + [Cleaned(t)];
  }

  lemma DeletedLine(done: seq<Option<Token>>, line: seq<Token>)
    requires HasTag(line) && ShowsNothing(line)
    ensures Deleted(done + Kept(line), Blanks(line, |done|)) == done + CleanLine(line)
  {
    hide HasTag, ShowsNothing, Deleted, Blanks, CleanAll;
    DeletedBlanks(done, line, []);
    assert done + Kept(line) + [] == done + Kept(line);
  }

  /** A line break ends the line: now it is cleaned. */
  lemma LineEnds(st: Lines, done: seq<Option<Token>>, line: seq<Token>, pos: nat)
    requires st.Valid() && Represents(st, done, line)
    ensures Represents(AddChar(st, '\n', pos), done + CleanLine(line + [Token(Text, "\n", pos, pos + 1)]), [])
  {
    hide HasTag, ShowsNothing, Deleted, AppendChar;
    var full := line + [Token(Text, "\n", pos, pos + 1)];
    CharAppended(st, done, line, '\n', pos);
    EmptyLine();
    if HasTag(full) && ShowsNothing(full) {
      DeletedLine(done, full);
    }
    assert done + CleanLine(full) + Kept([]) == done + CleanLine(full);
  }

  lemma EmptyLine()
    ensures !HasTag([]) && ShowsNothing([])
  {
  }

  lemma TagAppended(st: Lines, done: seq<Option<Token>>, line: seq<Token>, t: Token)
    requires st.Valid() && Represents(st, done, line) && t.kind != Text
    ensures Represents(AddTag(st, t), done, line + [t])
  {
    hide HasTag, ShowsNothing, Blanks, Kept;
    HasTagAppend(line, t);
    BlanksAppend(line, t, |done|);
    KeptAppends(done, line, t);
  }

  // ----- lines of what has been read and of what is to come -----

  lemma LinesSplit(line: seq<Token>, t: Token, rest: seq<Token>)
    requires (forall k :: 0 <= k < |line| ==> !IsNewline(line[k])) && IsNewline(t)
    ensures CleanLines(line + ([t] + rest)) == CleanLine(line + [t]) + CleanLines(rest)
  {
    hide CleanLine, IsNewline, FirstNewline, Kept;
    var ts := line + ([t] + rest);
    CutLine(line, t, rest);
    FirstNewlineAt(ts, |line|);
  }

  lemma CutLine(line: seq<Token>, t: Token, rest: seq<Token>)
    ensures var ts := line + ([t] + rest);
      && ts[..|line| + 1] == line + [t] && ts[|line| + 1..] == rest
      && ts[|line|] == t && forall k :: 0 <= k < |line| ==> ts[k] == line[k]
  {
  }

  lemma {:induction false} FirstNewlineAt(ts: seq<Token>, n: nat)
    requires n <= |ts| && (forall k :: 0 <= k < n ==> !IsNewline(ts[k])) && (n < |ts| ==> IsNewline(ts[n]))
    ensures FirstNewline(ts) == n
  {
    hide IsNewline;
    var m := FirstNewline(ts);
    assert m < |ts| ==> IsNewline(ts[m]);
  }

  lemma NoLineBreak(line: seq<Token>)
    requires forall k :: 0 <= k < |line| ==> !IsNewline(line[k])
    ensures CleanLines(line + []) == Kept(line)
  {
    hide IsNewline;
    assert line + [] == line;
    FirstNewlineAt(line, |line|);
  }

  lemma RawTextCons(s: string, pos: nat, rest: seq<Token>)
    requires s != ""
    ensures RawText(s, pos) + rest == [Token(Text, [s[0]], pos, pos + 1)] + (RawText(s[1..], pos + 1) + rest)
  {
    assert RawText(s, pos) == [Token(Text, [s[0]], pos, pos + 1)] + RawText(s[1..], pos + 1);
  }

  lemma RawTextNil(pos: nat, rest: seq<Token>)
    ensures RawText("", pos) + rest == rest
  {
  }

  lemma Shift(line: seq<Token>, t: Token, more: seq<Token>)
    ensures line + ([t] + more) == line + [t] + more && [] + more == more
  {
  }

  lemma Regroup(a: seq<Option<Token>>, b: seq<Option<Token>>, c: seq<Option<Token>>)
    ensures a + (b + c) == a + b + c
  {
  }

  /** Reading a text: complete lines are cleaned, the last one stays open. */
  lemma {:induction false} TextLines(st: Lines, done: seq<Option<Token>>, line: seq<Token>, s: string, pos: nat,
                                     rest: seq<Token>)
    returns (done1: seq<Option<Token>>, line1: seq<Token>)
    requires st.Valid() && Represents(st, done, line)
    ensures Represents(AddText(st, s, pos), done1, line1)
    ensures done + CleanLines(line + (RawText(s, pos) + rest)) == done1 + CleanLines(line1 + rest)
    decreases s
  {
    hide CleanLines, CleanLine, RawText, AddChar;
    if s == "" {
      RawTextNil(pos, rest);
      done1, line1 := done, line;
    } else {
      var t := Token(Text, [s[0]], pos, pos + 1);
      var more := RawText(s[1..], pos + 1) + rest;
      RawTextCons(s, pos, rest);
      if s[0] == '\n' {
        LineEnds(st, done, line, pos);
        LinesSplit(line, t, more);
        Regroup(done, CleanLine(line + [t]), CleanLines(more));
        Shift([], t, more);
        done1, line1 := TextLines(AddChar(st, s[0], pos), done + CleanLine(line + [t]), [], s[1..], pos + 1, rest);
      } else {
        CharInLine(st, done, line, s[0], pos);
        Shift(line, t, more);
        done1, line1 := TextLines(AddChar(st, s[0], pos), done, line + [t], s[1..], pos + 1, rest);
      }
    }
  }

  lemma {:induction false} ParseLines(tags: Tags, tail: string, pos: nat, st: Lines, open: seq<Token>,
                                      done: seq<Option<Token>>, line: seq<Token>)
    requires TagsOk(tags) && st.Valid() && Represents(st, done, line) && ParseFrom(tags, tail, pos, st, open).Ok?
    ensures ParseFrom(tags, tail, pos, st, open).value == done + CleanLines(line + RawFrom(tags, tail, pos))
    decreases |tail|
  {
    hide TagsOk, Represents, CleanLines, ParseFrom, RawFrom, RawText, NextTurn, AddText, AddTag, Nesting;
    if tail == "" {
      RepresentsKept(st, done, line);
      NothingParsed(tags, pos, st, open);
    } else {
      var turn := NextTurn(tags, tail, pos);
      TurnFacts(tags, tail, pos);
      TurnParses(tags, tail, pos, st, open);
      var text := AddText(st, tail[..turn.n], pos);
      if turn.Finish? {
        var done1, line1 := TextLines(st, done, line, tail[..turn.n], pos, []);
        assert RawText(tail[..turn.n], pos) + [] == RawText(tail[..turn.n], pos);
        RepresentsKept(text, done1, line1);
      } else {
        var t := turn.token;
        var more := RawFrom(turn.tags, tail[t.end - pos..], t.end);
        var done1, line1 := TextLines(st, done, line, tail[..turn.n], pos, [t] + more);
        TagAppended(text, done1, line1, t);
        Shift(line1, t, more);
        ParseLines(turn.tags, tail[t.end - pos..], t.end, AddTag(text, t), Nesting(open, t).value, done1, line1 + [t]);
      }
    }
  }

  lemma RepresentsKept(st: Lines, done: seq<Option<Token>>, line: seq<Token>)
    requires Represents(st, done, line)
    ensures st.tokens == done + CleanLines(line + [])
  {
    NoLineBreak(line);
  }

  lemma NothingRepresented()
    ensures Represents(NO_LINES, [], [])
  {
    EmptyLine();
    assert [] + Kept([]) == [];
  }

  lemma NothingParsed(tags: Tags, pos: nat, st: Lines, open: seq<Token>)
    requires st.Valid() && ParseFrom(tags, "", pos, st, open).Ok?
    ensures ParseFrom(tags, "", pos, st, open).value == st.tokens && RawFrom(tags, "", pos) == []
  {
  }

  /**
   Exactly which tokens are deleted: cut the tokens of a template that parses into lines at the line breaks
   of its text.  From a line with a tag on which nothing is shown all white space is deleted, its line break
   included; from other lines, and from what follows the last line break, nothing is.
   */
  lemma DeletedByLines(tags: Tags, template: string)
    requires TagsOk(tags) && ParseFrom(tags, template, 0, NO_LINES, []).Ok?
    ensures ParseFrom(tags, template, 0, NO_LINES, []).value == CleanLines(RawFrom(tags, template, 0))
  {
    hide ParseFrom, RawFrom, CleanLines, Represents;
    NothingRepresented();
    ParseLines(tags, template, 0, NO_LINES, [], [], []);
    assert [] + RawFrom(tags, template, 0) == RawFrom(tags, template, 0);
    assert [] + CleanLines(RawFrom(tags, template, 0)) == CleanLines(RawFrom(tags, template, 0));
  }

  // ----- templates from which nothing is deleted -----

  /** No complete line holds a tag and shows nothing. */
  ghost predicate Undisturbed(ts: seq<Token>)
    decreases |ts|
  {
    var n := FirstNewline(ts);
    n < |ts| ==> !(HasTag(ts[..n + 1]) && ShowsNothing(ts[..n + 1])) && Undisturbed(ts[n + 1..])
  }

  /** The first line and the others. */
  lemma FirstLine(ts: seq<Token>)
    requires FirstNewline(ts) < |ts|
    ensures var line, rest := ts[..FirstNewline(ts) + 1], ts[FirstNewline(ts) + 1..];
      && CleanLines(ts) == CleanLine(line) + CleanLines(rest) && Kept(ts) == Kept(line) + Kept(rest)
      && (Undisturbed(ts) <==> !(HasTag(line) && ShowsNothing(line)) && Undisturbed(rest))
      && IsNewline(line[|line| - 1])
  {
    hide CleanLine, HasTag, ShowsNothing, IsNewline;
    var n := FirstNewline(ts);
    assert ts == ts[..n + 1] + ts[n + 1..];
    KeptParts(ts[..n + 1], ts[n + 1..]);
  }

  lemma KeptParts(a: seq<Token>, b: seq<Token>)
    ensures Kept(a + b) == Kept(a) + Kept(b)
  {
  }

  lemma LineCleaned(line: seq<Token>)
    requires line != [] && IsNewline(line[|line| - 1])
    ensures CleanLine(line) == Kept(line) <==> !(HasTag(line) && ShowsNothing(line))
    ensures OnlyBlanksDeleted(CleanLine(line), Kept(line))
  {
    hide HasTag, ShowsNothing;
    assert Cleaned(line[|line| - 1]) == None;
  }

  /** Then, and only then, nothing is deleted: otherwise at least a line break goes. */
  lemma {:induction false} UndisturbedExactly(ts: seq<Token>)
    ensures CleanLines(ts) == Kept(ts) <==> Undisturbed(ts)
    decreases |ts|
  {
    var n := FirstNewline(ts);
    if n < |ts| {
      hide HasTag, ShowsNothing, CleanLines, CleanLine, Kept, Undisturbed, IsNewline, OnlyBlanksDeleted;
      var line, rest := ts[..n + 1], ts[n + 1..];
      FirstLine(ts);
      LineCleaned(line);
      UndisturbedExactly(rest);
      SameSides(CleanLine(line), CleanLines(rest), Kept(line), Kept(rest));
    }
  }

  lemma SameSides(a: seq<Option<Token>>, b: seq<Option<Token>>, a1: seq<Option<Token>>, b1: seq<Option<Token>>)
    requires |a| == |a1|
    ensures a + b == a1 + b1 <==> a == a1 && b == b1
  {
    assert (a + b)[..|a|] == a && (a1 + b1)[..|a1|] == a1;
    assert (a + b)[|a|..] == b && (a1 + b1)[|a1|..] == b1;
  }

  lemma {:induction false} CleanedLines(ts: seq<Token>)
    ensures OnlyBlanksDeleted(CleanLines(ts), Kept(ts))
    decreases |ts|
  {
    var n := FirstNewline(ts);
    if n < |ts| {
      hide HasTag, ShowsNothing, CleanLines, CleanLine, Kept, Undisturbed, IsNewline, OnlyBlanksDeleted;
      FirstLine(ts);
      LineCleaned(ts[..n + 1]);
      CleanedLines(ts[n + 1..]);
      BlanksBeside(CleanLine(ts[..n + 1]), CleanLines(ts[n + 1..]), Kept(ts[..n + 1]), Kept(ts[n + 1..]));
    } else {
      BlanksSelf(Kept(ts));
    }
  }

  lemma BlanksBeside(a: seq<Option<Token>>, b: seq<Option<Token>>, a1: seq<Option<Token>>, b1: seq<Option<Token>>)
    requires OnlyBlanksDeleted(a, a1) && OnlyBlanksDeleted(b, b1)
    ensures OnlyBlanksDeleted(a + b, a1 + b1)
  {
    hide IsBlank;
  }

  /** Without tags, or on one line, nothing is deleted. */
  lemma {:induction false} NoTagsUndisturbed(ts: seq<Token>)
    requires forall k :: 0 <= k < |ts| ==> ts[k].kind == Text
    ensures Undisturbed(ts)
    decreases |ts|
  {
    var n := FirstNewline(ts);
    if n < |ts| {
      NoTagsUndisturbed(ts[n + 1..]);
    }
  }

  lemma OneLineUndisturbed(ts: seq<Token>)
    requires forall k :: 0 <= k < |ts| ==> !IsNewline(ts[k])
    ensures Undisturbed(ts)
  {
    hide IsNewline;
    FirstNewlineAt(ts, |ts|);
  }
}
