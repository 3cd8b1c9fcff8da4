/** The scanner of mustache.js (ncm_visualizer/js/mustache.js:28-127), its regular expressions replaced by matchers. */
module MustacheScanner {
  import opened Words

  /** The characters that `\s` matches. */
  predicate IsSpace(c: char) {
    || c in {' ', '\t', '\n', '\r', '\U{000B}', '\U{000C}', '\U{00A0}', '\U{1680}', '\U{FEFF}'}
    || '\U{2000}' <= c <= '\U{200A}'
    || c in {'\U{2028}', '\U{2029}', '\U{202F}', '\U{205F}', '\U{3000}'}
  }

  /** Number of white space characters at the front. */
  function Leading(s: string): (n: nat)
    ensures n <= |s|
    ensures forall k :: 0 <= k < n ==> IsSpace(s[k])
    ensures n < |s| ==> !IsSpace(s[n])
  {
    if s == "" || !IsSpace(s[0]) then 0 else 1 + Leading(s[1..])
  }

  /** The regular expressions that the parser uses. */
  datatype Re =
    | TagThenSpace(tag: string)   // tag \s*
    | SpaceThen(tag: string)      // \s* tag
    | White                       // \s*
    | TagType                     // # ^ / > { & = !

  predicate IsTagType(c: char) {
    c in {'#', '^', '/', '>', '{', '&', '=', '!'}
  }

  /** Length of the match at the front of `s`; `tag` does not begin with white space. */
  function Match(re: Re, s: string): (n: Option<nat>)
    ensures n.Some? ==> n.value <= |s|
  {
    match re
    case TagThenSpace(tag) => if tag <= s then Some(|tag| + Leading(s[|tag|..])) else None
    case SpaceThen(tag) => var w := Leading(s); if tag <= s[w..] then Some(w + |tag|) else None
    case White => Some(Leading(s))
    case TagType => if s != "" && IsTagType(s[0]) then Some(1) else None
  }

  /** Index of the first match, the whole length when there is none. */
  function Search(re: Re, s: string): (n: nat)
    ensures n <= |s|
    ensures forall k :: 0 <= k < n ==> Match(re, s[k..]) == None
    ensures n < |s| ==> Match(re, s[n..]).Some?
  {
    if s == "" || Match(re, s).Some? then
      assert s[0..] == s;
      0
    else
      var n := 1 + Search(re, s[1..]);
      assert s[0..] == s;
      assert forall k :: 1 <= k <= |s| ==> s[k..] == s[1..][k - 1..];
      n
  }

  /** Length of the text that `scan` consumes: a match at the front, or nothing. */
  function Scanned(re: Re, s: string): (n: nat)
    ensures n <= |s|
  {
    var m := Match(re, s);
    if m.Some? then m.value else 0
  }

  class Scanner {
    const text: string
    var tail: string
    var pos: nat

    ghost predicate Valid()
      reads this
    {
      pos <= |text| && tail == text[pos..]
    }

    constructor (text: string)
      ensures Valid() && this.text == text && pos == 0 && tail == text
    {
      this.text := text;
      tail := text;
      pos := 0;
    }

    method Eos() returns (r: bool)
      ensures r <==> tail == ""
    {
      r := tail == "";
    }

    method Scan(re: Re) returns (matched: string)
      requires Valid()
      modifies this
      ensures Valid()
      ensures var n := Scanned(re, old(tail));
        matched == old(tail)[..n] && tail == old(tail)[n..] && pos == old(pos) + n
    {
      var m := Match(re, tail);
      match m {
        case Some(n) =>
          matched := tail[..n];
          tail := tail[n..];
          pos := pos + n;
        case None =>
          matched := "";
      }
    }

    method ScanUntil(re: Re) returns (skipped: string)
      requires Valid()
      modifies this
      ensures Valid()
      ensures var n := Search(re, old(tail));
        skipped == old(tail)[..n] && tail == old(tail)[n..] && pos == old(pos) + n
    {
      hide Search, Match;
      var n := Search(re, tail);
      if n == |tail| {
        skipped := tail;
        pos := pos + |tail|;
        tail := "";
      } else if n == 0 {
        skipped := "";
      } else {
        skipped := tail[..n];
        tail := tail[n..];
        pos := pos + n;
      }
    }
  }
}
