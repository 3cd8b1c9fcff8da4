/** The parser of mustache.js (ncm_visualizer/js/mustache.js:300-478): tokens, squashing, nesting. */
module MustacheParser {
  import opened Words
  import opened MustacheScanner

  datatype Kind = Text | Name | Section | Inverted | Close | Partial | Unescaped | SetTags | Comment

  /** A token: what it is, its value, and the slice of the template it stands for. */
  datatype Token = Token(kind: Kind, value: string, start: nat, end: nat)

  /** A token of the final tree; sections carry their inside and, if closed, the place of their closing tag. */
  datatype Node =
    | Leaf(token: Token)
    | Block(token: Token, children: seq<Node>, closeStart: nat)
    | Unclosed(token: Token, children: seq<Node>)

  datatype Error =
    | InvalidTags
    | UnclosedTag(pos: nat)
    | UnopenedSection(name: string, pos: nat)
    | UnclosedSection(name: string, pos: nat)

  datatype Result<+T> = Ok(value: T) | Err(error: Error)

  datatype Tags = Tags(open: string, close: string)

  const DEFAULT_TAGS := Tags("{{", "}}")

  // ----- the current line -----

  /** Tokens so far (`None` for deleted ones) and what is known about the current line. */
  datatype Lines = Lines(tokens: seq<Option<Token>>, spaces: seq<nat>, hasTag: bool, nonSpace: bool) {
    ghost predicate Valid() {
      forall k :: 0 <= k < |spaces| ==> spaces[k] < |tokens| && IsBlank(tokens[spaces[k]])
    }
  }

  /** A text token of one white space character. */
  predicate IsBlank(t: Option<Token>) {
    t.Some? && t.value.kind == Text && |t.value.value| == 1 && IsSpace(t.value.value[0])
  }

  function Deleted(tokens: seq<Option<Token>>, at: seq<nat>): (r: seq<Option<Token>>)
    requires forall k :: 0 <= k < |at| ==> at[k] < |tokens|
    ensures |r| == |tokens|
    ensures forall j :: 0 <= j < |tokens| ==> r[j] == if j in at then None else tokens[j]
    decreases at
  {
    if at == [] then tokens else
    var last := at[|at| - 1];
    Deleted(tokens[last := None], at[..|at| - 1])
  }

  /** At the end of a line that holds a tag and otherwise only white space, that white space goes. */
  function StripSpace(st: Lines): (r: Lines)
    requires st.Valid()
    ensures r.Valid() && |r.tokens| == |st.tokens|
  {
    if st.hasTag && !st.nonSpace then Lines(Deleted(st.tokens, st.spaces), [], false, false)
    else Lines(st.tokens, [], false, false)
  }

  function AppendChar(st: Lines, c: char, pos: nat): (r: Lines)
    requires st.Valid()
    ensures r.Valid()
  {
    var token := Some(Token(Text, [c], pos, pos + 1));
    if IsSpace(c) then Lines(st.tokens + [token], st.spaces + [|st.tokens|], st.hasTag, st.nonSpace)
    else Lines(st.tokens + [token], st.spaces, st.hasTag, true)
  }

  function AddChar(st: Lines, c: char, pos: nat): (r: Lines)
    requires st.Valid()
    ensures r.Valid()
  {
    if c == '\n' then StripSpace(AppendChar(st, c, pos)) else AppendChar(st, c, pos)
  }

  function AddText(st: Lines, s: string, pos: nat): (r: Lines)
    requires st.Valid()
    ensures r.Valid()
    decreases s
  {
    if s == "" then st else AddText(AddChar(st, s[0], pos), s[1..], pos + 1)
  }

  // ----- one tag -----

  function KindOf(mark: string): Kind {
    match mark
    case "#" => Section
    case "^" => Inverted
    case "/" => Close
    case ">" => Partial
    case "{" => Unescaped
    case "&" => Unescaped
    case "=" => SetTags
    case "!" => Comment
    case _ => Name
  }

  /** A tag behind its opening delimiter: its kind, its value, and how much text it takes. */
  datatype Tag = Tag(kind: Kind, value: string, length: nat)

  /** Skips what is left of a `=` or `{` tag after its value, up to the closing delimiter. */
  function SkipTo(tags: Tags, mark: Re, s: string): (n: nat)
    ensures n <= |s|
  {
    var a := Scanned(mark, s);
    a + Search(SpaceThen(tags.close), s[a..])
  }

  /** The character that tells the kind of the tag, if there is one. */
  function Mark(s: string): (m: string)
    ensures |m| <= |s|
  {
    s[..Scanned(TagType, s)]
  }

  /** Where the value starts. */
  function Inner(s: string): (n: nat)
    ensures n <= |s|
  {
    |Mark(s)| + Leading(s[|Mark(s)|..])
  }

  function StopAt(tags: Tags, mark: string): Re {
    match mark
    case "=" => SpaceThen("=")
    case "{" => SpaceThen("}" + tags.close)
    case _ => SpaceThen(tags.close)
  }

  function ValueSize(tags: Tags, s: string): (n: nat)
    ensures n <= |s| - Inner(s)
  {
    Search(StopAt(tags, Mark(s)), s[Inner(s)..])
  }

  /** Text between the value and the closing delimiter. */
  function AfterValue(tags: Tags, mark: string, s: string): (n: nat)
    ensures n <= |s|
  {
    match mark
    case "=" => SkipTo(tags, SpaceThen("="), s)
    case "{" => SkipTo(tags, SpaceThen("}"), s)
    case _ => 0
  }

  /** `None` when the closing delimiter is missing. */
  function ReadTag(tags: Tags, s: string): (r: Option<Tag>)
    ensures r.Some? ==> r.value.length <= |s|
  {
    var end := Inner(s) + ValueSize(tags, s);
    var after := end + AfterValue(tags, Mark(s), s[end..]);
    var closing := Scanned(SpaceThen(tags.close), s[after..]);
    if closing == 0 then None else Some(Tag(KindOf(Mark(s)), s[Inner(s)..end], after + closing))
  }

  function FirstSpace(s: string): (n: nat)
    ensures n <= |s|
    ensures n > 0 ==> !IsSpace(s[0])
    ensures n < |s| ==> IsSpace(s[n])
  {
    if s == "" || IsSpace(s[0]) then 0 else 1 + FirstSpace(s[1..])
  }

  /** `split(/\s+/)` when it gives exactly two parts. */
  function TwoParts(s: string): Option<(string, string)> {
    var n := FirstSpace(s);
    var rest := s[n + Leading(s[n..])..];
    if n == |s| || FirstSpace(rest) < |rest| then None else Some((s[..n], rest))
  }

  // ----- the parsing loop -----

  /** What a tag does to the stack of open sections. */
  function Nesting(open: seq<Token>, t: Token): Result<seq<Token>> {
    if t.kind == Section || t.kind == Inverted then Ok(open + [t])
    else if t.kind != Close then Ok(open)
    else if open == [] then Err(UnopenedSection(t.value, t.start))
    else if open[|open| - 1].value != t.value then Err(UnclosedSection(open[|open| - 1].value, t.start))
    else Ok(open[..|open| - 1])
  }

  ghost predicate TagsOk(tags: Tags) {
    tags.open != "" && tags.close != ""
  }

  /** The delimiters after a tag. */
  function NewTags(tags: Tags, t: Token): Result<Tags> {
    if t.kind != SetTags then Ok(tags)
    else
      match TwoParts(t.value)
      case Some((open, close)) => Ok(Tags(open, close))
      case None => Err(InvalidTags)
  }

  function AddTag(st: Lines, t: Token): (r: Lines)
    requires st.Valid()
    ensures r.Valid()
  {
    Lines(st.tokens + [Some(t)], st.spaces, true, st.nonSpace || t.kind == Name || t.kind == Unescaped)
  }

  /** One turn of the loop, apart from what it does to the line and to the open sections. */
  datatype Turn =
    | Finish(n: nat)                             // `n` characters of text, and no further tag
    | Bad(error: Error)
    | Found(n: nat, token: Token, tags: Tags)    // `n` characters of text, then a tag

  function NextTurn(tags: Tags, tail: string, pos: nat): (t: Turn)
    ensures t.Finish? ==> t.n <= |tail|
    ensures t.Found? ==> t.n < t.token.end - pos <= |tail| && t.token.start == pos + t.n
  {
    var n := Search(TagThenSpace(tags.open), tail);
    var opening := Scanned(TagThenSpace(tags.open), tail[n..]);
    if opening == 0 then Finish(n) else TagTurn(tags, tail[n + opening..], n, pos + n, opening)
  }

  /** A turn with a tag: `s` follows its opening delimiter, which starts at `start`. */
  function TagTurn(tags: Tags, s: string, n: nat, start: nat, opening: nat): (t: Turn)
    ensures !t.Finish?
    ensures t.Found? ==> t.n == n && t.token.start == start && start + opening <= t.token.end <= start + opening + |s|
  {
    match ReadTag(tags, s)
    case None => Bad(UnclosedTag(start + opening + |s|))
    case Some(tag) =>
      var token := Token(tag.kind, tag.value, start, start + opening + tag.length);
      match NewTags(tags, token)
      case Err(e) => Bad(e)
      case Ok(tags1) => Found(n, token, tags1)
  }

  /** Parses the rest `tail` of the template, which starts at `pos`. */
  function ParseFrom(tags: Tags, tail: string, pos: nat, st: Lines, open: seq<Token>): Result<seq<Option<Token>>>
    requires st.Valid()
    decreases |tail|
  {
    if tail == "" then AtEnd(st, open, pos)
    else
      match NextTurn(tags, tail, pos)
      case Finish(n) => AtEnd(AddText(st, tail[..n], pos), open, pos + n)
      case Bad(e) => Err(e)
      case Found(n, token, tags1) =>
        match Nesting(open, token)
        case Err(e) => Err(e)
        case Ok(open1) =>
          ParseFrom(tags1, tail[token.end - pos..], token.end, AddTag(AddText(st, tail[..n], pos), token), open1)
  }

  function AtEnd(st: Lines, open: seq<Token>, pos: nat): Result<seq<Option<Token>>> {
    if open == [] then Ok(st.tokens) else Err(UnclosedSection(open[|open| - 1].value, pos))
  }

  // ----- squashing -----

  /** Appends a token, joining text to text. */
  function Join(done: seq<Token>, t: Token): seq<Token> {
    if t.kind == Text && done != [] && done[|done| - 1].kind == Text then
      var last := done[|done| - 1];
      done[|done| - 1 := Token(Text, last.value + t.value, last.start, t.end)]
    else done + [t]
  }

  function SquashFrom(done: seq<Token>, tokens: seq<Option<Token>>): seq<Token>
    decreases tokens
  {
    if tokens == [] then done
    else SquashFrom(if tokens[0].Some? then Join(done, tokens[0].value) else done, tokens[1..])
  }

  // ----- nesting -----

  /** An open section and what has been collected before it. */
  datatype Frame = Frame(before: seq<Node>, token: Token)

  /** The tree when the tokens end with these sections still open. */
  function Unwound(open: seq<Frame>, collected: seq<Node>): seq<Node>
    decreases |open|
  {
    if open == [] then collected
    else
      var f := open[|open| - 1];
      Unwound(open[..|open| - 1], f.before + [Unclosed(f.token, collected)])
  }

  /**
   `collected` goes into the innermost open section of `open`, or into the tree; `None` when a closing tag
   has no section to close.
   */
  function NestFrom(tokens: seq<Token>, open: seq<Frame>, collected: seq<Node>): Option<seq<Node>>
    decreases tokens
  {
    if tokens == [] then Some(Unwound(open, collected))
    else
      var t := tokens[0];
      if t.kind == Section || t.kind == Inverted then NestFrom(tokens[1..], open + [Frame(collected, t)], [])
      else if t.kind == Close then
        if open == [] then None
        else
          var f := open[|open| - 1];
          NestFrom(tokens[1..], open[..|open| - 1], f.before + [Block(f.token, collected, t.start)])
      else NestFrom(tokens[1..], open, collected + [Leaf(t)])
  }

  const NO_LINES := Lines([], [], false, false)

  function Parse(tags: Tags, template: string): Result<seq<Node>> {
    match ParseFrom(tags, template, 0, NO_LINES, [])
    case Err(e) => Err(e)
    case Ok(tokens) =>
      match NestFrom(SquashFrom([], tokens), [], [])
      case Some(tree) => Ok(tree)
      case None => Err(UnclosedSection("", 0))
  }
}
