/** The renderer of mustache.js (ncm_visualizer/js/mustache.js:56-70 and 129-294): contexts, lookup, escaping. */
module MustacheRender {
  import opened Words
  import opened MustacheParser

  /** JavaScript values; `falsy` tells 0 and NaN from other numbers, `id` one function from another. */
  datatype Value =
    | Null
    | Bool(value: bool)
    | Number(falsy: bool, digits: string)
    | Str(text: string)
    | List(items: seq<Value>)
    | Obj(fields: map<string, Value>)
    | Fn(id: int)

  datatype Context = Context(view: Value, parent: Option<Context>)

  /**
   What lies outside: properties of values that are not plain objects, conversion to text, what a function
   returns when it is called on a view, and when it is given the raw inside of a section.
   */
  datatype Host = Host(
    property: (Value, string) -> Value,
    shown: Value -> string,
    call: (Value, Value) -> Value,
    section: (Value, Context, string) -> Value)

  predicate Truthy(v: Value) {
    match v
    case Null => false
    case Bool(b) => b
    case Number(falsy, _) => !falsy
    case Str(s) => s != ""
    case _ => true
  }

  function Property(h: Host, v: Value, name: string): Value {
    if v.Obj? then (if name in v.fields then v.fields[name] else Null) else h.property(v, name)
  }

  // ----- lookup -----

  /** `split('.')`. */
  function SplitDots(s: string): (r: seq<string>)
    ensures r != []
  {
    if s == "" then [""]
    else
      var r := SplitDots(s[1..]);
      if s[0] == '.' then [""] + r else [[s[0]] + r[0]] + r[1..]
  }

  /** A dot behind the first character, and none in front of it: the first dot counts. */
  predicate Dotted(name: string) {
    name != "" && name[0] != '.' && '.' in name
  }

  function Dig(h: Host, v: Value, names: seq<string>): Value
    decreases names
  {
    if names == [] || !Truthy(v) then v else Dig(h, Property(h, v, names[0]), names[1..])
  }

  /** What one view has under the name; `None` when reading the property of null fails. */
  function InView(h: Host, view: Value, name: string): Option<Value> {
    if Dotted(name) then Some(Dig(h, view, SplitDots(name)))
    else if view == Null then None
    else Some(Property(h, view, name))
  }

  /** The innermost view that has the name. */
  function Walk(h: Host, ctx: Context, name: string): Option<Value>
    decreases ctx
  {
    var found := InView(h, ctx.view, name);
    if found == Some(Null) && ctx.parent.Some? then Walk(h, ctx.parent.value, name) else found
  }

  function Stored(h: Host, ctx: Context, name: string): Option<Value> {
    if name == "." then Some(ctx.view) else Walk(h, ctx, name)
  }

  /** Lookup without any cache; a function is called on the view of the context. */
  function Resolve(h: Host, ctx: Context, name: string): Option<Value> {
    var stored := Stored(h, ctx, name);
    if stored.Some? && stored.value.Fn? then Some(h.call(stored.value, ctx.view)) else stored
  }

  /** A context as the renderer holds it, with the names looked up so far. */
  class ContextObject {
    const view: Value
    const parent: ContextObject?
    var cache: map<string, Value>
    /** The view and those of the parents, as a value. */
    const model: Context

    ghost predicate Linked()
      decreases model
    {
      && model.view == view
      && (parent == null ==> model.parent == None)
      && (parent != null ==> model.parent == Some(parent.model) && parent.Linked())
    }

    ghost predicate Valid(h: Host)
      reads this
    {
      Linked() && forall name :: name in cache ==> Stored(h, model, name) == Some(cache[name])
    }

    constructor (view: Value, parent: ContextObject?)
      requires parent != null ==> parent.Linked()
      ensures Linked() && cache == map[]
      ensures model == Context(view, if parent == null then None else Some(parent.model))
    {
      this.view := view;
      this.parent := parent;
      cache := map[];
      model := Context(view, if parent == null then None else Some(parent.model));
    }

    /** The cached lookup gives what the walk through the parents gives. */
    method Lookup(h: Host, name: string) returns (r: Option<Value>)
      requires Valid(h)
      modifies this`cache
      ensures Valid(h) && r == Resolve(h, model, name)
    {
      var value := if name in cache then cache[name] else Null;
      if !Truthy(value) {
        if name == "." {
          value := view;
        } else {
          var context: ContextObject? := this;
          ghost var left := Some(model);
          while context != null
            invariant left == if context == null then None else Some(context.model)
            invariant context != null ==> context.Linked() && Walk(h, context.model, name) == Walk(h, model, name)
            invariant context == null ==> Some(value) == Walk(h, model, name)
            decreases left
          {
            if Dotted(name) {
              value := context.view;
              var names := SplitDots(name);
              var i := 0;
              while i < |names| && Truthy(value)
                invariant 0 <= i <= |names|
                invariant Dig(h, value, names[i..]) == Dig(h, context.view, names)
              {
                assert names[i..][1..] == names[i + 1..];
                value := Property(h, value, names[i]);
                i := i + 1;
              }
            } else {
              if context.view == Null {
                return None;
              }
              value := Property(h, context.view, name);
            }
            if value != Null {
              break;
            }
            context := context.parent;
            left := if context == null then None else Some(context.model);
          }
        }
        cache := cache[name := value];
      }
      if value.Fn? {
        value := h.call(value, view);
      }
      r := Some(value);
    }
  }

  // ----- escaping -----

  predicate Special(c: char) {
    c in {'&', '<', '>', '"', '\'', '/'}
  }

  function Entity(c: char): string {
    match c
    case '&' => "&amp;"
    case '<' => "&lt;"
    case '>' => "&gt;"
    case '"' => "&quot;"
    case '\'' => "&#39;"
    case '/' => "&#x2F;"
    case _ => [c]
  }

  function EscapeHtml(s: string): string {
    if s == "" then "" else Entity(s[0]) + EscapeHtml(s[1..])
  }

  /** The character that the front of an escaped text stands for, and how much of it. */
  function Front(s: string): (r: (char, nat))
    requires s != ""
    ensures 0 < r.1 <= |s|
  {
    if "&amp;" <= s then ('&', 5)
    else if "&lt;" <= s then ('<', 4)
    else if "&gt;" <= s then ('>', 4)
    else if "&quot;" <= s then ('"', 6)
    else if "&#39;" <= s then ('\'', 5)
    else if "&#x2F;" <= s then ('/', 6)
    else (s[0], 1)
  }

  /** What a browser shows for an escaped text. */
  function Unescape(s: string): string
    decreases |s|
  {
    if s == "" then "" else [Front(s).0] + Unescape(s[Front(s).1..])
  }

  lemma FrontOfEntity(c: char, rest: string)
    ensures Front(Entity(c) + rest) == (c, |Entity(c)|)
  {
    var s := Entity(c) + rest;
    assert s[0] == Entity(c)[0];
    assert |Entity(c)| > 1 ==> s[1] == Entity(c)[1];
    assert |Entity(c)| > 2 ==> s[2] == Entity(c)[2];
    assert Entity(c) <= s;
    if !Special(c) {
      assert Entity(c) == [c] && s[0] == c;
    }
  }

  /** Escaping loses nothing: the browser shows the text that was put in. */
  lemma {:induction false} UnescapeEscape(s: string)
    ensures Unescape(EscapeHtml(s)) == s
  {
    if s != "" {
      hide Entity, Front, Unescape;
      var rest := EscapeHtml(s[1..]);
      FrontOfEntity(s[0], rest);
      UnescapeEscape(s[1..]);
      UnescapeStep(Entity(s[0]), s[0], rest);
    }
  }

  lemma UnescapeStep(e: string, c: char, rest: string)
    requires e != "" && Front(e + rest) == (c, |e|)
    ensures Unescape(e + rest) == [c] + Unescape(rest)
  {
    hide Front;
    assert (e + rest)[|e|..] == rest;
  }

  /** Escaped text holds no character that could open or close a tag or a quoted attribute. */
  lemma {:induction false} EscapedIsInert(s: string)
    ensures forall k :: 0 <= k < |EscapeHtml(s)| ==> EscapeHtml(s)[k] !in {'<', '>', '"', '\'', '/'}
  {
    if s != "" {
      EscapedIsInert(s[1..]);
      EntityIsInert(s[0]);
    }
  }

  lemma EntityIsInert(c: char)
    ensures forall k :: 0 <= k < |Entity(c)| ==> Entity(c)[k] !in {'<', '>', '"', '\'', '/'}
  {
  }

  // ----- rendering -----

  function Concat(a: Option<string>, b: Option<string>): Option<string> {
    if a.Some? && b.Some? then Some(a.value + b.value) else None
  }

  /** The raw inside of a section: its slice of the template, up to the end for one that is not closed. */
  function RawInside(template: string, node: Node): string
    requires !node.Leaf?
  {
    var from := node.token.end;
    var to := if node.Block? && node.closeStart < |template| then node.closeStart else |template|;
    if from <= to then template[from..to] else ""
  }

  /** The text of a token list; `None` when a lookup fails. */
  function Render(h: Host, template: string, nodes: seq<Node>, ctx: Context): Option<string>
    decreases nodes, 0
  {
    if nodes == [] then Some("")
    else Concat(RenderNode(h, template, nodes[0], ctx), Render(h, template, nodes[1..], ctx))
  }

  function RenderNode(h: Host, template: string, node: Node, ctx: Context): Option<string>
    decreases node, 0
  {
    if node.Leaf? then RenderLeaf(h, node.token, ctx)
    else
      match Resolve(h, ctx, node.token.value)
      case None => None
      case Some(v) =>
        if node.token.kind == Inverted then
          (if !Truthy(v) || v == List([]) then Render(h, template, node.children, ctx) else Some(""))
        else
          match v
          case List(items) => RenderEach(h, template, node.children, items, ctx)
          case Obj(_) => Render(h, template, node.children, Context(v, Some(ctx)))
          case Fn(_) => Some(Shown(h, h.section(v, ctx, RawInside(template, node))))
          case _ => if Truthy(v) then Render(h, template, node.children, ctx) else Some("")
  }

  function RenderEach(h: Host, template: string, children: seq<Node>, items: seq<Value>, ctx: Context): Option<string>
    decreases children, |items| + 1
  {
    if items == [] then Some("")
    else Concat(Render(h, template, children, Context(items[0], Some(ctx))),
                RenderEach(h, template, children, items[1..], ctx))
  }

  /** What is appended for a value. */
  function Shown(h: Host, v: Value): string {
    if v == Null then "" else h.shown(v)
  }

  /** Partials are not registered, so that they render to nothing. */
  function RenderLeaf(h: Host, t: Token, ctx: Context): Option<string> {
    match t.kind
    case Text => Some(t.value)
    case Name => RenderValue(h, t.value, ctx, true)
    case Unescaped => RenderValue(h, t.value, ctx, false)
    case _ => Some("")
  }

  function RenderValue(h: Host, name: string, ctx: Context, escaped: bool): Option<string> {
    match Resolve(h, ctx, name)
    case None => None
    case Some(v) =>
      if v == Null then Some("") else if escaped then Some(EscapeHtml(h.shown(v))) else Some(h.shown(v))
  }

  /** `renderTokens`. */
  method RenderTokens(h: Host, template: string, tokens: seq<Node>, context: ContextObject) returns (r: Option<string>)
    requires context.Valid(h)
    modifies context`cache
    ensures context.Valid(h)
    ensures r == Render(h, template, tokens, context.model)
    decreases tokens, 0
  {
    hide Resolve, EscapeHtml;
    var buffer := "";
    var i := 0;
    assert tokens[0..] == tokens;
    ConcatEmpty(Render(h, template, tokens, context.model));
    while i < |tokens|
      invariant 0 <= i <= |tokens|
      invariant context.Valid(h)
      invariant Concat(Some(buffer), Render(h, template, tokens[i..], context.model)) ==
                Render(h, template, tokens, context.model)
    {
      assert tokens[i..][1..] == tokens[i + 1..];
      var part := RenderToken(h, template, tokens[i], context);
      if part.None? {
        return None;
      }
      ConcatAssociates(buffer, part.value, Render(h, template, tokens[i + 1..], context.model));
      buffer := buffer + part.value;
      i := i + 1;
    }
    r := Some(buffer);
    assert buffer + "" == buffer;
  }

  lemma ConcatEmpty(a: Option<string>)
    ensures Concat(Some(""), a) == a && Concat(a, Some("")) == a
  {
    if a.Some? {
      assert "" + a.value == a.value && a.value + "" == a.value;
    }
  }

  lemma ConcatAssociates(a: string, b: string, c: Option<string>)
    ensures Concat(Some(a), Concat(Some(b), c)) == Concat(Some(a + b), c)
  {
    if c.Some? {
      assert a + (b + c.value) == a + b + c.value;
    }
  }

  /** One turn of `renderTokens`. */
  method RenderToken(h: Host, template: string, token: Node, context: ContextObject) returns (r: Option<string>)
    requires context.Valid(h)
    modifies context`cache
    ensures context.Valid(h)
    ensures r == RenderNode(h, template, token, context.model)
    decreases token, 1
  {
    hide Resolve, EscapeHtml, Render;
    match token {
      case Leaf(t) =>
        match t.kind {
          case Text =>
            r := Some(t.value);
          case Name | Unescaped =>
            var value := context.Lookup(h, t.value);
            if value.None? {
              return None;
            }
            if value.value == Null {
              r := Some("");
            } else {
              var shown := h.shown(value.value);
              r := Some(if t.kind == Name then EscapeHtml(shown) else shown);
            }
          case _ =>
            r := Some("");
        }
      case Block(_, _, _) =>
        r := RenderSection(h, template, token, context);
      case Unclosed(_, _) =>
        r := RenderSection(h, template, token, context);
    }
  }

  /** A section or an inverted section. */
  method RenderSection(h: Host, template: string, token: Node, context: ContextObject) returns (r: Option<string>)
    requires context.Valid(h) && !token.Leaf?
    modifies context`cache
    ensures context.Valid(h)
    ensures r == RenderNode(h, template, token, context.model)
    decreases token, 0
  {
    hide Resolve, EscapeHtml, Render, RawInside;
    var t, children := token.token, token.children;
    var value := context.Lookup(h, t.value);
    if value.None? {
      return None;
    }
    var v := value.value;
    if t.kind == Inverted {
      if !Truthy(v) || (v.List? && |v.items| == 0) {
        r := RenderTokens(h, template, children, context);
      } else {
        r := Some("");
      }
    } else {
      match v {
        case List(items) =>
          r := RenderItems(h, template, children, items, context);
        case Obj(_) =>
          var child := new ContextObject(v, context);
          r := RenderTokens(h, template, children, child);
        case Fn(_) =>
          r := Some(Shown(h, h.section(v, context.model, RawInside(template, token))));
        case Null =>
          r := Some("");
        case Bool(_) | Number(_, _) | Str(_) =>
          if Truthy(v) {
            r := RenderTokens(h, template, children, context);
          } else {
            r := Some("");
          }
      }
    }
  }

  /** The section once for every item. */
  method RenderItems(h: Host, template: string, children: seq<Node>, items: seq<Value>, context: ContextObject)
    returns (r: Option<string>)
    requires context.Valid(h)
    ensures context.Valid(h)
    ensures r == RenderEach(h, template, children, items, context.model)
    decreases children, 1
  {
    hide Resolve, Render;
    var buffer := "";
    var j := 0;
    assert items[0..] == items;
    ConcatEmpty(RenderEach(h, template, children, items, context.model));
    while j < |items|
      invariant 0 <= j <= |items|
      invariant context.Valid(h)
      invariant Concat(Some(buffer), RenderEach(h, template, children, items[j..], context.model)) ==
                RenderEach(h, template, children, items, context.model)
    {
      assert items[j..][1..] == items[j + 1..];
      var child := new ContextObject(items[j], context);
      var part := RenderTokens(h, template, children, child);
      if part.None? {
        return None;
      }
      ConcatAssociates(buffer, part.value, RenderEach(h, template, children, items[j + 1..], context.model));
      buffer := buffer + part.value;
      j := j + 1;
    }
    r := Some(buffer);
    assert buffer + "" == buffer;
  }
}
