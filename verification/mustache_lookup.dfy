/** What looking up a name finds (ncm_visualizer/js/mustache.js:143-175), told without the algorithm. */
module MustacheLookup {
  import opened Words
  import opened MustacheRender

  // ----- names with dots -----

  /** The parts with a dot between each two. */
  function Joined(parts: seq<string>): string
    requires parts != []
  {
    if |parts| == 1 then parts[0] else parts[0] + "." + Joined(parts[1..])
  }

  ghost predicate DotFree(parts: seq<string>) {
    forall k :: 0 <= k < |parts| ==> '.' !in parts[k]
  }

  /** Splitting at dots: no part holds a dot, and joined with dots the parts give the name back. */
  lemma {:induction false} SplitJoins(s: string)
    ensures DotFree(SplitDots(s)) && Joined(SplitDots(s)) == s
  {
    if s != "" {
      var r := SplitDots(s[1..]);
      SplitJoins(s[1..]);
      assert s == [s[0]] + s[1..];
      if s[0] == '.' {
        assert ([""] + r)[1..] == r;
        assert Joined([""] + r) == "" + "." + Joined(r);
      } else {
        FrontJoins(s[0], r);
      }
    }
  }

  lemma FrontJoins(c: char, r: seq<string>)
    requires r != [] && c != '.' && DotFree(r)
    ensures DotFree([[c] + r[0]] + r[1..]) && Joined([[c] + r[0]] + r[1..]) == [c] + Joined(r)
  {
    var x := [[c] + r[0]] + r[1..];
    assert x[1..] == r[1..];
    if |r| > 1 {
      assert [c] + r[0] + "." + Joined(r[1..]) == [c] + (r[0] + "." + Joined(r[1..]));
    }
  }

  /** A text without dots in front of a dot. */
  lemma {:induction false} SplitAtDot(a: string, rest: string)
    requires '.' !in a
    ensures SplitDots(a + "." + rest) == [a] + SplitDots(rest)
  {
    var s := a + "." + rest;
    if a == "" {
      assert s == "." + rest;
      assert s[1..] == rest;
    } else {
      assert s[1..] == a[1..] + "." + rest;
      SplitAtDot(a[1..], rest);
      assert s[0] == a[0];
      assert a == [a[0]] + a[1..];
      assert ([a[1..]] + SplitDots(rest))[1..] == SplitDots(rest);
    }
  }

  lemma {:induction false} SplitNoDot(a: string)
    requires '.' !in a
    ensures SplitDots(a) == [a]
  {
    if a != "" {
      SplitNoDot(a[1..]);
      assert a == [a[0]] + a[1..];
      assert [a[1..]][1..] == [];
    }
  }

  /** Only splitting does that: the parts between the dots are determined. */
  lemma {:induction false} JoinSplits(parts: seq<string>)
    requires parts != [] && DotFree(parts)
    ensures SplitDots(Joined(parts)) == parts
  {
    assert '.' !in parts[0];
    if |parts| == 1 {
      SplitNoDot(parts[0]);
    } else {
      JoinSplits(parts[1..]);
      SplitAtDot(parts[0], Joined(parts[1..]));
      assert parts == [parts[0]] + parts[1..];
    }
  }

  // ----- nested views -----

  /** The views from the innermost one outwards. */
  function Views(ctx: Context): (r: seq<Value>)
    ensures r != [] && r[0] == ctx.view
    decreases ctx
  {
    [ctx.view] + if ctx.parent.None? then [] else Views(ctx.parent.value)
  }

  lemma OuterViews(ctx: Context)
    requires ctx.parent.Some?
    ensures Views(ctx)[1..] == Views(ctx.parent.value)
    ensures forall j :: 0 <= j < |Views(ctx.parent.value)| ==> Views(ctx.parent.value)[j] == Views(ctx)[j + 1]
  {
  }

  /** What the caller gets for a value that was found: a function is called on the innermost view. */
  function Answer(h: Host, ctx: Context, v: Value): Value {
    if v.Fn? then h.call(v, ctx.view) else v
  }

  /** The search goes past the views that give null. */
  lemma {:induction false} WalkFinds(h: Host, ctx: Context, name: string, k: nat)
    requires k < |Views(ctx)|
    requires forall j :: 0 <= j < k ==> InView(h, Views(ctx)[j], name) == Some(Null)
    requires InView(h, Views(ctx)[k], name).Some? && InView(h, Views(ctx)[k], name) != Some(Null)
    ensures Walk(h, ctx, name) == InView(h, Views(ctx)[k], name)
    decreases ctx
  {
    hide InView, Views;
    if k > 0 {
      MoreViews(ctx, k);
      OuterViews(ctx);
      WalkFinds(h, ctx.parent.value, name, k - 1);
    }
  }

  lemma MoreViews(ctx: Context, k: nat)
    requires 0 < k < |Views(ctx)|
    ensures ctx.parent.Some?
  {
  }

  lemma {:induction false} WalkFindsNothing(h: Host, ctx: Context, name: string)
    requires forall j :: 0 <= j < |Views(ctx)| ==> InView(h, Views(ctx)[j], name) == Some(Null)
    ensures Walk(h, ctx, name) == Some(Null)
    decreases ctx
  {
    hide InView, Views;
    assert InView(h, Views(ctx)[0], name) == Some(Null);
    if ctx.parent.Some? {
      OuterViews(ctx);
      WalkFindsNothing(h, ctx.parent.value, name);
    }
  }

  // ----- what a name with dots finds -----

  /** Following the fields `parts` from object to object leads from `v` to `r`. */
  predicate Leads(v: Value, parts: seq<string>, r: Value)
    decreases parts
  {
    if parts == [] then v == r
    else v.Obj? && parts[0] in v.fields && Leads(v.fields[parts[0]], parts[1..], r)
  }

  /** Following them from object to object ends early at a field that is missing or null. */
  predicate Misses(v: Value, parts: seq<string>)
    decreases parts
  {
    v.Obj? && parts != [] &&
    (parts[0] !in v.fields || v.fields[parts[0]] == Null || Misses(v.fields[parts[0]], parts[1..]))
  }

  lemma {:induction false} DigLeads(h: Host, v: Value, parts: seq<string>, r: Value)
    requires Leads(v, parts, r)
    ensures Dig(h, v, parts) == r
    decreases parts
  {
    if parts != [] {
      DigLeads(h, v.fields[parts[0]], parts[1..], r);
    }
  }

  lemma {:induction false} DigMisses(h: Host, v: Value, parts: seq<string>)
    requires Misses(v, parts)
    ensures Dig(h, v, parts) == Null
    decreases parts
  {
    if parts[0] in v.fields && v.fields[parts[0]] != Null {
      DigMisses(h, v.fields[parts[0]], parts[1..]);
    }
  }

  lemma DottedJoined(parts: seq<string>)
    requires |parts| > 1 && DotFree(parts) && parts[0] != ""
    ensures Dotted(Joined(parts)) && Joined(parts) != "."
  {
    var name, rest := Joined(parts), Joined(parts[1..]);
    assert name[0] == parts[0][0] && parts[0][0] in parts[0];
    assert name[|parts[0]|] == '.';
  }

  /**
   A name with dots: if in some view its parts lead through nested objects to a value, at any depth, and all
   views inside that one miss it, that value is found.
   */
  lemma DottedFinds(h: Host, ctx: Context, parts: seq<string>, k: nat, r: Value)
    requires |parts| > 1 && DotFree(parts) && parts[0] != "" && k < |Views(ctx)|
    requires forall j :: 0 <= j < k ==> Misses(Views(ctx)[j], parts)
    requires r != Null && Leads(Views(ctx)[k], parts, r)
    ensures Resolve(h, ctx, Joined(parts)) == Some(Answer(h, ctx, r))
  {
    hide Joined, SplitDots, Dig, Leads, Misses, Dotted, Views, Walk;
    DottedJoined(parts);
    JoinSplits(parts);
    DigLeads(h, Views(ctx)[k], parts, r);
    forall j | 0 <= j < k
      ensures InView(h, Views(ctx)[j], Joined(parts)) == Some(Null)
    {
      DigMisses(h, Views(ctx)[j], parts);
    }
    WalkFinds(h, ctx, Joined(parts), k);
  }

  /** A value on the way that JavaScript takes for false, and that is not null, is the answer itself. */
  lemma FalsyStops(h: Host, ctx: Context, parts: seq<string>, n: nat, r: Value)
    requires |parts| > 1 && DotFree(parts) && parts[0] != "" && n <= |parts| && Leads(ctx.view, parts[..n], r)
    requires r == Bool(false) || r == Str("") || (r.Number? && r.falsy)
    ensures Resolve(h, ctx, Joined(parts)) == Some(r)
  {
    hide Joined, SplitDots, Dig, Leads, Dotted;
    DottedJoined(parts);
    JoinSplits(parts);
    DigStops(h, ctx.view, parts, n, r);
  }

  lemma {:induction false} DigStops(h: Host, v: Value, parts: seq<string>, n: nat, r: Value)
    requires n <= |parts| && Leads(v, parts[..n], r) && !Truthy(r)
    ensures Dig(h, v, parts) == r
    decreases parts
  {
    if n > 0 {
      assert parts[..n][1..] == parts[1..][..n - 1];
      DigStops(h, v.fields[parts[0]], parts[1..], n - 1, r);
    }
  }

  /** In particular a field of a field. */
  lemma FieldOfField(h: Host, f: map<string, Value>, g: map<string, Value>, parent: Option<Context>,
                     a: string, b: string)
    requires a != "" && '.' !in a && '.' !in b && a in f && f[a] == Obj(g) && b in g && g[b] != Null
    ensures Resolve(h, Context(Obj(f), parent), a + "." + b) == Some(if g[b].Fn? then h.call(g[b], Obj(f)) else g[b])
  {
    var ctx, parts := Context(Obj(f), parent), [a, b];
    assert parts[1..] == [b] && [b][1..] == [];
    assert Joined([b]) == b;
    assert Joined(parts) == a + "." + b;
    assert Leads(g[b], [], g[b]);
    assert Leads(Obj(g), [b], g[b]);
    assert Leads(Obj(f), parts, g[b]);
    DottedFinds(h, ctx, parts, 0, g[b]);
  }

  // ----- what a plain name finds -----

  /** The object has something other than null under the name. */
  predicate Has(v: Value, name: string) {
    v.Obj? && name in v.fields && v.fields[name] != Null
  }

  lemma PlainInView(h: Host, v: Value, name: string)
    requires v.Obj? && !Dotted(name)
    ensures InView(h, v, name) == Some(if Has(v, name) then v.fields[name] else Null)
  {
  }

  /**
   A name without dots, or with one in front and more behind it, looked up in nested objects: the innermost one that
   has it answers, and null is the answer if none has it.
   */
  lemma InnermostAnswers(h: Host, ctx: Context, name: string)
    requires '.' !in name || (name[0] == '.' && name != ".")
    requires forall j :: 0 <= j < |Views(ctx)| ==> Views(ctx)[j].Obj?
    ensures (forall j :: 0 <= j < |Views(ctx)| ==> !Has(Views(ctx)[j], name)) ==> Resolve(h, ctx, name) == Some(Null)
    ensures forall k :: 0 <= k < |Views(ctx)| && Has(Views(ctx)[k], name)
                        && (forall j :: 0 <= j < k ==> !Has(Views(ctx)[j], name)) ==>
              Resolve(h, ctx, name) == Some(Answer(h, ctx, Views(ctx)[k].fields[name]))
  {
    hide Views, Walk, InView;
    if '.' !in name {
      NotDotted(name);
    }
    forall j | 0 <= j < |Views(ctx)|
      ensures InView(h, Views(ctx)[j], name) ==
              Some(if Has(Views(ctx)[j], name) then Views(ctx)[j].fields[name] else Null)
    {
      PlainInView(h, Views(ctx)[j], name);
    }
    if forall j :: 0 <= j < |Views(ctx)| ==> !Has(Views(ctx)[j], name) {
      WalkFindsNothing(h, ctx, name);
    }
    forall k | 0 <= k < |Views(ctx)| && Has(Views(ctx)[k], name)
               && (forall j :: 0 <= j < k ==> !Has(Views(ctx)[j], name))
      ensures Resolve(h, ctx, name) == Some(Answer(h, ctx, Views(ctx)[k].fields[name]))
    {
      WalkFinds(h, ctx, name, k);
    }
  }

  lemma NotDotted(name: string)
    requires '.' !in name
    ensures !Dotted(name) && name != "."
  {
    assert "."[0] == '.';
  }

  /** A dot alone is the innermost view itself. */
  lemma DotIsView(h: Host, ctx: Context)
    ensures Resolve(h, ctx, ".") == Some(if ctx.view.Fn? then h.call(ctx.view, ctx.view) else ctx.view)
  {
  }

  // ----- falsy values -----

  /** The values that JavaScript takes for false: null, false, the numbers told to be falsy, and the empty string. */
  lemma FalsyAre(v: Value)
    ensures !Truthy(v) <==> v == Null || v == Bool(false) || (v.Number? && v.falsy) || v == Str("")
  {
  }
}
