/** Squashing (ncm_visualizer/js/mustache.js:336-356): what it makes of the parts of a token list. */
module MustacheSquashing {
  import opened Words
  import opened MustacheParser
  import opened MustacheTokens

  /** No text token at the end. */
  predicate Solid(done: seq<Token>) {
    done == [] || done[|done| - 1].kind != Text
  }

  lemma SquashStep(done: seq<Token>, t: Token, rest: seq<Option<Token>>)
    ensures SquashFrom(done, [Some(t)] + rest) == SquashFrom(Join(done, t), rest)
  {
    assert ([Some(t)] + rest)[1..] == rest;
  }

  lemma SquashTag(done: seq<Token>, t: Token, k: seq<Option<Token>>)
    requires t.kind != Text
    ensures SquashFrom(done, [Some(t)] + k) == SquashFrom(done + [t], k)
  {
    SquashStep(done, t, k);
  }

  lemma SquashNothing(done: seq<Token>)
    ensures SquashFrom(done, []) == done
  {
  }

  /** Tokens in front of the last one squashed do not matter. */
  lemma {:induction false} SquashBehind(front: seq<Token>, done: seq<Token>, tokens: seq<Option<Token>>)
    requires done != [] || Solid(front)
    ensures SquashFrom(front + done, tokens) == front + SquashFrom(done, tokens)
    decreases tokens
  {
    if tokens != [] {
      if tokens[0].Some? {
        var t := tokens[0].value;
        JoinBehind(front, done, t);
        SquashBehind(front, Join(done, t), tokens[1..]);
      } else {
        SquashBehind(front, done, tokens[1..]);
      }
    }
  }

  lemma JoinBehind(front: seq<Token>, done: seq<Token>, t: Token)
    requires done != [] || Solid(front)
    ensures Join(front + done, t) == front + Join(done, t) && Join(done, t) != []
  {
    if done == [] {
      assert front + done == front;
    } else {
      assert (front + done)[|front + done| - 1] == done[|done| - 1];
    }
  }


  lemma {:induction false} SquashAppend(done: seq<Token>, a: seq<Option<Token>>, k: seq<Option<Token>>)
    ensures SquashFrom(done, a + k) == SquashFrom(SquashFrom(done, a), k)
    decreases a
  {
    hide Join;
    if a == [] {
      assert a + k == k;
    } else {
      assert (a + k)[1..] == a[1..] + k;
      SquashAppend(if a[0].Some? then Join(done, a[0].value) else done, a[1..], k);
    }
  }

  /** Where one of the two parts has a tag next to the other, they are squashed by themselves. */
  lemma SquashApart(a: seq<Option<Token>>, b: seq<Option<Token>>)
    requires a == [] || EndsInTag(a) || StartsWithTag(b)
    ensures SquashFrom([], a + b) == SquashFrom([], a) + SquashFrom([], b)
  {
    hide SquashFrom;
    SquashAppend([], a, b);
    if a == [] || EndsInTag(a) {
      TagLast(a);
      SquashBehind(SquashFrom([], a), [], b);
      assert SquashFrom([], a) + [] == SquashFrom([], a);
    } else {
      var t := b[0].value;
      assert b == [Some(t)] + b[1..];
      SquashTag(SquashFrom([], a), t, b[1..]);
      SquashTag([], t, b[1..]);
      assert [] + [t] == [t];
      SquashBehind(SquashFrom([], a), [t], b[1..]);
    }
  }

  predicate StartsWithTag(toks: seq<Option<Token>>) {
    toks != [] && toks[0].Some? && toks[0].value.kind != Text
  }

  predicate EndsInTag(toks: seq<Option<Token>>) {
    toks != [] && toks[|toks| - 1].Some? && toks[|toks| - 1].value.kind != Text
  }

  lemma TagLast(a: seq<Option<Token>>)
    requires a == [] || EndsInTag(a)
    ensures Solid(SquashFrom([], a))
  {
    hide SquashFrom;
    if a == [] {
      SquashNothing([]);
    } else {
      var n := |a| - 1;
      assert a == a[..n] + [a[n]] && [a[n]] + [] == [a[n]];
      SquashAppend([], a[..n], [a[n]]);
      SquashTag(SquashFrom([], a[..n]), a[n].value, []);
      SquashNothing(SquashFrom([], a[..n]) + [a[n].value]);
    }
  }

  // ----- texts -----

  function Letters(ts: seq<Token>): string {
    if ts == [] then "" else ts[0].value + Letters(ts[1..])
  }

  /** Text tokens as one. */
  function OneText(ts: seq<Token>): Token
    requires ts != []
  {
    Token(Text, Letters(ts), ts[0].start, ts[|ts| - 1].end)
  }

  ghost predicate TextsOnly(toks: seq<Option<Token>>) {
    forall k :: 0 <= k < |toks| && toks[k].Some? ==> toks[k].value.kind == Text
  }

  lemma LettersCons(t: Token, more: seq<Token>)
    ensures Letters([t] + more) == t.value + Letters(more)
  {
    assert ([t] + more)[1..] == more;
  }

  lemma LettersJoin(t: Token, x: Token, more: seq<Token>)
    ensures OneText([Token(Text, t.value + x.value, t.start, x.end)] + more) == OneText([t] + ([x] + more))
  {
    hide Letters;
    var next := Token(Text, t.value + x.value, t.start, x.end);
    LettersCons(next, more);
    LettersCons(t, [x] + more);
    LettersCons(x, more);
    assert t.value + x.value + Letters(more) == t.value + (x.value + Letters(more));
    if more != [] {
      assert ([next] + more)[|more|] == ([t] + ([x] + more))[|more| + 1] == more[|more| - 1];
    }
  }

  lemma LettersOne(t: Token)
    requires t.kind == Text
    ensures OneText([t]) == t
  {
    assert Letters([t][1..]) == "";
    assert t.value + "" == t.value;
  }

  lemma {:induction false} SquashTexts(t: Token, toks: seq<Option<Token>>)
    requires t.kind == Text && TextsOnly(toks)
    ensures SquashFrom([t], toks) == [OneText([t] + Present(toks))]
    decreases toks
  {
    hide OneText;
    if toks == [] {
      LettersOne(t);
      assert [t] + [] == [t];
    } else if toks[0].Some? {
      var x := toks[0].value;
      var next := Token(Text, t.value + x.value, t.start, x.end);
      assert Join([t], x) == [next];
      SquashTexts(next, toks[1..]);
      LettersJoin(t, x, Present(toks[1..]));
    } else {
      SquashTexts(t, toks[1..]);
    }
  }

  /** Texts are squashed into one token, or into none. */
  lemma {:induction false} SquashedTexts(toks: seq<Option<Token>>)
    requires TextsOnly(toks)
    ensures SquashFrom([], toks) == if Present(toks) == [] then [] else [OneText(Present(toks))]
    decreases toks
  {
    hide OneText;
    if toks != [] {
      if toks[0].Some? {
        assert Join([], toks[0].value) == [toks[0].value];
        SquashTexts(toks[0].value, toks[1..]);
      } else {
        SquashedTexts(toks[1..]);
      }
    }
  }
}
