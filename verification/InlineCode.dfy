/** The page filter that turns backtick spans of escaped text into code elements. */
module InlineCode {
  import opened PythonText
  import opened Wrappers

  const TICK: CodePoint := 96

  /** The five characters that are escaped. */
  const AMPERSAND: CodePoint := 38
  const LESS: CodePoint := 60
  const GREATER: CodePoint := 62
  const QUOTE: CodePoint := 34
  const APOSTROPHE: CodePoint := 39

  const OPEN_TAG: Str := Text("<code class='inline-code'>")

  const CLOSE_TAG: Str := Text("</code>")

  // ---------- Escaping ----------

  /** `html.escape` replaces five characters. */
  function EscapeChar(c: CodePoint): Str {
    if c == AMPERSAND then Text("&amp;")
    else if c == LESS then Text("&lt;")
    else if c == GREATER then Text("&gt;")
    else if c == QUOTE then Text("&quot;")
    else if c == APOSTROPHE then Text("&#x27;")
    else [c]
  }

  function Escape(text: Str): Str {
    if text == [] then [] else EscapeChar(text[0]) + Escape(text[1..])
  }

  // ---------- The substitution ----------

  /** The first backtick from `i` on, or the length. */
  function NextTick(s: Str, i: nat): (r: nat)
    requires i <= |s|
    ensures i <= r <= |s| && TICK !in s[i..r] && (r < |s| ==> s[r] == TICK)
    decreases |s| - i
  {
    if i == |s| || s[i] == TICK then i
    else
      var r := NextTick(s, i + 1);
      assert s[i..r] == [s[i]] + s[i + 1..r];
      r
  }

  /** Left to right: a backtick, one or more other characters and a backtick become a code element;
      any other character stays. */
  function Substitute(s: Str): Str
    decreases |s|
  {
    if s == [] then []
    else if s[0] != TICK then [s[0]] + Substitute(s[1..])
    else
      var end := NextTick(s, 1);
      if 1 < end < |s| then OPEN_TAG + s[1..end] + CLOSE_TAG + Substitute(s[end + 1..])
      else [TICK] + Substitute(s[1..])
  }

  function RenderInlineCode(text: Option<Str>): Str {
    match text
    case None => []
    case Some(t) => if t == [] then [] else Substitute(Escape(t))
  }

  // ---------- Undoing it ----------

  predicate StartsWith(s: Str, prefix: Str) {
    |prefix| <= |s| && s[..|prefix|] == prefix
  }

  /** One left-to-right pass: each tag becomes a backtick, everything else stays. */
  function UntagAll(s: Str): Str
    decreases |s|
  {
    if s == [] then []
    else if StartsWith(s, OPEN_TAG) then [TICK] + UntagAll(s[|OPEN_TAG|..])
    else if StartsWith(s, CLOSE_TAG) then [TICK] + UntagAll(s[|CLOSE_TAG|..])
    else [s[0]] + UntagAll(s[1..])
  }

  /** One left-to-right pass: each of the five escapes becomes its character. */
  function Unescape(s: Str): Str
    decreases |s|
  {
    if s == [] then []
    else if StartsWith(s, Text("&amp;")) then [AMPERSAND] + Unescape(s[5..])
    else if StartsWith(s, Text("&lt;")) then [LESS] + Unescape(s[4..])
    else if StartsWith(s, Text("&gt;")) then [GREATER] + Unescape(s[4..])
    else if StartsWith(s, Text("&quot;")) then [QUOTE] + Unescape(s[6..])
    else if StartsWith(s, Text("&#x27;")) then [APOSTROPHE] + Unescape(s[6..])
    else [s[0]] + Unescape(s[1..])
  }

  // ---------- Rendering is invertible ----------

  lemma TagFacts()
    ensures |OPEN_TAG| == 26 && OPEN_TAG[0] == LESS && OPEN_TAG[1] == 'c' as int
    ensures |CLOSE_TAG| == 7 && CLOSE_TAG[0] == LESS && CLOSE_TAG[1] == '/' as int
  {
  }

  lemma StartsWithPrefix(prefix: Str, rest: Str)
    ensures StartsWith(prefix + rest, prefix) && (prefix + rest)[|prefix|..] == rest
  {
  }

  lemma StartsAgree(s: Str, prefix: Str, k: nat)
    requires StartsWith(s, prefix) && k < |prefix|
    ensures s[k] == prefix[k]
  {
    assert s[..|prefix|][k] == s[k];
  }

  lemma StartsDiffer(s: Str, prefix: Str, k: nat)
    requires k < |s| && k < |prefix| && s[k] != prefix[k]
    ensures !StartsWith(s, prefix)
  {
    if StartsWith(s, prefix) {
      StartsAgree(s, prefix, k);
    }
  }

  lemma UntagPlain(c: CodePoint, rest: Str)
    requires c != LESS
    ensures UntagAll([c] + rest) == [c] + UntagAll(rest)
  {
    TagFacts();
    StartsDiffer([c] + rest, OPEN_TAG, 0);
    StartsDiffer([c] + rest, CLOSE_TAG, 0);
    assert ([c] + rest)[1..] == rest;
  }

  lemma {:induction false} UntagSpan(span: Str, rest: Str)
    requires LESS !in span
    ensures UntagAll(span + rest) == span + UntagAll(rest)
  {
    if span == [] {
      assert span + rest == rest;
    } else {
      assert span + rest == [span[0]] + (span[1..] + rest);
      UntagPlain(span[0], span[1..] + rest);
      UntagSpan(span[1..], rest);
      assert span == [span[0]] + span[1..];
    }
  }

  lemma UntagOpen(rest: Str)
    ensures UntagAll(OPEN_TAG + rest) == [TICK] + UntagAll(rest)
  {
    TagFacts();
    StartsWithPrefix(OPEN_TAG, rest);
  }

  lemma UntagClose(rest: Str)
    ensures UntagAll(CLOSE_TAG + rest) == [TICK] + UntagAll(rest)
  {
    TagFacts();
    assert (CLOSE_TAG + rest)[1] == CLOSE_TAG[1];
    StartsDiffer(CLOSE_TAG + rest, OPEN_TAG, 1);
    StartsWithPrefix(CLOSE_TAG, rest);
  }

  lemma UntagElement(span: Str, tail: Str)
    requires LESS !in span
    ensures UntagAll(OPEN_TAG + span + CLOSE_TAG + tail) == [TICK] + (span + ([TICK] + UntagAll(tail)))
  {
    hide UntagAll;
    assert OPEN_TAG + span + CLOSE_TAG + tail == OPEN_TAG + (span + (CLOSE_TAG + tail));
    UntagOpen(span + (CLOSE_TAG + tail));
    UntagSpan(span, CLOSE_TAG + tail);
    UntagClose(tail);
  }

  /** The two ways the substitution takes its next step. */
  predicate SpanStarts(s: Str) {
    s != [] && s[0] == TICK && 1 < NextTick(s, 1) < |s|
  }

  lemma SubstituteStep(s: Str)
    requires s != []
    ensures !SpanStarts(s) ==> Substitute(s) == [s[0]] + Substitute(s[1..])
    ensures SpanStarts(s) ==>
      Substitute(s) == OPEN_TAG + s[1..NextTick(s, 1)] + CLOSE_TAG + Substitute(s[NextTick(s, 1) + 1..])
  {
  }

  lemma SpanParts(s: Str, end: nat)
    requires 1 <= end < |s| && s[0] == TICK && s[end] == TICK && LESS !in s
    ensures s == [TICK] + (s[1..end] + ([TICK] + s[end + 1..]))
    ensures LESS !in s[1..end] && LESS !in s[end + 1..]
  {
  }

  /** Where no `<` was present, the tags are the only ones and stand for the backticks. */
  lemma {:induction false} UntagOfSubstitute(s: Str)
    requires LESS !in s
    ensures UntagAll(Substitute(s)) == s
    decreases |s|
  {
    if s != [] {
      hide UntagAll, Substitute;
      SubstituteStep(s);
      if SpanStarts(s) {
        var end := NextTick(s, 1);
        SpanParts(s, end);
        UntagOfSubstitute(s[end + 1..]);
        UntagElement(s[1..end], Substitute(s[end + 1..]));
      } else {
        assert s == [s[0]] + s[1..];
        UntagOfSubstitute(s[1..]);
        UntagPlain(s[0], Substitute(s[1..]));
      }
    }
  }

  lemma {:induction false} EscapeHasNoAngle(text: Str)
    ensures LESS !in Escape(text)
  {
    if text != [] {
      EscapeHasNoAngle(text[1..]);
    }
  }

  lemma OtherEscape(e: Str, rest: Str, other: Str)
    requires |e| > 1 && |other| > 1 && e[1] != other[1]
    ensures !StartsWith(e + rest, other)
  {
    assert (e + rest)[1] == e[1];
    StartsDiffer(e + rest, other, 1);
  }

  /** The second character of an escape tells the five apart. */
  lemma EscapeStarts(c: CodePoint, rest: Str)
    ensures Unescape(EscapeChar(c) + rest) == [c] + Unescape(rest)
  {
    var e := EscapeChar(c);
    StartsWithPrefix(e, rest);
    if |e| == 1 {
      UnescapePlain(c, rest);
    } else {
      if e[1] != 'a' as int {
        OtherEscape(e, rest, Text("&amp;"));
      }
      if e[1] != 'l' as int {
        OtherEscape(e, rest, Text("&lt;"));
      }
      if e[1] != 'g' as int {
        OtherEscape(e, rest, Text("&gt;"));
      }
      if e[1] != 'q' as int {
        OtherEscape(e, rest, Text("&quot;"));
      }
      hide StartsWith;
      assert Unescape(e + rest) == [c] + Unescape(rest);
    }
  }

  lemma UnescapePlain(c: CodePoint, rest: Str)
    requires c != AMPERSAND
    ensures Unescape([c] + rest) == [c] + Unescape(rest)
  {
    var s := [c] + rest;
    assert s[0] == c && s[1..] == rest;
    StartsDiffer(s, Text("&amp;"), 0);
    StartsDiffer(s, Text("&lt;"), 0);
    StartsDiffer(s, Text("&gt;"), 0);
    StartsDiffer(s, Text("&quot;"), 0);
    StartsDiffer(s, Text("&#x27;"), 0);
  }

  lemma {:induction false} UnescapeOfEscape(text: Str)
    ensures Unescape(Escape(text)) == text
  {
    if text != [] {
      EscapeStarts(text[0], Escape(text[1..]));
      UnescapeOfEscape(text[1..]);
      assert text == [text[0]] + text[1..];
    }
  }

  /** For every text, turning tags back into backticks and undoing the escapes gives back the text. */
  lemma RenderingInvertible(text: Str)
    ensures Unescape(UntagAll(RenderInlineCode(Some(text)))) == text
  {
    if text != [] {
      EscapeHasNoAngle(text);
      UntagOfSubstitute(Escape(text));
      UnescapeOfEscape(text);
    }
  }

  // ---------- The markup it produces ----------

  /** Read left to right, every `<` begins one of the two tags, and opening and closing tags
      alternate; `inside` tells whether an element is open. */
  predicate Alternates(s: Str, inside: bool)
    decreases |s|
  {
    if s == [] then !inside
    else if StartsWith(s, OPEN_TAG) then !inside && Alternates(s[|OPEN_TAG|..], true)
    else if StartsWith(s, CLOSE_TAG) then inside && Alternates(s[|CLOSE_TAG|..], false)
    else s[0] != LESS && Alternates(s[1..], inside)
  }

  lemma {:induction false} SpanAlternates(span: Str, rest: Str, inside: bool)
    requires LESS !in span
    ensures Alternates(span + rest, inside) == Alternates(rest, inside)
  {
    if span == [] {
      assert span + rest == rest;
    } else {
      TagFacts();
      var s := span + rest;
      assert s[0] == span[0];
      StartsDiffer(s, OPEN_TAG, 0);
      StartsDiffer(s, CLOSE_TAG, 0);
      assert s[1..] == span[1..] + rest;
      SpanAlternates(span[1..], rest, inside);
    }
  }

  lemma OpenAlternates(rest: Str)
    ensures Alternates(OPEN_TAG + rest, false) == Alternates(rest, true)
  {
    TagFacts();
    hide Text;
    StartsWithPrefix(OPEN_TAG, rest);
  }

  lemma CloseAlternates(rest: Str)
    ensures Alternates(CLOSE_TAG + rest, true) == Alternates(rest, false)
  {
    TagFacts();
    hide Text;
    assert (CLOSE_TAG + rest)[1] == CLOSE_TAG[1];
    StartsDiffer(CLOSE_TAG + rest, OPEN_TAG, 1);
    StartsWithPrefix(CLOSE_TAG, rest);
  }

  lemma TagsAlternate(span: Str, rest: Str)
    requires LESS !in span && Alternates(rest, false)
    ensures Alternates(OPEN_TAG + span + CLOSE_TAG + rest, false)
  {
    hide Alternates, OPEN_TAG, CLOSE_TAG;
    assert OPEN_TAG + span + CLOSE_TAG + rest == OPEN_TAG + (span + (CLOSE_TAG + rest));
    OpenAlternates(span + (CLOSE_TAG + rest));
    SpanAlternates(span, CLOSE_TAG + rest, true);
    CloseAlternates(rest);
  }

  lemma {:induction false} SubstituteAlternates(s: Str)
    requires LESS !in s
    ensures Alternates(Substitute(s), false)
    decreases |s|
  {
    if s != [] {
      hide Substitute, Alternates;
      SubstituteStep(s);
      if SpanStarts(s) {
        var end := NextTick(s, 1);
        var span, tail := s[1..end], Substitute(s[end + 1..]);
        SpanParts(s, end);
        SubstituteAlternates(s[end + 1..]);
        TagsAlternate(span, tail);
      } else {
        SubstituteAlternates(s[1..]);
        SpanAlternates([s[0]], Substitute(s[1..]), false);
      }
    }
  }

  /** The text contributes no markup of its own: in the output every `<` begins an inserted tag, and
      the tags open and close in turn. */
  lemma MarkupIsInsertedTags(text: Str)
    ensures Alternates(RenderInlineCode(Some(text)), false)
  {
    if text != [] {
      EscapeHasNoAngle(text);
      SubstituteAlternates(Escape(text));
    }
  }

  // ---------- What is rendered ----------

  lemma {:induction false} EscapeConcat(a: Str, b: Str)
    ensures Escape(a + b) == Escape(a) + Escape(b)
  {
    hide EscapeChar;
    if a == [] {
      assert a + b == b;
    } else {
      EscapeConcat(a[1..], b);
      assert (a + b)[1..] == a[1..] + b && (a + b)[0] == a[0];
      Rejoin(EscapeChar(a[0]), Escape(a[1..]), Escape(b));
    }
  }

  lemma Rejoin(x: Str, y: Str, z: Str)
    ensures x + (y + z) == (x + y) + z
  {
  }

  lemma EscapeCharTicks(c: CodePoint)
    ensures (TICK in EscapeChar(c) <==> TICK == c) && EscapeChar(c) != []
  {
  }

  lemma {:induction false} EscapeKeepsTicks(a: Str)
    ensures TICK in Escape(a) <==> TICK in a
    ensures a != [] ==> Escape(a) != []
  {
    hide EscapeChar;
    if a != [] {
      EscapeCharTicks(a[0]);
      EscapeKeepsTicks(a[1..]);
      assert a == [a[0]] + a[1..];
    }
  }

  lemma {:induction false} SubstituteTickless(a: Str, b: Str)
    requires TICK !in a
    ensures Substitute(a + b) == a + Substitute(b)
  {
    if a == [] {
      assert a + b == b;
    } else {
      hide NextTick, Substitute;
      var s := a + b;
      assert s[1..] == a[1..] + b && s[0] == a[0];
      SubstituteStep(s);
      SubstituteTickless(a[1..], b);
      Rejoin([a[0]], a[1..], Substitute(b));
      assert a == [a[0]] + a[1..];
    }
  }

  lemma {:induction false} NextTickIs(s: Str, i: nat, end: nat)
    requires i <= end < |s| && s[end] == TICK && forall k :: i <= k < end ==> s[k] != TICK
    ensures NextTick(s, i) == end
    decreases end - i
  {
    if i < end {
      NextTickIs(s, i + 1, end);
    }
  }

  lemma SpanShape(s: Str, span: Str, b: Str)
    requires s == [TICK] + (span + ([TICK] + b)) && TICK !in span
    ensures |s| > 1 + |span| && s[0] == TICK && s[1 + |span|] == TICK
    ensures forall k :: 1 <= k < 1 + |span| ==> s[k] != TICK
    ensures s[1..1 + |span|] == span && s[1 + |span| + 1..] == b
  {
    assert forall k :: 0 <= k < |span| ==> s[1 + k] == span[k];
    forall k | 1 <= k < 1 + |span| ensures s[k] != TICK {
      assert s[1 + (k - 1)] == span[k - 1];
    }
  }

  lemma SubstituteSpan(s: Str, span: Str, b: Str)
    requires s == [TICK] + (span + ([TICK] + b)) && span != [] && TICK !in span
    ensures Substitute(s) == OPEN_TAG + span + CLOSE_TAG + Substitute(b)
  {
    hide OPEN_TAG, CLOSE_TAG, NextTick, Substitute;
    SpanShape(s, span, b);
    NextTickIs(s, 1, 1 + |span|);
    SubstituteStep(s);
  }

  /** Text without a backtick is escaped and otherwise left as it is. */
  lemma TicklessRendered(text: Str)
    requires Text("`")[0] !in text
    ensures RenderInlineCode(Some(text)) == Escape(text)
  {
    assert Text("`")[0] == TICK;
    EscapeKeepsTicks(text);
    SubstituteTickless(Escape(text), []);
    assert Escape(text) + [] == Escape(text);
  }

  /** The first pair of backticks around one or more characters becomes a code element around them, and
      the rest is rendered in the same way. */
  lemma SpanRendered(before: Str, span: Str, after: Str)
    requires Text("`")[0] !in before && span != [] && Text("`")[0] !in span
    ensures RenderInlineCode(Some(before + (Text("`") + (span + (Text("`") + after))))) ==
      Escape(before) + (Text("<code class='inline-code'>") + Escape(span) + Text("</code>")
                        + RenderInlineCode(Some(after)))
  {
    hide Substitute;
    assert Text("`") == [TICK];
    var tail := [TICK] + (span + ([TICK] + after));
    EscapeConcat(before, tail);
    EscapeConcat([TICK], span + ([TICK] + after));
    EscapeConcat(span, [TICK] + after);
    EscapeConcat([TICK], after);
    EscapeTick();
    EscapeKeepsTicks(before);
    EscapeKeepsTicks(span);
    SubstituteTickless(Escape(before), Escape(tail));
    SubstituteSpan(Escape(tail), Escape(span), Escape(after));
    SubstituteNothing();
  }

  lemma EscapeTick()
    ensures Escape([TICK]) == [TICK] && Escape([]) == []
  {
    assert [TICK][1..] == [];
  }

  lemma SubstituteNothing()
    ensures Substitute([]) == []
  {
  }

  /** The five characters that are escaped, and every other one. */
  lemma CharacterEscaped(c: CodePoint)
    ensures Escape(Text("&")) == Text("&amp;") && Escape(Text("<")) == Text("&lt;") && Escape(Text(">")) == Text("&gt;")
    ensures Escape(Text("\"")) == Text("&quot;") && Escape(Text("'")) == Text("&#x27;")
    ensures c !in Text("&<>\"'") ==> Escape([c]) == [c]
    ensures RenderInlineCode(None) == []
  {
    assert [c][1..] == [];
    assert Text("&") == [38] && Text("<") == [60] && Text(">") == [62] && Text("\"") == [34] && Text("'") == [39];
    assert [38][1..] == [60][1..] == [62][1..] == [34][1..] == [39][1..] == [];
    assert Text("&<>\"'") == [38, 60, 62, 34, 39];
  }

  /** A backtick that another one follows directly, or that no other one follows, stays as it is. */
  lemma UnpairedTickStays(rest: Str)
    requires Text("`")[0] !in rest || rest[0] == Text("`")[0]
    ensures RenderInlineCode(Some(Text("`") + rest)) == Text("`") + RenderInlineCode(Some(rest))
  {
    assert Text("`") == [TICK];
    var s := [TICK] + Escape(rest);
    EscapeConcat([TICK], rest);
    EscapeTick();
    EscapeKeepsTicks(rest);
    if rest != [] {
      EscapedHead(rest);
    }
    assert s[1..] == Escape(rest);
    assert !SpanStarts(s) by {
      if rest != [] && rest[0] == TICK {
        NextTickIs(s, 1, 1);
      } else {
        assert forall k :: 1 <= k < |s| ==> s[k] == Escape(rest)[k - 1] != TICK;
      }
    }
    SubstituteStep(s);
    SubstituteNothing();
  }

  lemma EscapedHead(rest: Str)
    requires rest != []
    ensures rest[0] == TICK ==> Escape(rest) != [] && Escape(rest)[0] == TICK
  {
  }
}
