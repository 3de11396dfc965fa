/**
 Gateway conditions (routes/process/mod.rs): every condition is a plain `key == "value"`, either
 structured or left as text, and text may be wrapped in `${ }`.
 */
module GatewayConditions {
  import opened Wrappers
  import opened Text
  import opened ProcessModel

  /** The text inside `${ }`, or the text itself when it is not wrapped. */
  function Unwrapped(expr: string): string {
    match StripPrefix(Trim(expr), "${")
    case None => expr
    case Some(s) =>
      match StripSuffix(s, "}")
      case None => expr
      case Some(inner) => inner
  }

  function Unquoted(s: string): string {
    TrimBy(TrimBy(Trim(s), Only('"')), Only('\''))
  }

  function ParseExpression(expr: string): Option<(string, string)> {
    match SplitOnce(Trim(Unwrapped(expr)), "==")
    case None => None
    case Some((left, right)) =>
      var key, value := Trim(left), Unquoted(right);
      if key == "" || value == "" then None else Some((key, value))
  }

  /** The (key, value) pair of a condition; None for the default and for malformed text. */
  function ParseEdgeCondition(c: EdgeCondition): Option<(string, string)> {
    match c
    case VariableEq(key, value) => Some((key, value))
    case Expression(expr) => ParseExpression(expr)
    case Default => None
  }

  // ---------- Round trip ----------

  /** key == "value" */
  function Render(key: string, value: string): string {
    key + " == \"" + value + "\""
  }

  /** ${ key == "value" } */
  function RenderWrapped(key: string, value: string): string {
    "${ " + Render(key, value) + " }"
  }

  /** Keys and values free of the delimiters that parsing strips. */
  ghost predicate Renderable(key: string, value: string) {
    && key != "" && Bare(key, IsWhitespace) && (forall i: nat :: !OccursAt(key, "==", i))
    && value != "" && Bare(value, Only('"')) && Bare(value, Only('\''))
  }

  lemma TrimIgnoresPadding(left: string, s: string, right: string)
    requires All(left, IsWhitespace) && All(right, IsWhitespace)
    ensures Trim(left + s + right) == Trim(s)
  {
    var l, r := TrimSplits(s, IsWhitespace);
    assert left + s + right == (left + l) + Trim(s) + (r + right);
    TrimPadded(left + l, Trim(s), r + right, IsWhitespace);
  }

  /** Trimming leaves a string that ends in a visible character ending in it. */
  lemma TrimKeepsEnd(s: string)
    requires s != "" && !IsWhitespace(s[|s| - 1])
    ensures Trim(s) != "" && Trim(s)[|Trim(s)| - 1] == s[|s| - 1]
  {
    var l, r := TrimSplits(s, IsWhitespace);
    assert s == l + (Trim(s) + r);
    assert s[|s| - 1] == (l + Trim(s) + r)[|l + Trim(s) + r| - 1];
  }

  /** Both renderings reach the parser's split as the same text. */
  lemma RenderedInner(key: string, value: string)
    ensures Trim(Unwrapped(Render(key, value))) == Trim(Render(key, value))
    ensures Trim(Unwrapped(RenderWrapped(key, value))) == Trim(Render(key, value))
  {
    var bare := Render(key, value);
    TrimKeepsEnd(bare);
    NoClosingBrace(Trim(bare));
    WrappedInner(bare);
  }

  lemma NoClosingBrace(t: string)
    requires t != "" && t[|t| - 1] == '"'
    ensures "${" <= t ==> StripSuffix(t[2..], "}") == None
  {
    if "${" <= t && 2 < |t| {
      var s := t[2..];
      assert s[|s| - 1] == t[|t| - 1];
      assert s[|s| - 1..][0] == '"';
    }
  }

  lemma WrappedInner(bare: string)
    ensures Trim(Unwrapped("${ " + bare + " }")) == Trim(bare)
  {
    var wrapped := "${ " + bare + " }";
    assert wrapped[0] == '$' && wrapped[|wrapped| - 1] == '}';
    TrimPadded("", wrapped, "", IsWhitespace);
    assert "" + wrapped + "" == wrapped;
    assert wrapped == "${" + (" " + bare + " }");
    var s := wrapped[2..];
    assert s == " " + bare + " " + "}";
    assert s[|s| - 1..] == "}" && s[..|s| - 1] == " " + bare + " ";
    TrimIgnoresPadding(" ", bare, " ");
  }

  /** The quoted part parses back to the value exactly when the value has no quote at its ends. */
  lemma UnquotedExactly(value: string)
    requires value != ""
    ensures Unquoted(" \"" + value + "\"") == value <==> Bare(value, Only('"')) && Bare(value, Only('\''))
  {
    var quoted := "\"" + value + "\"";
    assert " \"" + value + "\"" == " " + quoted + "";
    TrimPadded(" ", quoted, "", IsWhitespace);
    var x := TrimBy(quoted, Only('"'));
    var l, r := TrimSplits(quoted, Only('"'));
    var l', r' := TrimSplits(x, Only('\''));
    if Bare(value, Only('"')) {
      TrimPadded("\"", value, "\"", Only('"'));
      assert x == value;
      if Bare(value, Only('\'')) {
        assert "" + value + "" == value;
        TrimPadded("", value, "", Only('\''));
      }
    }
    if TrimBy(x, Only('\'')) == value {
      assert |value| <= |x|;
      assert |l| + |x| + |r| == |value| + 2;
      assert x[0] == quoted[|l|] && x[|x| - 1] == quoted[|l| + |x| - 1];
      assert quoted[0] == '"' && quoted[|quoted| - 1] == '"';
      assert |l| == 1 && |r| == 1;
      assert x == value;
    }
  }

  /** A parsed key is visible and untrimmed, a parsed value is not empty. */
  lemma ParsedIsBare(expr: string)
    requires ParseExpression(expr).Some?
    ensures ParseExpression(expr).value.0 != "" && Bare(ParseExpression(expr).value.0, IsWhitespace)
    ensures ParseExpression(expr).value.1 != ""
  {
    var left := SplitOnce(Trim(Unwrapped(expr)), "==").value.0;
    var l, r := TrimSplits(left, IsWhitespace);
  }

  lemma RenderTrimmed(key: string, value: string)
    requires key != "" && Bare(key, IsWhitespace)
    ensures Trim(Render(key, value)) == Render(key, value)
  {
    var bare := Render(key, value);
    assert "" + bare + "" == bare;
    assert bare[0] == key[0] && bare[|bare| - 1] == '"';
    TrimPadded("", bare, "", IsWhitespace);
  }

  /** Any text that reaches the split as a rendering parses back exactly for renderable pairs. */
  lemma InnerRoundTrip(expr: string, key: string, value: string)
    requires Trim(Unwrapped(expr)) == Trim(Render(key, value))
    ensures ParseExpression(expr) == Some((key, value)) <==> Renderable(key, value)
  {
    if key != "" && Bare(key, IsWhitespace) && value != "" {
      RenderTrimmed(key, value);
      RenderedSplit(key, value);
    } else if ParseExpression(expr).Some? {
      ParsedIsBare(expr);
    }
  }

  /** A rendered condition parses back to its pair, bare or wrapped, exactly for renderable pairs. */
  lemma ConditionRoundTrip(key: string, value: string)
    ensures ParseEdgeCondition(Expression(Render(key, value))) == Some((key, value)) <==> Renderable(key, value)
    ensures ParseEdgeCondition(Expression(RenderWrapped(key, value))) == Some((key, value)) <==> Renderable(key, value)
  {
    RenderedInner(key, value);
    InnerRoundTrip(Render(key, value), key, value);
    InnerRoundTrip(RenderWrapped(key, value), key, value);
  }

  lemma RenderedSplit(key: string, value: string)
    requires key != "" && Bare(key, IsWhitespace) && value != ""
    ensures var r := SplitOnce(Render(key, value), "==");
            r.Some? && (Trim(r.value.0) == key && Unquoted(r.value.1) == value <==> Renderable(key, value))
  {
    var bare := Render(key, value);
    var k := |key| + 1;
    assert bare[k..k + 2] == "==";
    assert OccursAt(bare, "==", k);
    if i: nat :| OccursAt(key, "==", i) {
      assert bare[i..i + 2] == key[i..i + 2];
      assert OccursAt(bare, "==", i);
      var left := SplitOnce(bare, "==").value.0;
      var l, r := TrimSplits(left, IsWhitespace);
      assert |Trim(left)| < |key|;
    } else {
      forall i: nat | i < k ensures !OccursAt(bare, "==", i) {
        if i + 2 <= |key| {
          assert bare[i..i + 2] == key[i..i + 2];
          assert !OccursAt(key, "==", i);
        } else {
          assert bare[i..i + 2][|key| - i] == bare[|key|] == ' ';
          assert "=="[|key| - i] == '=';
        }
      }
      SplitOnceAt(bare, "==", k);
      assert bare[..k] == "" + key + " ";
      TrimPadded("", key, " ", IsWhitespace);
      assert bare[k + 2..] == " \"" + value + "\"";
      UnquotedExactly(value);
    }
  }

  /** Only a text that is wrapped whole loses its wrapping. */
  lemma UnwrappedExactly(expr: string, inner: string)
    ensures Trim(expr) == "${" + inner + "}" ==> Unwrapped(expr) == inner
    ensures (forall i: string :: Trim(expr) != "${" + i + "}") ==> Unwrapped(expr) == expr
  {
    var t := Trim(expr);
    if t == "${" + inner + "}" {
      assert t == "${" + (inner + "}");
      var s := t[2..];
      assert s == inner + "}" && s[|s| - 1..] == "}";
    } else if "${" <= t {
      var s := t[2..];
      assert t == "${" + s;
      if EndsWith(s, "}") {
        assert s == s[..|s| - 1] + "}";
        assert t == "${" + s[..|s| - 1] + "}";
      }
    }
  }

  /** A structured condition means what its text says: the same key, the same value. The default means nothing. */
  lemma StructuredMatchesText(key: string, value: string)
    requires Renderable(key, value)
    ensures ParseEdgeCondition(VariableEq(key, value)) == ParseEdgeCondition(Expression(Render(key, value)))
    ensures ParseEdgeCondition(VariableEq(key, value)) == ParseEdgeCondition(Expression(RenderWrapped(key, value)))
    ensures ParseEdgeCondition(Default) == None
  {
    ConditionRoundTrip(key, value);
  }
}
