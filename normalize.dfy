/**
 * Text normalisation of commands and argument defaults (atomic_caldera.py lines 91-97 and
 * 133-137): the `x07` repair on the printed form, whitespace strip, then quote strip.
 */
module Normalize {
  import opened Wrappers
  import opened PyStr

  /** `re.sub(r'x07', r'a', printed).strip()`. */
  function Repair(printed: string): (r: string)
  {
    Strip(ReplaceX07(printed), Whitespace)
  }

  /**
   * The quote step: when the text starts with `'` (or `"`), every leading and trailing
   * occurrence of that character is stripped; other text is kept. None where `text[0]`
   * raises IndexError on empty text.
   */
  function QuoteStrip(text: string): (r: Option<string>)
    ensures r.None? <==> text == []
    ensures r.Some? ==> |r.value| <= |text|
    ensures r.Some? && text[0] == '\'' ==>
              r.value == [] || (r.value[0] != '\'' && r.value[|r.value| - 1] != '\'')
    ensures r.Some? && text[0] == '"' ==>
              r.value == [] || (r.value[0] != '"' && r.value[|r.value| - 1] != '"')
    ensures r.Some? && text[0] != '\'' && text[0] != '"' ==> r.value == text
  {
    if text == [] then None
    else if text[0] == '\'' then Some(Strip(text, {'\''}))
    else if text[0] == '"' then Some(Strip(text, {'"'}))
    else Some(text)
  }

  /** The quote step keeps an infix of its input, starting at `i`: it only cuts the ends. */
  lemma QuoteStripInfix(text: string) returns (i: nat)
    requires text != []
    ensures i + |QuoteStrip(text).value| <= |text|
    ensures QuoteStrip(text).value == text[i..i + |QuoteStrip(text).value|]
  {
    var r := QuoteStrip(text).value;
    if text[0] == '\'' {
      i := |text| - |StripStart(text, {'\''})|;
    } else if text[0] == '"' {
      i := |text| - |StripStart(text, {'"'})|;
    } else {
      i := 0;
      assert text[0..|r|] == text;
    }
  }

  lemma SingleQuotesFirst()
    ensures QuoteStrip("'\"x\"'") == Some("\"x\"")
  {
    var s := "'\"x\"'";
    assert StripStart(s, {'\''}) == "\"x\"'" by {
      assert s[1..] == "\"x\"'";
    }
    var t := "\"x\"'";
    assert StripEnd(t, {'\''}) == "\"x\"" by {
      assert t[..|t| - 1] == "\"x\"";
    }
  }

  lemma DoubleQuotesSecond()
    ensures QuoteStrip("\"x\"") == Some("x")
  {
    var u := "\"x\"";
    assert StripStart(u, {'"'}) == "x\"" by {
      assert u[1..] == "x\"";
    }
    assert StripEnd("x\"", {'"'}) == "x" by {
      assert "x\""[..1] == "x";
    }
  }

  /** Unlike a one-layer unquote, the quote step is not idempotent: `'"x"'` loses only its single
      quotes on the first pass and its double quotes on the second. */
  lemma QuoteStripNotIdempotent()
    ensures QuoteStrip("'\"x\"'") == Some("\"x\"")
    ensures QuoteStrip(QuoteStrip("'\"x\"'").value) == Some("x")
  {
    SingleQuotesFirst();
    DoubleQuotesSecond();
  }

  /** Normalised argument default (lines 133-137); None where the argument is skipped. */
  function VariableText(printed: string): (r: Option<string>)
    ensures r.None? <==> Repair(printed) == []
  {
    QuoteStrip(Repair(printed))
  }

  /** Text printed between single quotes loses exactly those quotes when it neither starts nor
      ends with one itself. */
  lemma SingleQuotedText(d: string)
    requires d != [] && d[0] != '\'' && d[|d| - 1] != '\''
    ensures QuoteStrip(['\''] + d + ['\'']) == Some(d)
  {
    StripEnclosed(d, '\'');
  }

  /** A YAML default written `'"127.0.0.1"'`: the text `"127.0.0.1"`, double quotes included. */
  const QuotedLoopback := "\"127.0.0.1\""

  /** `repr` prints that default between single quotes; only those are stripped, so the
      variable's value keeps the double quotes. */
  lemma QuotedDefaultKeepsInnerQuotes()
    ensures VariableText("'" + QuotedLoopback + "'") == Some(QuotedLoopback)
  {
    var d := QuotedLoopback;
    var printed := "'" + d + "'";
    assert Repair(printed) == printed by {
      assert 'x' !in d;
      NoXNoX07(printed);
      ReplaceX07Unchanged(printed);
      StripUnchanged(printed, Whitespace);
    }
    SingleQuotedText(d);
  }

  /** The repaired text has no `x07` left. */
  lemma RepairNoX07(printed: string)
    ensures NoX07(Repair(printed))
  {
    ReplaceX07Complete(printed);
    StripNoX07(ReplaceX07(printed), Whitespace);
  }

  /** The quote step cannot create an `x07`. */
  lemma QuoteStripNoX07(text: string)
    requires text != [] && NoX07(text)
    ensures NoX07(QuoteStrip(text).value)
  {
    if text[0] == '\'' {
      StripNoX07(text, {'\''});
    } else if text[0] == '"' {
      StripNoX07(text, {'"'});
    }
  }

  /** A normalised argument default has no `x07` left. */
  lemma VariableTextNoX07(printed: string)
    requires VariableText(printed).Some?
    ensures NoX07(VariableText(printed).value)
  {
    RepairNoX07(printed);
    QuoteStripNoX07(Repair(printed));
  }
}
