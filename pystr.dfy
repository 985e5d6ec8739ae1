/**
 * The Python string operations the ingestion code relies on: `str.strip`, the literal
 * `re.sub(r'x07', r'a', ...)` rewrite, `int(...)` on decimal text and `os.path.splitext`
 * followed by `str.lower`.
 */
module PyStr {
  import opened Wrappers

  /** The characters `str.isspace` accepts; `str.strip()` with no argument removes these. */
  const Whitespace: set<char> := {
    '\U{9}', '\U{A}', '\U{B}', '\U{C}', '\U{D}', '\U{1C}', '\U{1D}', '\U{1E}',
    '\U{1F}', '\U{20}', '\U{85}', '\U{A0}', '\U{1680}', '\U{2000}', '\U{2001}', '\U{2002}',
    '\U{2003}', '\U{2004}', '\U{2005}', '\U{2006}', '\U{2007}', '\U{2008}', '\U{2009}', '\U{200A}',
    '\U{2028}', '\U{2029}', '\U{202F}', '\U{205F}', '\U{3000}' }

  // ----- str.strip -----

  /** `s.lstrip(cs)`: drops every leading character that is in `cs`. */
  function StripStart(s: string, cs: set<char>): (r: string)
    ensures |r| <= |s| && r == s[|s| - |r|..]
    ensures forall k :: 0 <= k < |s| - |r| ==> s[k] in cs
    ensures r != [] ==> r[0] !in cs
  {
    if s != [] && s[0] in cs then StripStart(s[1..], cs) else s
  }

  /** `s.rstrip(cs)`: drops every trailing character that is in `cs`. */
  function StripEnd(s: string, cs: set<char>): (r: string)
    ensures |r| <= |s| && r == s[..|r|]
    ensures forall k :: |r| <= k < |s| ==> s[k] in cs
    ensures r != [] ==> r[|r| - 1] !in cs
  {
    if s != [] && s[|s| - 1] in cs then StripEnd(s[..|s| - 1], cs) else s
  }

  /**
   * `s.strip(cs)`: the infix of `s` left once every leading and every trailing character
   * in `cs` is gone (Python strips all of them, not one layer).
   */
  function Strip(s: string, cs: set<char>): (r: string)
    ensures var i := |s| - |StripStart(s, cs)|;
      && i + |r| <= |s| && r == s[i..i + |r|]
      && (forall k :: 0 <= k < i ==> s[k] in cs)
      && (forall k :: i + |r| <= k < |s| ==> s[k] in cs)
    ensures r != [] ==> r[0] !in cs && r[|r| - 1] !in cs
  {
    var t := StripStart(s, cs);
    var r := StripEnd(t, cs);
    assert r == t[..|r|];
    r
  }

  /** Text that neither starts nor ends with a character of `cs` is left alone. */
  lemma StripUnchanged(s: string, cs: set<char>)
    requires s != [] ==> s[0] !in cs && s[|s| - 1] !in cs
    ensures Strip(s, cs) == s
  {
  }

  /** Text enclosed in one `c` on each side, neither starting nor ending with `c`, loses just those two. */
  lemma StripEnclosed(d: string, c: char)
    requires d != [] && d[0] != c && d[|d| - 1] != c
    ensures Strip([c] + d + [c], {c}) == d
  {
    var t := d + [c];
    assert StripStart([c] + d + [c], {c}) == t by {
      assert ([c] + d + [c])[1..] == t;
      assert t[0] == d[0];
    }
    assert StripEnd(t, {c}) == d by {
      assert t[..|t| - 1] == d;
    }
  }

  lemma StripIdempotent(s: string, cs: set<char>)
    ensures Strip(Strip(s, cs), cs) == Strip(s, cs)
  {
    StripUnchanged(Strip(s, cs), cs);
  }

  // ----- re.sub(r'x07', r'a', s) -----

  predicate X07At(s: string, k: int)
    requires 0 <= k && k + 3 <= |s|
  {
    s[k] == 'x' && s[k + 1] == '0' && s[k + 2] == '7'
  }

  /** No occurrence of the three characters `x07` anywhere. */
  predicate NoX07(s: string)
  {
    forall k :: 0 <= k && k + 3 <= |s| ==> !X07At(s, k)
  }

  /** Left-to-right, non-overlapping replacement of `x07` by `a`, as `re.sub` scans. */
  function ReplaceX07(s: string): (r: string)
    ensures |r| <= |s|
    ensures s != [] ==> r != [] && r[0] == (if |s| >= 3 && X07At(s, 0) then 'a' else s[0])
  {
    if |s| >= 3 && X07At(s, 0) then "a" + ReplaceX07(s[3..])
    else if s == [] then []
    else [s[0]] + ReplaceX07(s[1..])
  }

  /** After the rewrite no `x07` is left, even where one straddled a replaced occurrence. */
  lemma {:induction false} ReplaceX07Complete(s: string)
    ensures NoX07(ReplaceX07(s))
    decreases |s|
  {
    var r := ReplaceX07(s);
    if |s| >= 3 && X07At(s, 0) {
      ReplaceX07Complete(s[3..]);
      assert r == "a" + ReplaceX07(s[3..]);
      forall k | 0 <= k && k + 3 <= |r| ensures !X07At(r, k) {
        if k > 0 { assert X07At(r, k) == X07At(ReplaceX07(s[3..]), k - 1); }
      }
    } else if s != [] {
      var t := s[1..];
      ReplaceX07Complete(t);
      var rt := ReplaceX07(t);
      assert r == [s[0]] + rt;
      forall k | 0 <= k && k + 3 <= |r| ensures !X07At(r, k) {
        if k > 0 {
          assert X07At(r, k) == X07At(rt, k - 1);
        } else if s[0] == 'x' && rt[0] == '0' {
          // t starts with the 0 that follows x, so t is not rewritten at its head, and the
          // character after that cannot be a 7 because s does not start with x07
          var u := t[1..];
          assert t[0] == '0' && rt == [t[0]] + ReplaceX07(u);
          assert u[0] == s[2] && s[2] != '7';
          assert r[2] == ReplaceX07(u)[0] != '7';
        }
      }
    }
  }

  /** Text without `x07` is left unchanged. */
  lemma {:induction false} ReplaceX07Unchanged(s: string)
    requires NoX07(s)
    ensures ReplaceX07(s) == s
    decreases |s|
  {
    if s != [] {
      assert !(|s| >= 3 && X07At(s, 0));
      assert NoX07(s[1..]) by {
        forall k | 0 <= k && k + 3 <= |s[1..]| ensures !X07At(s[1..], k) {
          assert X07At(s[1..], k) == X07At(s, k + 1);
        }
      }
      ReplaceX07Unchanged(s[1..]);
    }
  }

  /** Text without the letter `x` has no `x07`. */
  lemma NoXNoX07(s: string)
    requires 'x' !in s
    ensures NoX07(s)
  {
    forall k | 0 <= k && k + 3 <= |s| ensures !X07At(s, k) {
      assert s[k] in s;
    }
  }

  /** An infix of text without `x07` has none either. */
  lemma NoX07Infix(s: string, i: nat, n: nat)
    requires i + n <= |s| && NoX07(s)
    ensures NoX07(s[i..i + n])
  {
    var t := s[i..i + n];
    forall k | 0 <= k && k + 3 <= |t| ensures !X07At(t, k) {
      assert X07At(t, k) == X07At(s, i + k);
    }
  }

  /** Stripping cannot create an `x07`. */
  lemma StripNoX07(s: string, cs: set<char>)
    requires NoX07(s)
    ensures NoX07(Strip(s, cs))
  {
    var r := Strip(s, cs);
    NoX07Infix(s, |s| - |StripStart(s, cs)|, |r|);
  }

  lemma ReplaceX07Idempotent(s: string)
    ensures ReplaceX07(ReplaceX07(s)) == ReplaceX07(s)
  {
    ReplaceX07Complete(s);
    ReplaceX07Unchanged(ReplaceX07(s));
  }

  // ----- int(s) on decimal text -----

  predicate IsDigit(c: char)
  {
    '0' <= c <= '9'
  }

  predicate AllDigits(d: string)
  {
    forall k :: 0 <= k < |d| ==> IsDigit(d[k])
  }

  function DigitsValue(d: string): nat
    requires AllDigits(d)
  {
    if d == [] then 0 else DigitsValue(d[..|d| - 1]) * 10 + (d[|d| - 1] as int - '0' as int)
  }

  /**
   * `int(s)`: surrounding whitespace, an optional sign and at least one decimal digit;
   * None where Python raises ValueError.
   */
  function ParseInt(s: string): (r: Option<int>)
    ensures r.Some? ==> forall k :: 0 <= k < |s| ==> IsDigit(s[k]) || s[k] in Whitespace || s[k] in {'+', '-'}
  {
    var t := Strip(s, Whitespace);
    if t != [] && t[0] in {'+', '-'} then
      var d := t[1..];
      if d != [] && AllDigits(d) then Some(if t[0] == '-' then -(DigitsValue(d) as int) else DigitsValue(d))
      else None
    else if t != [] && AllDigits(t) then Some(DigitsValue(t))
    else None
  }

  /** The decimal text of `n`, as `str(n)` writes it. */
  function Decimal(n: nat): (d: string)
    ensures d != [] && AllDigits(d)
  {
    var last := [('0' as int + n % 10) as char];
    if n < 10 then last else Decimal(n / 10) + last
  }

  lemma {:induction false} DecimalValue(n: nat)
    ensures DigitsValue(Decimal(n)) == n
  {
    var d := Decimal(n);
    if n >= 10 {
      DecimalValue(n / 10);
      assert d[..|d| - 1] == Decimal(n / 10);
    }
  }

  /** `int(str(n)) == n`. */
  lemma ParseDecimal(n: nat)
    ensures ParseInt(Decimal(n)) == Some(n)
  {
    var d := Decimal(n);
    assert IsDigit(d[0]) && IsDigit(d[|d| - 1]);
    assert d[0] !in Whitespace;
    assert d[|d| - 1] !in Whitespace;
    StripUnchanged(d, Whitespace);
    assert Strip(d, Whitespace) == d;
    assert d[0] !in {'+', '-'};
    DecimalValue(n);
    assert ParseInt(d) == Some(DigitsValue(d));
  }

  // ----- os.path.splitext(p)[-1].lower() -----

  /** Index of the last `c` in `s`, or -1. */
  function LastIndex(s: string, c: char): (r: int)
    ensures -1 <= r < |s|
    ensures r >= 0 ==> s[r] == c
    ensures forall k :: r < k < |s| ==> s[k] != c
  {
    if s == [] then -1
    else if s[|s| - 1] == c then |s| - 1
    else LastIndex(s[..|s| - 1], c)
  }

  /**
   * `os.path.splitext(p)[1]`: from the last dot of the last path component, provided
   * that component has a character other than a dot before it; otherwise empty.
   */
  function Extension(p: string): (e: string)
    ensures e != [] ==> |e| <= |p| && e == p[|p| - |e|..] && e[0] == '.'
    ensures forall k :: 0 < k < |e| ==> e[k] != '.' && e[k] != '/'
  {
    var sep := LastIndex(p, '/');
    var dot := LastIndex(p, '.');
    if dot > sep && exists k :: sep < k < dot && p[k] != '.' then p[dot..] else []
  }

  function AsciiLower(c: char): char
  {
    if 'A' <= c <= 'Z' then (c as int + 32) as char else c
  }

  function Lower(s: string): (r: string)
    ensures |r| == |s| && forall k :: 0 <= k < |s| ==> r[k] == AsciiLower(s[k])
  {
    if s == [] then [] else [AsciiLower(s[0])] + Lower(s[1..])
  }

  /** `os.path.splitext(p)[-1].lower() == '.yaml'`. */
  predicate IsYamlPath(p: string)
  {
    Lower(Extension(p)) == ".yaml"
  }

  /** A `c` followed by no other `c` is the last one. */
  lemma LastIndexAt(s: string, c: char, r: nat)
    requires r < |s| && s[r] == c
    requires forall k :: r < k < |s| ==> s[k] != c
    ensures LastIndex(s, c) == r
  {
  }

  /** Lower-casing a text that has a dot first keeps that dot in front. */
  lemma LowerDotted(e: string)
    requires e != [] && e[0] == '.'
    ensures Lower(e) == "." + Lower(e[1..])
  {
  }

  /** A path ending in a dot and `yaml` in any letter case: that dot is its last. */
  lemma YamlTailDot(p: string)
    requires |p| >= 5 && p[|p| - 5] == '.' && Lower(p[|p| - 4..]) == "yaml"
    ensures LastIndex(p, '.') == |p| - 5
  {
    var tail := p[|p| - 4..];
    forall k | |p| - 5 < k < |p| ensures p[k] != '.' {
      assert p[k] == tail[k - (|p| - 4)];
      assert Lower(tail)[k - (|p| - 4)] == AsciiLower(p[k]);
    }
    LastIndexAt(p, '.', |p| - 5);
  }

  /** The extension of a `.yaml` path starts at its last dot, five from the end, after a
      non-dot character of its last component. */
  lemma YamlExtension(p: string)
    requires IsYamlPath(p)
    ensures Extension(p) == p[|p| - 5..]
    ensures exists k :: LastIndex(p, '/') < k < |p| - 5 && p[k] != '.'
  {
    var e := Extension(p);
    assert |e| == 5;
    var sep, dot := LastIndex(p, '/'), LastIndex(p, '.');
    if !(dot > sep && exists k :: sep < k < dot && p[k] != '.') {
      assert false;
    }
    assert dot == |p| - 5;
  }

  /** Every `.yaml` path ends in a dot and `yaml` in any letter case. */
  lemma YamlPathEnds(p: string)
    requires IsYamlPath(p)
    ensures |p| >= 5 && p[|p| - 5] == '.' && Lower(p[|p| - 4..]) == "yaml"
  {
    var e := Extension(p);
    assert |e| == 5;
    assert p[|p| - 4..] == e[1..];
  }

  /** A text of a dot and `yaml` in any letter case lower-cases to `.yaml`. */
  lemma LowerYamlTail(e: string)
    requires |e| == 5 && e[0] == '.' && Lower(e[1..]) == "yaml"
    ensures Lower(e) == ".yaml"
  {
    LowerDotted(e);
  }

  /** Every path of that shape is a `.yaml` path. */
  lemma EndsYamlPath(p: string)
    requires |p| >= 5 && p[|p| - 5] == '.' && Lower(p[|p| - 4..]) == "yaml"
    requires exists k :: LastIndex(p, '/') < k < |p| - 5 && p[k] != '.'
    ensures IsYamlPath(p)
  {
    var e := p[|p| - 5..];
    assert Extension(p) == e by {
      YamlTailDot(p);
    }
    assert Lower(e) == ".yaml" by {
      assert e[1..] == p[|p| - 4..];
      LowerYamlTail(e);
    }
  }

  /** Exactly the paths ending in a dot and `yaml` in any letter case, whose last component
      has a character other than a dot before that dot. */
  lemma YamlPathShape(p: string)
    ensures IsYamlPath(p) <==>
              |p| >= 5 && p[|p| - 5] == '.' && Lower(p[|p| - 4..]) == "yaml"
              && exists k :: LastIndex(p, '/') < k < |p| - 5 && p[k] != '.'
  {
    if IsYamlPath(p) {
      YamlPathEnds(p);
      YamlExtension(p);
    } else if |p| >= 5 && p[|p| - 5] == '.' && Lower(p[|p| - 4..]) == "yaml"
              && exists k :: LastIndex(p, '/') < k < |p| - 5 && p[k] != '.' {
      EndsYamlPath(p);
    }
  }
}
