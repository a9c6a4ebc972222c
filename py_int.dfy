// Python's `int(s)` on a command-line argument, as the clip samples use it: surrounding
// whitespace (TAB..CR, space and the non-ASCII whitespace of `str.isspace`; not the
// separators FS..US, which `str.isspace` accepts but `int()` keeps) is ignored, and an optional sign
// precedes one or more ASCII digits, single underscores allowed between two digits.
// Anything else raises ValueError (here: None), except the non-ASCII decimal digits, which
// Python also accepts and this module does not.

module PyInt {
  import opened Outcomes

  predicate IsDigit(c: char) {
    '0' <= c <= '9'
  }

  /** The whitespace `int()` strips: the ASCII controls TAB..CR, space, NEL, NBSP and the Unicode spaces. */
  predicate IsSpace(c: char) {
    || '\t' <= c <= '\r' || c == ' ' || c == '\U{85}' || c == '\U{A0}' || c == '\U{1680}'
    || '\U{2000}' <= c <= '\U{200A}' || c == '\U{2028}' || c == '\U{2029}' || c == '\U{202F}'
    || c == '\U{205F}' || c == '\U{3000}'
  }

  predicate AllDigits(s: string) {
    forall i :: 0 <= i < |s| ==> IsDigit(s[i])
  }

  /** `s` without its leading and trailing whitespace. */
  function Strip(s: string): (t: string)
    ensures |t| <= |s|
    ensures |t| > 0 ==> !IsSpace(t[0]) && !IsSpace(t[|t| - 1])
    decreases |s|
  {
    if |s| > 0 && IsSpace(s[0]) then Strip(s[1..])
    else if |s| > 0 && IsSpace(s[|s| - 1]) then Strip(s[..|s| - 1])
    else s
  }

  /** The value of a string of decimal digits, most significant first. */
  function DigitsValue(s: string): nat
    requires AllDigits(s)
  {
    if |s| == 0 then 0 else 10 * DigitsValue(s[..|s| - 1]) + (s[|s| - 1] as int - '0' as int)
  }

  /** A digit literal, `digit (["_"] digit)*`: digits, with each underscore between two digits. */
  predicate IsGroupedDigits(t: string) {
    |t| > 0 && IsDigit(t[0]) && MoreDigits(t[1..])
  }

  /** The `(["_"] digit)*` tail of a digit literal. */
  predicate MoreDigits(u: string)
    decreases |u|
  {
    || |u| == 0
    || (IsDigit(u[0]) && MoreDigits(u[1..]))
    || (|u| > 1 && u[0] == '_' && IsDigit(u[1]) && MoreDigits(u[2..]))
  }

  /** `t` without its underscores. */
  function Ungroup(t: string): (d: string)
    ensures |d| <= |t|
  {
    if |t| == 0 then []
    else (if t[0] == '_' then [] else [t[0]]) + Ungroup(t[1..])
  }

  /** Removing the underscores of digits and underscores leaves digits, and plain digits unchanged. */
  lemma {:induction false} UngroupDigits(t: string)
    ensures (forall i :: 0 <= i < |t| ==> IsDigit(t[i]) || t[i] == '_') ==> AllDigits(Ungroup(t))
    ensures |t| > 0 && IsDigit(t[0]) ==> |Ungroup(t)| > 0
    ensures AllDigits(t) ==> Ungroup(t) == t
    decreases |t|
  {
    if |t| > 0 {
      UngroupDigits(t[1..]);
      assert forall i :: 0 <= i < |t| - 1 ==> t[1..][i] == t[i + 1];
    }
  }

  lemma {:induction false} MoreDigitsShape(u: string)
    requires MoreDigits(u)
    ensures |u| > 0 ==> IsDigit(u[|u| - 1])
    ensures forall i :: 0 <= i < |u| ==> IsDigit(u[i]) || u[i] == '_'
    decreases |u|
  {
    if |u| > 0 && IsDigit(u[0]) && MoreDigits(u[1..]) {
      MoreDigitsShape(u[1..]);
      forall i | 1 <= i < |u| ensures IsDigit(u[i]) || u[i] == '_' {
        assert u[i] == u[1..][i - 1];
      }
    } else if |u| > 0 {
      MoreDigitsShape(u[2..]);
      forall i | 2 <= i < |u| ensures IsDigit(u[i]) || u[i] == '_' {
        assert u[i] == u[2..][i - 2];
      }
    }
  }

  /** A digit literal starts and ends with a digit and holds nothing but digits and underscores. */
  lemma GroupedShape(t: string)
    requires IsGroupedDigits(t)
    ensures IsDigit(t[0]) && IsDigit(t[|t| - 1])
    ensures forall i :: 0 <= i < |t| ==> IsDigit(t[i]) || t[i] == '_'
  {
    MoreDigitsShape(t[1..]);
    forall i | 1 <= i < |t| ensures IsDigit(t[i]) || t[i] == '_' {
      assert t[i] == t[1..][i - 1];
    }
    if |t| > 1 {
      assert t[|t| - 1] == t[1..][|t| - 2];
    }
  }

  /** Plain digits are a digit literal. */
  lemma {:induction false} DigitsAreGrouped(t: string)
    requires |t| > 0 && AllDigits(t)
    ensures IsGroupedDigits(t)
  {
    DigitsAreMoreDigits(t[1..]);
  }

  lemma {:induction false} DigitsAreMoreDigits(u: string)
    requires AllDigits(u)
    ensures MoreDigits(u)
    decreases |u|
  {
    if |u| > 0 {
      DigitsAreMoreDigits(u[1..]);
    }
  }

  /** The value of a digit literal. */
  function GroupedValue(t: string): nat
    requires IsGroupedDigits(t)
  {
    GroupedShape(t);
    UngroupDigits(t);
    DigitsValue(Ungroup(t))
  }

  /** `int(s)`: Some value for a well-formed decimal literal, None where Python raises ValueError. */
  function Parse(s: string): (r: Option<int>)
    ensures r.Some? ==> |Strip(s)| > 0
    ensures r.Some? && r.value < 0 ==> Strip(s)[0] == '-'
    ensures Strip(s) == "" ==> r.None?
  {
    var t := Strip(s);
    if |t| > 1 && (t[0] == '-' || t[0] == '+') && IsGroupedDigits(t[1..]) then
      var v: int := GroupedValue(t[1..]);
      Some(if t[0] == '-' then -v else v)
    else if IsGroupedDigits(t) then Some(GroupedValue(t))
    else None
  }

  /** Whitespace on either side of a literal whose ends are not whitespace is stripped off. */
  lemma {:induction false} StripPadded(pre: string, core: string, post: string)
    requires forall i :: 0 <= i < |pre| ==> IsSpace(pre[i])
    requires forall i :: 0 <= i < |post| ==> IsSpace(post[i])
    requires |core| > 0 && !IsSpace(core[0]) && !IsSpace(core[|core| - 1])
    ensures Strip(pre + core + post) == core
    decreases |pre| + |post|
  {
    var s := pre + core + post;
    if |pre| > 0 {
      assert s[0] == pre[0];
      assert s[1..] == pre[1..] + core + post;
      StripPadded(pre[1..], core, post);
    } else if |post| > 0 {
      assert s[0] == core[0];
      assert s[|s| - 1] == post[|post| - 1];
      assert s[..|s| - 1] == pre + core + post[..|post| - 1];
      StripPadded(pre, core, post[..|post| - 1]);
    } else {
      assert s == core;
    }
  }

  /**
   * Every literal is accepted: optional whitespace, an optional sign, a digit literal and
   * optional whitespace parse to the literal's value, negated after '-'.
   */
  lemma ParseLiteral(pre: string, sign: string, digits: string, post: string)
    requires forall i :: 0 <= i < |pre| ==> IsSpace(pre[i])
    requires forall i :: 0 <= i < |post| ==> IsSpace(post[i])
    requires sign == "" || sign == "-" || sign == "+"
    requires IsGroupedDigits(digits)
    ensures Parse(pre + sign + digits + post) == Some(if sign == "-" then -(GroupedValue(digits) as int) else GroupedValue(digits))
  {
    var s, core := pre + sign + digits + post, sign + digits;
    assert Strip(s) == core by {
      GroupedShape(digits);
      assert core[|core| - 1] == digits[|digits| - 1];
      assert core[0] == if sign == "" then digits[0] else sign[0];
      assert s == pre + core + post;
      StripPadded(pre, core, post);
    }
    if sign == "" {
      assert core == digits;
      ParseUnsignedCore(s);
    } else {
      assert core[1..] == digits;
      ParseSignedCore(s);
    }
  }

  /** Parse depends on the stripped text only: a digit literal there is its value. */
  lemma ParseUnsignedCore(s: string)
    requires IsGroupedDigits(Strip(s))
    ensures Parse(s) == Some(GroupedValue(Strip(s)))
  {
  }

  /** Parse depends on the stripped text only: a sign and a digit literal there. */
  lemma ParseSignedCore(s: string)
    requires var t := Strip(s); |t| > 1 && (t[0] == '-' || t[0] == '+') && IsGroupedDigits(t[1..])
    ensures var t := Strip(s); Parse(s) == Some(if t[0] == '-' then -(GroupedValue(t[1..]) as int) else GroupedValue(t[1..]))
  {
  }

  /** A digit literal with nothing around it is its own value. */
  lemma ParseGrouped(t: string)
    requires IsGroupedDigits(t)
    ensures Parse(t) == Some(GroupedValue(t))
  {
    GroupedShape(t);
    assert Strip(t) == t;
  }

  /** A sign followed by a digit literal. */
  lemma ParseSigned(t: string)
    requires |t| > 1 && (t[0] == '-' || t[0] == '+') && IsGroupedDigits(t[1..])
    ensures Parse(t) == Some(if t[0] == '-' then -(GroupedValue(t[1..]) as int) else GroupedValue(t[1..]))
  {
    GroupedShape(t[1..]);
    assert t[1..][|t| - 2] == t[|t| - 1];
    assert Strip(t) == t;
  }

  /** Underscores group digits. */
  lemma UnderscoreGroups()
    ensures Parse("1_000") == Some(1000)
  {
    var t := "1_000";
    assert IsGroupedDigits(t) by {
      assert t[1..] == "_000" && "_000"[2..] == "00" && "00"[1..] == "0" && "0"[1..] == "";
      assert MoreDigits("0") && MoreDigits("00");
    }
    assert Ungroup(t) == "1000" by {
      assert t[1..] == "_000" && t[1..][1..] == "000";
    }
    var d := "1000";
    assert DigitsValue(d) == 1000 by {
      assert DigitsValue("") == 0;
      assert "1"[..0] == "" && DigitsValue("1") == 1;
      assert "10"[..1] == "1" && DigitsValue("10") == 10;
      assert "100"[..2] == "10" && DigitsValue("100") == 100;
      assert d[..3] == "100";
    }
    ParseGrouped(t);
  }

  /** An underscore may not start or end the digits, follow the sign, or follow another underscore. */
  lemma UnderscoreMisplaced()
    ensures Parse("1__0") == None
    ensures Parse("_1") == None && Parse("1_") == None && Parse("-_1") == None
  {
    var a, b, c, d := "1__0", "_1", "1_", "-_1";
    assert Strip(a) == a && a[1..] == "__0" && !MoreDigits(a[1..]);
    assert Strip(b) == b && b[0] == '_';
    assert Strip(c) == c && c[1..] == "_" && !MoreDigits(c[1..]);
    assert Strip(d) == d && d[1..] == "_1" && d[0] == '-';
  }

  /** The shortest decimal spelling of a natural number. */
  function DecimalNat(n: nat): (s: string)
    ensures |s| > 0 && AllDigits(s)
  {
    if n < 10 then [('0' as int + n) as char]
    else DecimalNat(n / 10) + [('0' as int + n % 10) as char]
  }

  /** `str(n)`: the decimal spelling of an integer, with '-' for a negative one. */
  function Decimal(n: int): string {
    if n < 0 then "-" + DecimalNat(-n) else DecimalNat(n)
  }

  lemma {:induction false} DigitsValueOfDecimal(n: nat)
    ensures DigitsValue(DecimalNat(n)) == n
  {
    var s := DecimalNat(n);
    if n >= 10 {
      DigitsValueOfDecimal(n / 10);
      assert s[..|s| - 1] == DecimalNat(n / 10);
    }
  }

  /** `int(str(n)) == n`: every integer spelled in decimal is read back unchanged. */
  lemma ParseDecimal(n: int)
    ensures Parse(Decimal(n)) == Some(n)
  {
    var m: nat := if n < 0 then -n else n;
    var sign, d := if n < 0 then "-" else "", DecimalNat(m);
    DigitsAreGrouped(d);
    assert GroupedValue(d) == m by {
      DigitsValueOfDecimal(m);
      UngroupDigits(d);
    }
    assert "" + sign + d + "" == Decimal(n);
    ParseLiteral("", sign, d, "");
  }

  /** A text that does not start with whitespace keeps its first character through Strip. */
  lemma {:induction false} StripKeepsFirst(s: string)
    requires |s| > 0 && !IsSpace(s[0])
    ensures |Strip(s)| > 0 && Strip(s)[0] == s[0]
    decreases |s|
  {
    if IsSpace(s[|s| - 1]) {
      StripKeepsFirst(s[..|s| - 1]);
    }
  }

  /** A text that does not end with whitespace keeps its last character through Strip. */
  lemma {:induction false} StripKeepsLast(s: string)
    requires |s| > 0 && !IsSpace(s[|s| - 1])
    ensures |Strip(s)| > 0 && Strip(s)[|Strip(s)| - 1] == s[|s| - 1]
    decreases |s|
  {
    if IsSpace(s[0]) {
      StripKeepsLast(s[1..]);
    }
  }

  /** A digit literal ends with a digit. */
  lemma GroupedEndsInDigit(t: string)
    ensures IsGroupedDigits(t) ==> IsDigit(t[|t| - 1])
  {
    if IsGroupedDigits(t) {
      GroupedShape(t);
    }
  }

  /**
   * The information separators FS, GS, RS and US (U+001C..U+001F) are not stripped:
   * an argument that starts or ends with one raises ValueError.
   */
  lemma SeparatorsNotStripped(s: string)
    requires |s| > 0
    requires '\U{1C}' <= s[0] <= '\U{1F}' || '\U{1C}' <= s[|s| - 1] <= '\U{1F}'
    ensures Parse(s) == None
  {
    var t := Strip(s);
    if '\U{1C}' <= s[0] <= '\U{1F}' {
      StripKeepsFirst(s);
    } else {
      StripKeepsLast(s);
      GroupedEndsInDigit(t);
      if |t| > 1 {
        GroupedEndsInDigit(t[1..]);
        assert t[1..][|t| - 2] == t[|t| - 1];
      }
    }
  }

  /** A flag such as "-t" is not a number, so using one as a value raises ValueError. */
  lemma FlagIsNotANumber(c: char)
    requires !IsDigit(c) && !IsSpace(c)
    ensures Parse(['-', c]) == None
  {
    assert Strip(['-', c]) == ['-', c];
    var t := ['-', c];
    assert t[1..] == [c] && t[1..][0] == c;
    assert !IsGroupedDigits(t) by { assert t[0] == '-'; }
  }
}
