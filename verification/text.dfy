/**
  The few string operations the game applies to its configuration file:
  `strip`, `split` on one separator, `startswith`, the `in` test, and `int`
  on a decimal field.
*/
module Text {
  import opened Results

  /** The characters `str.strip` removes: those `str.isspace` accepts, that
      is the ASCII controls U+0009 to U+000D and U+001C to U+001F, the space,
      and the Unicode spaces and line separators. */
  predicate IsSpace(c: char) {
    '\t' <= c <= '\r' || '\U{1C}' <= c <= ' ' || c == '\U{85}' || c == '\U{A0}' ||
    c == '\U{1680}' || '\U{2000}' <= c <= '\U{200A}' || c == '\U{2028}' || c == '\U{2029}' ||
    c == '\U{202F}' || c == '\U{205F}' || c == '\U{3000}'
  }

  /** The ASCII information separators U+001C to U+001F: white space for
      `str.strip`, but not among the characters `int` skips around its digits. */
  predicate IsSeparator(c: char) {
    '\U{1C}' <= c <= '\U{1F}'
  }

  predicate NoSeparator(s: string) {
    forall i :: 0 <= i < |s| ==> !IsSeparator(s[i])
  }

  predicate AllSpace(s: string) {
    forall i {:trigger IsSpace(s[i])} :: 0 <= i < |s| ==> IsSpace(s[i])
  }

  /** `s` with its leading white space removed. */
  function TrimStart(s: string): (r: string)
    ensures |r| <= |s|
  {
    if s != [] && IsSpace(s[0]) then TrimStart(s[1..]) else s
  }

  /** `s` with its trailing white space removed. */
  function TrimEnd(s: string): (r: string)
    ensures |r| <= |s|
  {
    if s != [] && IsSpace(s[|s| - 1]) then TrimEnd(s[..|s| - 1]) else s
  }

  /** `str.strip()` */
  function Strip(s: string): string {
    TrimEnd(TrimStart(s))
  }

  /** `TrimStart` drops a run of white space from the front and stops at the
      first other character. */
  lemma {:induction false} TrimStartShape(s: string)
    ensures var r := TrimStart(s);
      |r| <= |s| && r == s[|s| - |r|..] && AllSpace(s[..|s| - |r|]) &&
      (r == [] || !IsSpace(r[0]))
  {
    if s != [] && IsSpace(s[0]) {
      TrimStartShape(s[1..]);
      var r := TrimStart(s);
      assert s[1..][|s| - 1 - |r|..] == s[|s| - |r|..];
      assert forall i :: 0 <= i < |s| - |r| ==> s[..|s| - |r|][i] == s[i];
      assert forall i :: 1 <= i < |s| - |r| ==> s[i] == s[1..][..|s| - 1 - |r|][i - 1];
    } else {
      assert s[..0] == [];
    }
  }

  /** `TrimEnd` drops a run of white space from the back and stops at the
      last other character. */
  lemma {:induction false} TrimEndShape(s: string)
    ensures var r := TrimEnd(s);
      |r| <= |s| && r == s[..|r|] && AllSpace(s[|r|..]) &&
      (r == [] || !IsSpace(r[|r| - 1]))
  {
    if s != [] && IsSpace(s[|s| - 1]) {
      var init := s[..|s| - 1];
      TrimEndShape(init);
      var r := TrimEnd(init);
      assert TrimEnd(s) == r;
      assert init[..|r|] == s[..|r|];
      assert s[|r|..] == init[|r|..] + [s[|s| - 1]];
      AllSpaceAppend(init[|r|..], s[|s| - 1]);
    } else {
      assert s[|s|..] == [];
    }
  }

  lemma AllSpaceAppend(a: string, c: char)
    requires AllSpace(a) && IsSpace(c)
    ensures AllSpace(a + [c])
  {
    assert forall i :: 0 <= i < |a| ==> (a + [c])[i] == a[i];
  }

  /** `strip` cuts `s` into a white-space prefix, the stripped text and a
      white-space suffix; the stripped text starts and ends with another
      character. */
  lemma StripShape(s: string)
    ensures var m := Margins(s); var t := Strip(s);
      s == m.0 + t + m.1 && AllSpace(m.0) && AllSpace(m.1) &&
      (t == [] || (!IsSpace(t[0]) && !IsSpace(t[|t| - 1])))
  {
    var u := TrimStart(s);
    var t := TrimEnd(u);
    TrimStartShape(s);
    TrimEndShape(u);
    var k := |s| - |u|;
    assert s == s[..k] + u;
    assert u == t + u[|t|..];
    if t != [] {
      assert t[0] == u[0];
    }
  }

  /** Padding a text that neither starts nor ends with white space, and
      stripping it again, gives the text back. */
  lemma StripPadded(lead: string, t: string, trail: string)
    requires AllSpace(lead) && AllSpace(trail)
    requires t == [] || (!IsSpace(t[0]) && !IsSpace(t[|t| - 1]))
    ensures Strip(lead + t + trail) == t
  {
    assert lead + t + trail == lead + (t + trail);
    if t == [] {
      assert t + trail == trail;
      TrimStartPadded(lead + trail, []);
      assert lead + trail + [] == lead + t + trail;
    } else {
      TrimStartPadded(lead, t + trail);
      TrimEndPadded(t, trail);
    }
  }

  lemma {:induction false} TrimStartPadded(lead: string, t: string)
    requires AllSpace(lead) && (t == [] || !IsSpace(t[0]))
    ensures TrimStart(lead + t) == t
  {
    if lead == [] {
      assert lead + t == t;
    } else {
      assert (lead + t)[0] == lead[0];
      assert (lead + t)[1..] == lead[1..] + t;
      TrimStartPadded(lead[1..], t);
    }
  }

  lemma {:induction false} TrimEndPadded(t: string, trail: string)
    requires AllSpace(trail) && t != [] && !IsSpace(t[|t| - 1])
    ensures TrimEnd(t + trail) == t
  {
    if trail == [] {
      assert t + trail == t;
    } else {
      var s := t + trail;
      assert s[|s| - 1] == trail[|trail| - 1];
      assert s[..|s| - 1] == t + trail[..|trail| - 1];
      TrimEndPadded(t, trail[..|trail| - 1]);
    }
  }

  /** `s.startswith(p)` */
  predicate StartsWith(s: string, p: string) {
    |p| <= |s| && s[..|p|] == p
  }

  /** `sub in s` */
  predicate Contains(s: string, sub: string) {
    StartsWith(s, sub) || (s != [] && Contains(s[1..], sub))
  }

  /** Position of the first `c` in `s`. */
  function FirstIndex(s: string, c: char): (i: nat)
    requires c in s
    ensures i < |s| && s[i] == c && c !in s[..i]
  {
    if s[0] == c then 0 else 1 + FirstIndex(s[1..], c)
  }

  /** The pieces joined back with the separator between them (`sep.join`). */
  function Join(parts: seq<string>, sep: char): string
    requires |parts| > 0
  {
    if |parts| == 1 then parts[0] else parts[0] + [sep] + Join(parts[1..], sep)
  }

  /** `s.split(sep)` for a one-character separator: the text between
      consecutive separators, empty pieces included. */
  function Split(s: string, sep: char): (parts: seq<string>)
    ensures |parts| > 0
    decreases |s|
  {
    if sep !in s then [s]
    else
      var i := FirstIndex(s, sep);
      [s[..i]] + Split(s[i + 1..], sep)
  }

  /** Joining the pieces of a split gives the text back, and no piece holds
      the separator. */
  lemma {:induction false} SplitShape(s: string, sep: char)
    ensures var parts := Split(s, sep);
      Join(parts, sep) == s && forall i :: 0 <= i < |parts| ==> sep !in parts[i]
    decreases |s|
  {
    if sep in s {
      var i := FirstIndex(s, sep);
      SplitShape(s[i + 1..], sep);
      var parts := Split(s, sep);
      assert parts[1..] == Split(s[i + 1..], sep);
      assert s == s[..i] + [sep] + s[i + 1..];
      assert forall j :: 1 <= j < |parts| ==> parts[j] == parts[1..][j - 1];
    }
  }

  /** Splitting undoes joining pieces free of the separator. */
  lemma {:induction false} SplitJoin(parts: seq<string>, sep: char)
    requires |parts| > 0 && forall i :: 0 <= i < |parts| ==> sep !in parts[i]
    ensures Split(Join(parts, sep), sep) == parts
  {
    if |parts| > 1 {
      var s := Join(parts, sep);
      var tail := Join(parts[1..], sep);
      assert s == parts[0] + [sep] + tail;
      assert s[|parts[0]|] == sep;
      var i := FirstIndex(s, sep);
      assert i == |parts[0]|;
      assert s[..i] == parts[0] && s[i + 1..] == tail;
      SplitJoin(parts[1..], sep);
    }
  }

  predicate IsDigit(c: char) {
    '0' <= c <= '9'
  }

  /** The body `int` accepts after the sign: digits, with single underscores
      allowed between two digits. */
  predicate DigitsOk(s: string) {
    |s| > 0 && IsDigit(s[0]) && IsDigit(s[|s| - 1]) &&
    (forall i :: 0 <= i < |s| ==> IsDigit(s[i]) || s[i] == '_') &&
    (forall i :: 0 <= i < |s| - 1 ==> !(s[i] == '_' && s[i + 1] == '_'))
  }

  /** The value of a run of digits and underscores, read most significant first. */
  function DigitsValue(s: string): nat
    requires forall i :: 0 <= i < |s| ==> IsDigit(s[i]) || s[i] == '_'
  {
    if s == [] then 0
    else
      var last := s[|s| - 1];
      if last == '_' then DigitsValue(s[..|s| - 1])
      else
        assert IsDigit(s[|s| - 1]);
        DigitsValue(s[..|s| - 1]) * 10 + (last as int - '0' as int)
  }

  /** The white space `strip` removes in front of and behind `s`. */
  function Margins(s: string): (m: (string, string))
    ensures |m.0| + |Strip(s)| + |m.1| == |s|
  {
    var u := TrimStart(s);
    (s[..|s| - |u|], u[|TrimEnd(u)|..])
  }

  /** `int(s)` in base 10: surrounding white space, an optional sign, then
      the digits. Anything else is a `ValueError`. `int` skips the same white
      space as `strip` except the separators U+001C to U+001F, so a separator
      in the margins leaves a character that is not a digit. */
  function ParseInt(s: string): (r: Result<int>)
    ensures var t := Strip(s); var body := if t != [] && t[0] in "+-" then t[1..] else t;
      r.Ok? <==> DigitsOk(body) && NoSeparator(Margins(s).0) && NoSeparator(Margins(s).1)
    ensures var t := Strip(s); var body := if t != [] && t[0] in "+-" then t[1..] else t;
      r.Ok? ==> r.value == if t[0] == '-' then -(DigitsValue(body) as int) else DigitsValue(body) as int
  {
    var t := Strip(s);
    var body := if t != [] && t[0] in "+-" then t[1..] else t;
    var (lead, trail) := Margins(s);
    if !DigitsOk(body) || !NoSeparator(lead) || !NoSeparator(trail) then Err("invalid literal for int()")
    else
      var v: int := DigitsValue(body);
      Ok(if t[0] == '-' then -v else v)
  }

  /** Decimal digits of a natural number, without sign or leading zeros. */
  function NatDigits(n: nat): (s: string)
    ensures |s| > 0 && forall i :: 0 <= i < |s| ==> IsDigit(s[i])
  {
    if n < 10 then [(n + '0' as int) as char]
    else NatDigits(n / 10) + [(n % 10 + '0' as int) as char]
  }

  /** `str(n)` */
  function Decimal(n: int): (s: string)
    ensures |s| > 0 && !IsSpace(s[0]) && !IsSpace(s[|s| - 1])
    ensures forall i :: 0 <= i < |s| ==> IsDigit(s[i]) || s[i] == '-'
  {
    if n < 0 then "-" + NatDigits(-n) else NatDigits(n)
  }

  lemma {:induction false} NatDigitsValue(n: nat)
    ensures DigitsValue(NatDigits(n)) == n
  {
    var s := NatDigits(n);
    if n >= 10 {
      NatDigitsValue(n / 10);
      assert s[..|s| - 1] == NatDigits(n / 10);
    }
  }

  /** `int(str(n)) == n` */
  lemma ParseDecimal(n: int)
    ensures ParseInt(Decimal(n)) == Ok(n)
  {
    var s := Decimal(n);
    assert Strip(s) == s by {
      StripPadded("", s, "");
      assert "" + s + "" == s;
    }
    assert TrimStart(s) == s;
    assert Margins(s).0 == [] && Margins(s).1 == [];
    var m: nat := if n < 0 then -n else n;
    var body := NatDigits(m);
    NatDigitsValue(m);
    assert DigitsOk(body);
    if n < 0 {
      assert s[0] == '-' && s[1..] == body;
    } else {
      assert s == body && s[0] != '+' && s[0] != '-';
    }
  }
}
