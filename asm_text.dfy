/**
 * The text helpers of the code generator: case-insensitive comparison, type
 * widths, variable lookup, integer and index literals, and label sanitising.
 * Where the source loops, a method with the loop is proved equal to the
 * function that specifies it.
 */
module AsmText {
  import opened Wrappers
  import opened Text

  // ---------------------------------------------------------------------------
  // equals_ignore_case

  /** Equal after `tolower` on every character. */
  predicate SameIgnoringCase(a: string, b: string)
  {
    LowerString(a) == LowerString(b)
  }

  /** `equals_ignore_case`: false when either side is NULL. */
  method EqualsIgnoreCase(a: Option<string>, b: Option<string>) returns (r: bool)
    ensures r <==> a.Some? && b.Some? && SameIgnoringCase(a.value, b.value)
  {
    if a.None? || b.None? {
      return false;
    }
    var x, y := a.value, b.value;
    var i := 0;
    while i < |x| && i < |y|
      invariant 0 <= i <= |x| && i <= |y|
      invariant forall k :: 0 <= k < i ==> Lower(x[k]) == Lower(y[k])
    {
      if Lower(x[i]) != Lower(y[i]) {
        assert LowerString(x)[i] != LowerString(y)[i];
        return false;
      }
      i := i + 1;
    }
    r := i == |x| && i == |y|;
    if r {
      assert LowerString(x) == LowerString(y);
    } else {
      assert |LowerString(x)| != |LowerString(y)|;
    }
  }

  /** Lower-case text compares equal exactly to the texts that lower-case to it. */
  lemma SameIgnoringCaseLowerWord(t: string, w: string)
    requires forall i :: 0 <= i < |w| ==> !('A' <= w[i] <= 'Z')
    ensures SameIgnoringCase(t, w) <==> LowerString(t) == w
  {
    assert LowerString(w) == w;
  }

  // ---------------------------------------------------------------------------
  // type_size_bytes

  /** `type_size_bytes`: the width in bytes of a variable of the given type text. */
  function TypeSizeBytes(t: Option<string>): (r: int)
    ensures r == 1 <==> t.Some? && LowerString(t.value) in ["bool", "byte", "char"]
    ensures r == 8 <==> t.Some? && LowerString(t.value) in ["long", "ulong"]
    ensures r == 4 <==> t.None? || LowerString(t.value) !in ["bool", "byte", "char", "long", "ulong"]
  {
    if t.None? then 4
    else
      var s := t.value;
      SameIgnoringCaseLowerWord(s, "bool");
      SameIgnoringCaseLowerWord(s, "byte");
      SameIgnoringCaseLowerWord(s, "char");
      SameIgnoringCaseLowerWord(s, "long");
      SameIgnoringCaseLowerWord(s, "ulong");
      if SameIgnoringCase(s, "bool") then 1
      else if SameIgnoringCase(s, "byte") then 1
      else if SameIgnoringCase(s, "char") then 1
      else if SameIgnoringCase(s, "long") || SameIgnoringCase(s, "ulong") then 8
      else 4
  }

  /** Type texts that differ only in letter case have the same width. */
  lemma TypeSizeIgnoresCase(a: string, b: string)
    requires SameIgnoringCase(a, b)
    ensures TypeSizeBytes(Some(a)) == TypeSizeBytes(Some(b))
  {
  }

  // ---------------------------------------------------------------------------
  // find_var_index

  /** The first position of `name` in `names`, or -1 (also for a NULL name). */
  function VarIndex(names: seq<string>, name: Option<string>): (r: int)
    ensures -1 <= r < |names|
    ensures r == -1 <==> name.None? || name.value !in names
    ensures r >= 0 ==> names[r] == name.value && forall k :: 0 <= k < r ==> names[k] != name.value
  {
    if name.None? || names == [] then -1
    else if names[0] == name.value then 0
    else
      var k := VarIndex(names[1..], name);
      assert forall j :: 1 <= j < |names| ==> names[j] == names[1..][j - 1];
      if k < 0 then -1 else k + 1
  }

  /** `find_var_index`: a linear search from the front. */
  method FindVarIndex(names: seq<string>, name: Option<string>) returns (r: int)
    ensures r == VarIndex(names, name)
  {
    if name.None? {
      return -1;
    }
    var i := 0;
    while i < |names|
      invariant 0 <= i <= |names|
      invariant forall k :: 0 <= k < i ==> names[k] != name.value
    {
      if names[i] == name.value {
        return i;
      }
      i := i + 1;
    }
    return -1;
  }

  // ---------------------------------------------------------------------------
  // parse_binary_literal, parse_int_literal, parse_index_operand

  predicate IsBinaryDigits(s: string)
  {
    forall i :: 0 <= i < |s| ==> s[i] == '0' || s[i] == '1'
  }

  /** The value of a string of binary digits, most significant first. */
  function BinaryValue(s: string): nat
    requires IsBinaryDigits(s)
  {
    if s == [] then 0 else BinaryValue(s[..|s| - 1]) * 2 + (if s[|s| - 1] == '1' then 1 else 0)
  }

  function Pow2(n: nat): nat
  {
    if n == 0 then 1 else 2 * Pow2(n - 1)
  }

  /** `k` binary digits hold a value below `2^k`, so up to 31 digits fit an `int`. */
  lemma {:induction false} BinaryValueBound(s: string)
    requires IsBinaryDigits(s)
    ensures BinaryValue(s) < Pow2(|s|)
  {
    if s != [] {
      BinaryValueBound(s[..|s| - 1]);
    }
  }

  /** `parse_binary_literal`: shift in one digit at a time, failing on any other character. */
  method ParseBinaryLiteral(text: string) returns (r: Option<int>)
    ensures r.Some? <==> IsBinaryDigits(text)
    ensures r.Some? ==> r.value == BinaryValue(text)
  {
    var value := 0;
    var i := 0;
    while i < |text|
      invariant 0 <= i <= |text| && IsBinaryDigits(text[..i])
      invariant value == BinaryValue(text[..i])
    {
      if text[i] == '0' || text[i] == '1' {
        assert text[..i + 1][..i] == text[..i];
        value := value * 2 + (if text[i] == '1' then 1 else 0);
      } else {
        return None;
      }
      i := i + 1;
    }
    assert text[..i] == text;
    return Some(value);
  }

  /** A hexadecimal prefix `0x`/`0X` or a binary prefix `0b`/`0B`. */
  predicate HasPrefix(s: string, lower: char, upper: char)
  {
    |s| >= 2 && s[0] == '0' && (s[1] == lower || s[1] == upper)
  }

  /**
   * `parse_int_literal`: "true" is 1 and "false" 0; after `0x` the rest must
   * be a whole hexadecimal `strtol` number and after `0b` binary digits; a
   * quoted or empty text is refused; otherwise the whole text must be a
   * decimal `strtol` number.
   */
  function ParseIntLiteral(text: Option<string>): (r: Option<int>)
    ensures r.Some? ==> text.Some? && text.value != []
    ensures r.Some? && !HasPrefix(text.value, 'x', 'X') && !HasPrefix(text.value, 'b', 'B') ==>
      text.value[0] != '"' && text.value[0] != '\''
    ensures text.Some? && HasPrefix(text.value, 'b', 'B') ==>
      (r.Some? <==> IsBinaryDigits(text.value[2..]))
    ensures text == Some("true") ==> r == Some(1)
    ensures text == Some("false") ==> r == Some(0)
    ensures text.Some? && HasPrefix(text.value, 'x', 'X') && AllDigits(text.value[2..], 16) ==>
      r == Some(DigitsValue(text.value[2..], 16))
    ensures text.Some? && HasPrefix(text.value, 'b', 'B') && IsBinaryDigits(text.value[2..]) ==>
      r == Some(BinaryValue(text.value[2..]))
    ensures text.Some? && text.value != [] && AllDigits(text.value, 10) ==>
      r == Some(DigitsValue(text.value, 10))
    ensures text.Some? && |text.value| >= 2 && text.value[0] == '-' && AllDigits(text.value[1..], 10) ==>
      r.Some? && r.value == -(DigitsValue(text.value[1..], 10) as int)
  {
    if text.None? then None
    else
      var s := text.value;
      if s == "true" then Some(1)
      else if s == "false" then Some(0)
      else if HasPrefix(s, 'x', 'X') then StrtolWhole(s[2..], 16)
      else if HasPrefix(s, 'b', 'B') then
        if IsBinaryDigits(s[2..]) then Some(BinaryValue(s[2..])) else None
      else if s == [] || s[0] == '"' || s[0] == '\'' then None
      else StrtolWhole(s, 10)
  }

  /** Every `%d` text reads back as its number: literals the code generator formats round-trip. */
  lemma ParseIntLiteralFormatInt(n: int)
    ensures ParseIntLiteral(Some(FormatInt(n))) == Some(n)
  {
    var s := FormatInt(n);
    FormatIntRoundTrip(n);
    if n >= 0 {
      assert DigitValue(s[0], 10).Some?;
      if |s| >= 2 {
        assert s[0] != '0';
      }
    }
    assert s != "true" && s != "false" by {
      assert DigitValue(s[0], 10).Some? || s[0] == '-';
    }
  }

  const IntMax: int := 0x7fff_ffff

  /**
   * `parse_index_operand`: the whole text must be a decimal `strtol` number
   * between 0 and INT_MAX. An empty text is accepted as 0, since `strtol`
   * then stops at the terminating NUL.
   */
  function ParseIndexOperand(text: Option<string>): (r: Option<int>)
    ensures r.Some? ==> 0 <= r.value <= IntMax
    ensures text == Some("") ==> r == Some(0)
  {
    if text.None? then None
    else
      match StrtolWhole(text.value, 10)
      case None => None
      case Some(v) => if v < 0 || v > IntMax then None else Some(v)
  }

  /** Index operands written with `%d` read back as themselves. */
  lemma ParseIndexOperandFormatInt(n: int)
    requires 0 <= n <= IntMax
    ensures ParseIndexOperand(Some(FormatInt(n))) == Some(n)
  {
    FormatIntRoundTrip(n);
  }

  /** `is_jump_mnemonic`: jmp, jz or jnz in any letter case. */
  predicate IsJumpMnemonic(m: string)
  {
    SameIgnoringCase(m, "jmp") || SameIgnoringCase(m, "jz") || SameIgnoringCase(m, "jnz")
  }

  // ---------------------------------------------------------------------------
  // sanitize_label

  /** The characters a label keeps. */
  predicate LabelChar(c: char)
  {
    IsAlnum(c) || c == '_'
  }

  /** The name to sanitise: "entry" in place of a NULL or empty name. */
  function RawLabel(name: Option<string>): (r: string)
    ensures r != []
  {
    if name.None? || name.value == [] then "entry" else name.value
  }

  function LabelChars(s: string): (r: string)
    ensures |r| == |s|
    ensures forall i :: 0 <= i < |s| ==> r[i] == (if LabelChar(s[i]) then s[i] else '_')
  {
    if s == [] then [] else LabelChars(s[..|s| - 1]) + [if LabelChar(s[|s| - 1]) then s[|s| - 1] else '_']
  }

  /**
   * `sanitize_label`: an "M_" prefix when the name does not start with a
   * letter, then every character that is not a letter, a digit or `_`
   * replaced by `_`. The result starts with a letter and holds only label
   * characters.
   */
  function Sanitize(name: Option<string>): (r: string)
    ensures var raw := RawLabel(name); var extra := if IsAlpha(raw[0]) then 0 else 2;
      |r| == |raw| + extra && (extra == 2 ==> r[..2] == "M_") && r[extra..] == LabelChars(raw)
    ensures IsAlpha(r[0]) && forall i :: 0 <= i < |r| ==> LabelChar(r[i])
  {
    var raw := RawLabel(name);
    if IsAlpha(raw[0]) then LabelChars(raw) else "M_" + LabelChars(raw)
  }

  /** Sanitising a sanitised label changes nothing. */
  lemma SanitizeIdempotent(name: Option<string>)
    ensures Sanitize(Some(Sanitize(name))) == Sanitize(name)
  {
    var s := Sanitize(name);
    assert LabelChars(s) == s;
  }

  /** `sanitize_label`: the buffer is filled position by position. */
  method SanitizeLabel(name: Option<string>) returns (sanitized: string)
    ensures sanitized == Sanitize(name)
  {
    var raw := RawLabel(name);
    var extra := if IsAlpha(raw[0]) then 0 else 2;
    var buf := new char[|raw| + extra];
    var pos := 0;
    if extra == 2 {
      buf[0] := 'M';
      buf[1] := '_';
      pos := 2;
    }
    var i := 0;
    while i < |raw|
      invariant 0 <= i <= |raw| && pos == extra + i
      invariant extra == 2 ==> buf[0] == 'M' && buf[1] == '_'
      invariant forall k :: extra <= k < pos ==> buf[k] == (if LabelChar(raw[k - extra]) then raw[k - extra] else '_')
    {
      buf[pos] := if LabelChar(raw[i]) then raw[i] else '_';
      pos := pos + 1;
      i := i + 1;
    }
    sanitized := buf[..];
    SanitizedBuffer(name, sanitized);
  }

  /** A buffer holding the prefix (when needed) and then each character of the raw label, replaced or kept, is the sanitised label. */
  lemma SanitizedBuffer(name: Option<string>, s: string)
    requires var raw := RawLabel(name); var extra := if IsAlpha(raw[0]) then 0 else 2;
      |s| == |raw| + extra && (extra == 2 ==> s[0] == 'M' && s[1] == '_')
      && forall k :: extra <= k < |s| ==> s[k] == (if LabelChar(raw[k - extra]) then raw[k - extra] else '_')
    ensures s == Sanitize(name)
  {
    var raw := RawLabel(name);
    var extra := if IsAlpha(raw[0]) then 0 else 2;
    var expected := Sanitize(name);
    forall k | 0 <= k < |s| ensures s[k] == expected[k] {
      if k < extra {
        assert expected[..2][k] == expected[k];
      } else {
        assert expected[extra..][k - extra] == expected[k];
      }
    }
  }
}
