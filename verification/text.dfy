/**
 * The Python `str` operations the core relies on, restricted to ASCII where
 * Python consults the Unicode database: `title`, `capitalize`, `strip`,
 * `split` with an explicit separator, `join`, `replace`, `int()` on text,
 * `str()` of an integer and the `unicode_escape` codec.
 */
module Text {
  import opened Wrappers

  // ---------------------------------------------------------------- letters

  predicate IsUpper(c: char) { 'A' <= c <= 'Z' }
  predicate IsLower(c: char) { 'a' <= c <= 'z' }
  predicate IsLetter(c: char) { IsUpper(c) || IsLower(c) }

  function ToUpper(c: char): (u: char)
    ensures IsLower(c) ==> IsUpper(u) && u as int == c as int - 32
    ensures !IsLower(c) ==> u == c
  {
    if IsLower(c) then (c as int - 32) as char else c
  }

  function ToLower(c: char): (l: char)
    ensures IsUpper(c) ==> IsLower(l) && l as int == c as int + 32
    ensures !IsUpper(c) ==> l == c
  {
    if IsUpper(c) then (c as int + 32) as char else c
  }

  /** The case of a letter is changed, everything else is kept. */
  lemma CaseFacts(c: char)
    ensures IsLetter(ToUpper(c)) == IsLetter(c) && IsLetter(ToLower(c)) == IsLetter(c)
    ensures ToUpper(ToLower(c)) == ToUpper(c) && ToLower(ToUpper(c)) == ToLower(c)
    ensures ToUpper(ToUpper(c)) == ToUpper(c) && ToLower(ToLower(c)) == ToLower(c)
  {
  }

  // ---------------------------------------------------------------- str.title

  /** `str.title()` on what follows a letter (`afterLetter`) or a non-letter. */
  function TitleAfter(s: string, afterLetter: bool): (r: string)
    ensures |r| == |s|
  {
    if s == [] then []
    else
      var c := s[0];
      [if !IsLetter(c) then c else if afterLetter then ToLower(c) else ToUpper(c)]
      + TitleAfter(s[1..], IsLetter(c))
  }

  /**
   * `str.title()`: the first letter of every run of letters is upper case,
   * the others lower case; a digit or a quote ends a run ("3rd" -> "3Rd").
   */
  function Title(s: string): (r: string)
    ensures |r| == |s|
  {
    TitleAfter(s, false)
  }

  /** The character-wise reading of `str.title()`. */
  function TitleChar(s: string, i: nat): char
    requires i < |s|
  {
    if !IsLetter(s[i]) then s[i]
    else if i > 0 && IsLetter(s[i - 1]) then ToLower(s[i])
    else ToUpper(s[i])
  }

  lemma {:induction false} TitleAfterAt(s: string, afterLetter: bool, i: nat)
    requires i < |s|
    ensures |TitleAfter(s, afterLetter)| == |s|
    ensures TitleAfter(s, afterLetter)[i] ==
      if !IsLetter(s[i]) then s[i]
      else if (if i == 0 then afterLetter else IsLetter(s[i - 1])) then ToLower(s[i])
      else ToUpper(s[i])
  {
    if i == 0 {
      if |s| > 1 {
        TitleAfterAt(s[1..], IsLetter(s[0]), 0);
      } else {
        assert s[1..] == [];
      }
    } else {
      TitleAfterAt(s[1..], IsLetter(s[0]), i - 1);
    }
  }

  /** `Title` keeps the length and changes each letter as `TitleChar` says. */
  lemma TitleAt(s: string)
    ensures |Title(s)| == |s|
    ensures forall i :: 0 <= i < |s| ==> Title(s)[i] == TitleChar(s, i)
  {
    if s == [] {
    } else {
      forall i | 0 <= i < |s| ensures |Title(s)| == |s| && Title(s)[i] == TitleChar(s, i) {
        TitleAfterAt(s, false, i);
      }
    }
  }

  lemma {:induction false} TitleAfterIdempotent(s: string, afterLetter: bool)
    ensures TitleAfter(TitleAfter(s, afterLetter), afterLetter) == TitleAfter(s, afterLetter)
  {
    if s != [] {
      var c := s[0];
      var t := TitleAfter(s, afterLetter);
      CaseFacts(c);
      assert t[1..] == TitleAfter(s[1..], IsLetter(c));
      TitleAfterIdempotent(s[1..], IsLetter(c));
    }
  }

  /** Title-casing twice is title-casing once. */
  lemma TitleIdempotent(s: string)
    ensures Title(Title(s)) == Title(s)
  {
    TitleAfterIdempotent(s, false);
  }

  // ---------------------------------------------------------------- str.capitalize

  function LowerAll(s: string): string
  {
    seq(|s|, i requires 0 <= i < |s| => ToLower(s[i]))
  }

  /** `str.capitalize()`: the first character upper case, every other one lower case. */
  function Capitalize(s: string): (r: string)
    ensures |r| == |s|
    ensures s != [] ==> !IsLower(r[0])
    ensures forall i :: 1 <= i < |r| ==> !IsUpper(r[i])
  {
    if s == [] then [] else [ToUpper(s[0])] + LowerAll(s[1..])
  }

  /**
   * A capitalised text keeps every character of the input up to its case,
   * has no upper-case letter after its first character, and capitalising
   * again changes nothing.
   */
  lemma CapitalizeShape(s: string)
    ensures |Capitalize(s)| == |s|
    ensures forall i :: 0 <= i < |s| ==> ToLower(Capitalize(s)[i]) == ToLower(s[i])
    ensures forall i :: 1 <= i < |s| ==> !IsUpper(Capitalize(s)[i])
    ensures s != [] ==> !IsLower(Capitalize(s)[0])
    ensures Capitalize(Capitalize(s)) == Capitalize(s)
  {
    if s != [] {
      var c := Capitalize(s);
      CaseFacts(s[0]);
      forall i | 1 <= i < |s| ensures ToLower(c[i]) == c[i] && c[i] == ToLower(s[i]) {
        CaseFacts(s[i]);
      }
      assert Capitalize(c) == c;
    }
  }

  lemma LowerAllConcat(a: string, b: string)
    ensures LowerAll(a + b) == LowerAll(a) + LowerAll(b)
  {
  }

  /** Capitalising a text whose tail is already lower case only raises its first character. */
  lemma CapitalizeLowerTail(c: char, rest: string)
    requires LowerAll(rest) == rest
    ensures Capitalize([c] + rest) == [ToUpper(c)] + rest
  {
    assert ([c] + rest)[1..] == rest;
  }

  // ---------------------------------------------------------------- str.strip

  /** The ASCII characters for which `str.isspace()` holds. */
  predicate IsSpace(c: char)
  {
    c == ' ' || 9 <= c as int <= 13 || 28 <= c as int <= 31
  }

  predicate AllSpace(s: string)
  {
    forall i :: 0 <= i < |s| ==> IsSpace(s[i])
  }

  function TrimStart(s: string): (r: string)
    ensures |r| <= |s| && r == s[|s| - |r|..]
    ensures AllSpace(s[..|s| - |r|])
    ensures r != [] ==> !IsSpace(r[0])
  {
    if s != [] && IsSpace(s[0]) then
      var r := TrimStart(s[1..]);
      assert s[..|s| - |r|] == [s[0]] + s[1..][..|s| - 1 - |r|];
      r
    else s
  }

  function TrimEnd(s: string): (r: string)
    ensures |r| <= |s| && r == s[..|r|]
    ensures AllSpace(s[|r|..])
    ensures r != [] ==> !IsSpace(r[|r| - 1])
  {
    if s != [] && IsSpace(s[|s| - 1]) then
      var r := TrimEnd(s[..|s| - 1]);
      assert s[|r|..] == s[..|s| - 1][|r|..] + [s[|s| - 1]];
      r
    else s
  }

  /** `str.strip()`: leading and trailing white space removed. */
  function Strip(s: string): (r: string)
    ensures |r| <= |s|
    ensures r != [] ==> !IsSpace(r[0]) && !IsSpace(r[|r| - 1])
  {
    TrimEnd(TrimStart(s))
  }

  /** A text without white space at either end is its own stripped form. */
  lemma StripUnchanged(s: string)
    requires s != [] ==> !IsSpace(s[0]) && !IsSpace(s[|s| - 1])
    ensures Strip(s) == s
  {
  }

  /** Stripping leaves nothing exactly when the text is all white space. */
  lemma StripEmpty(s: string)
    ensures Strip(s) == [] <==> AllSpace(s)
  {
    var t := TrimStart(s);
    var i := |s| - |t|;
    if Strip(s) == [] {
      assert AllSpace(t[0..]);
      forall k | 0 <= k < |s| ensures IsSpace(s[k]) {
        if k < i { assert s[..i][k] == s[k]; }
      }
    }
  }

  // ---------------------------------------------------------------- str.split / str.join

  function Occurrences(s: string, c: char): nat
  {
    if s == [] then 0 else (if s[0] == c then 1 else 0) + Occurrences(s[1..], c)
  }

  /** `s.split(c)` for a one-character separator: the pieces between separators, empty ones included. */
  function Split(s: string, c: char): (parts: seq<string>)
    ensures |parts| == Occurrences(s, c) + 1
    ensures forall k, j :: 0 <= k < |parts| && 0 <= j < |parts[k]| ==> parts[k][j] != c
  {
    if s == [] then [""]
    else if s[0] == c then [""] + Split(s[1..], c)
    else
      var rest := Split(s[1..], c);
      [[s[0]] + rest[0]] + rest[1..]
  }

  /** `sep.join(parts)`. */
  function Join(parts: seq<string>, sep: string): (r: string)
    ensures parts == [] ==> r == []
    ensures parts != [] ==> |parts[0]| <= |r| && r[..|parts[0]|] == parts[0]
  {
    if parts == [] then ""
    else if |parts| == 1 then parts[0]
    else
      parts[0] + sep + Join(parts[1..], sep)
  }

  /** Joining the pieces of a split with the separator gives the text back. */
  lemma {:induction false} SplitJoin(s: string, c: char)
    ensures Join(Split(s, c), [c]) == s
  {
    if s == [] {
    } else if s[0] == c {
      SplitJoin(s[1..], c);
      assert s == [c] + s[1..];
    } else {
      var rest := Split(s[1..], c);
      SplitJoin(s[1..], c);
      var parts := [[s[0]] + rest[0]] + rest[1..];
      assert parts[1..] == rest[1..];
      assert Join(parts, [c]) == [s[0]] + Join(rest, [c]);
      assert s == [s[0]] + s[1..];
    }
  }

  predicate Lacks(s: string, c: char)
  {
    forall j :: 0 <= j < |s| ==> s[j] != c
  }

  /** A piece without the separator, then the separator, starts a split. */
  lemma {:induction false} SplitAfterPiece(a: string, b: string, c: char)
    requires Lacks(a, c)
    ensures Split(a + [c] + b, c) == [a] + Split(b, c)
  {
    if a == [] {
      assert a + [c] + b == [c] + b;
    } else {
      var s := a + [c] + b;
      SplitAfterPiece(a[1..], b, c);
      assert s[0] == a[0] && s[1..] == a[1..] + [c] + b;
      assert a == [a[0]] + a[1..];
    }
  }

  lemma {:induction false} SplitLacking(a: string, c: char)
    requires Lacks(a, c)
    ensures Split(a, c) == [a]
  {
    if a != [] {
      SplitLacking(a[1..], c);
      assert a == [a[0]] + a[1..];
    }
  }

  /** Splitting a join of pieces without the separator gives the pieces back. */
  lemma {:induction false} JoinSplit(parts: seq<string>, c: char)
    requires parts != [] && forall k :: 0 <= k < |parts| ==> Lacks(parts[k], c)
    ensures Split(Join(parts, [c]), c) == parts
  {
    if |parts| == 1 {
      SplitLacking(parts[0], c);
    } else {
      JoinSplit(parts[1..], c);
      SplitAfterPiece(parts[0], Join(parts[1..], [c]), c);
      assert parts == [parts[0]] + parts[1..];
    }
  }

  // ---------------------------------------------------------------- str.replace

  /** `pat` occurs somewhere in `s`. */
  predicate Occurs(s: string, pat: string)
    requires |pat| > 0
    decreases |s|
  {
    if |s| < |pat| then false
    else s[..|pat|] == pat || Occurs(s[1..], pat)
  }

  /** `s.replace(pat, rep)`: every occurrence, scanned left to right without overlap. */
  function Replace(s: string, pat: string, rep: string): (r: string)
    requires |pat| > 0
    ensures |rep| == |pat| ==> |r| == |s|
    decreases |s|
  {
    if |s| < |pat| then s
    else if s[..|pat|] == pat then rep + Replace(s[|pat|..], pat, rep)
    else [s[0]] + Replace(s[1..], pat, rep)
  }

  /** A text without the pattern is left as it is. */
  lemma {:induction false} ReplaceAbsent(s: string, pat: string, rep: string)
    requires |pat| > 0 && !Occurs(s, pat)
    ensures Replace(s, pat, rep) == s
    decreases |s|
  {
    if |s| >= |pat| {
      ReplaceAbsent(s[1..], pat, rep);
      assert s == [s[0]] + s[1..];
    }
  }

  /** A pattern holding a character the text lacks does not occur in it. */
  lemma {:induction false} AbsentChar(s: string, pat: string, c: char)
    requires |pat| > 0 && c in pat && c !in s
    ensures !Occurs(s, pat)
    decreases |s|
  {
    if |s| >= |pat| {
      AbsentChar(s[1..], pat, c);
    }
  }

  /** An occurrence of `pat` starts at position `j` of `s`. */
  predicate MatchesAt(s: string, j: int, pat: string)
  {
    0 <= j && j + |pat| <= |s| && s[j..j + |pat|] == pat
  }

  /** No occurrence of `pat` in `s` starts before position `n`. */
  predicate NoEarlier(s: string, n: nat, pat: string)
  {
    forall j :: 0 <= j < n ==> !MatchesAt(s, j, pat)
  }

  /** `Occurs` scans for the pattern: it holds exactly when an occurrence starts somewhere in the text. */
  lemma {:induction false} OccursSomewhere(s: string, pat: string)
    requires |pat| > 0
    ensures Occurs(s, pat) <==> exists j :: MatchesAt(s, j, pat)
    decreases |s|
  {
    if |s| >= |pat| {
      OccursSomewhere(s[1..], pat);
      if s[..|pat|] == pat {
        assert s[0..0 + |pat|] == s[..|pat|];
        assert MatchesAt(s, 0, pat);
      }
      if Occurs(s[1..], pat) {
        var j :| MatchesAt(s[1..], j, pat);
        assert s[1..][j..j + |pat|] == s[j + 1..j + 1 + |pat|];
        assert MatchesAt(s, j + 1, pat);
      }
      if exists j :: MatchesAt(s, j, pat) {
        var j :| MatchesAt(s, j, pat);
        if j > 0 {
          assert s[1..][j - 1..j - 1 + |pat|] == s[j..j + |pat|];
          assert MatchesAt(s[1..], j - 1, pat);
        } else {
          assert s[0..0 + |pat|] == s[..|pat|];
        }
      }
    }
  }

  /** With a character before the first occurrence, the scan does not match at the front, and the rest has no earlier occurrence either. */
  lemma NoEarlierStep(a: string, pat: string, b: string)
    requires |pat| > 0 && a != [] && NoEarlier(a + pat + b, |a|, pat)
    ensures (a + pat + b)[..|pat|] != pat
    ensures (a + pat + b)[1..] == a[1..] + pat + b
    ensures NoEarlier(a[1..] + pat + b, |a| - 1, pat)
  {
    var s := a + pat + b;
    var t := a[1..] + pat + b;
    assert !MatchesAt(s, 0, pat);
    assert s[0..0 + |pat|] == s[..|pat|];
    assert s[1..] == t;
    forall j | 0 <= j < |a| - 1
      ensures !MatchesAt(t, j, pat)
    {
      assert !MatchesAt(s, j + 1, pat);
      if j + |pat| <= |t| {
        assert t[j..j + |pat|] == s[j + 1..j + 1 + |pat|];
      }
    }
  }

  /**
   * `replace` scans from the left: the text before the first occurrence is
   * kept, that occurrence becomes the replacement, and the scan resumes
   * after it. Applied to each occurrence in turn, and with `ReplaceAbsent`
   * for the rest, this fixes every occurrence.
   */
  lemma {:induction false} ReplaceAfter(a: string, pat: string, rep: string, b: string)
    requires |pat| > 0 && NoEarlier(a + pat + b, |a|, pat)
    ensures Replace(a + pat + b, pat, rep) == a + rep + Replace(b, pat, rep)
    decreases |a|
  {
    var s := a + pat + b;
    if a == [] {
      assert s == pat + b;
      assert s[..|pat|] == pat && s[|pat|..] == b;
    } else {
      NoEarlierStep(a, pat, b);
      assert Replace(s, pat, rep) == [s[0]] + Replace(a[1..] + pat + b, pat, rep);
      ReplaceAfter(a[1..], pat, rep, b);
      assert [a[0]] + (a[1..] + rep + Replace(b, pat, rep)) == a + rep + Replace(b, pat, rep);
    }
  }

  /** Replacing a pattern by itself changes nothing. */
  lemma {:induction false} ReplaceSelf(s: string, pat: string)
    requires |pat| > 0
    ensures Replace(s, pat, pat) == s
    decreases |s|
  {
    if |s| >= |pat| {
      if s[..|pat|] == pat {
        ReplaceSelf(s[|pat|..], pat);
        assert s == s[..|pat|] + s[|pat|..];
      } else {
        ReplaceSelf(s[1..], pat);
        assert s == [s[0]] + s[1..];
      }
    }
  }

  // ---------------------------------------------------------------- int() and str() of integers

  predicate IsDigit(c: char) { '0' <= c <= '9' }

  predicate AllDigits(s: string)
  {
    forall i :: 0 <= i < |s| ==> IsDigit(s[i])
  }

  function DigitChar(d: nat): (c: char)
    requires d < 10
    ensures IsDigit(c)
  {
    ('0' as int + d) as char
  }

  /** The value of a run of decimal digits. */
  function DigitsValue(s: string): nat
    requires AllDigits(s)
  {
    if s == [] then 0 else DigitsValue(s[..|s| - 1]) * 10 + (s[|s| - 1] as int - '0' as int)
  }

  /** The white space `int()` skips: tab, line feed, vertical tab, form feed, carriage return and space. */
  predicate IsIntSpace(c: char)
  {
    c == ' ' || 9 <= c as int <= 13
  }

  /**
   * The white space `Strip` removes from the front of `s` is all of the kind
   * `int()` skips; the separators 0x1c to 0x1f are not.
   */
  predicate LeadingIntSpace(s: string)
  {
    s == [] || !IsSpace(s[0]) || (IsIntSpace(s[0]) && LeadingIntSpace(s[1..]))
  }

  /** The same for the white space `Strip` removes from the back of `s`. */
  predicate TrailingIntSpace(s: string)
  {
    s == [] || !IsSpace(s[|s| - 1]) || (IsIntSpace(s[|s| - 1]) && TrailingIntSpace(s[..|s| - 1]))
  }

  /**
   * `int(text)`: white space around, an optional sign, then at least one
   * decimal digit; anything else is the ValueError `None`.
   */
  function ParseInt(text: string): Option<int>
  {
    var t := Strip(text);
    if !LeadingIntSpace(text) || !TrailingIntSpace(text) then None
    else if t != [] && (t[0] == '-' || t[0] == '+') then
      var d := t[1..];
      if d != [] && AllDigits(d) then
        var v: int := DigitsValue(d);
        Some(if t[0] == '-' then -v else v)
      else None
    else if t != [] && AllDigits(t) then Some(DigitsValue(t))
    else None
  }

  /** Text that starts with white space `int()` does not skip does not convert: `int("\x1c5")` raises. */
  lemma SeparatorNotSkipped()
    ensures ParseInt([28 as char, '5']) == None
  {
    assert !LeadingIntSpace([28 as char, '5']);
  }

  /** A plain run of decimal digits reads as its value. */
  lemma ParseDigits(text: string)
    requires AllDigits(text) && text != []
    ensures ParseInt(text) == Some(DigitsValue(text))
  {
    assert IsDigit(text[0]) && IsDigit(text[|text| - 1]);
    assert LeadingIntSpace(text) && TrailingIntSpace(text);
    StripUnchanged(text);
  }

  /** `str(n)` for a natural number: its decimal digits, most significant first, no leading zero. */
  function NatToString(n: nat): (r: string)
    ensures r != [] && AllDigits(r)
  {
    if n < 10 then [DigitChar(n)] else NatToString(n / 10) + [DigitChar(n % 10)]
  }

  /** `str(n)` for an integer. */
  function IntToString(n: int): (r: string)
    ensures n >= 0 ==> r != [] && AllDigits(r)
    ensures n < 0 ==> |r| >= 2 && r[0] == '-' && AllDigits(r[1..])
  {
    if n < 0 then "-" + NatToString(-n) else NatToString(n)
  }

  lemma {:induction false} NatToStringValue(n: nat)
    ensures DigitsValue(NatToString(n)) == n
  {
    if n >= 10 {
      var r := NatToString(n);
      NatToStringValue(n / 10);
      assert r[..|r| - 1] == NatToString(n / 10);
    }
  }

  /** `int(str(n)) == n`. */
  lemma IntToStringRoundTrip(n: int)
    ensures ParseInt(IntToString(n)) == Some(n)
  {
    var s := IntToString(n);
    if n < 0 {
      var m: nat := -n;
      assert s == "-" + NatToString(m);
      NegativeRoundTrip(m);
      assert -(m as int) == n;
    } else {
      assert s == NatToString(n);
      NatRoundTrip(n);
      assert ParseInt(s) == Some(n);
    }
  }

  lemma NatRoundTrip(m: nat)
    ensures ParseInt(NatToString(m)) == Some(m)
  {
    var d := NatToString(m);
    NatToStringValue(m);
    ParseDigits(d);
    assert DigitsValue(d) as int == m;
  }

  lemma NegativeRoundTrip(m: nat)
    ensures ParseInt("-" + NatToString(m)) == Some(-(m as int))
  {
    NatToStringValue(m);
    ParseNegative(NatToString(m), m);
  }

  /** A minus sign before a run of decimal digits reads as the negated value. */
  lemma ParseNegative(d: string, v: int)
    requires AllDigits(d) && d != [] && DigitsValue(d) == v
    ensures ParseInt("-" + d) == Some(-v)
  {
    var s := "-" + d;
    assert s[0] == '-' && s[1..] == d;
    assert !IsSpace(s[|s| - 1]) by { assert s[|s| - 1] == d[|d| - 1]; }
    StripUnchanged(s);
  }

  // ---------------------------------------------------------------- the unicode_escape codec

  function HexDigit(d: nat): (c: char)
    requires d < 16
  {
    if d < 10 then ('0' as int + d) as char else ('a' as int + d - 10) as char
  }

  /** The last `width` lower-case hexadecimal digits of `n`. */
  function Hex(n: nat, width: nat): (r: string)
    ensures |r| == width
  {
    if width == 0 then "" else Hex(n / 16, width - 1) + [HexDigit(n % 16)]
  }

  /** How `unicode_escape` writes one character. */
  function EscapeChar(c: char): (e: string)
    ensures e != []
    ensures 32 <= c as int < 127 && c != '\\' ==> e == [c]
  {
    if c == '\\' then "\\\\"
    else if c == '\t' then "\\t"
    else if c == '\n' then "\\n"
    else if c == '\r' then "\\r"
    else if 32 <= c as int < 127 then [c]
    else if c as int < 0x100 then "\\x" + Hex(c as int, 2)
    else if c as int < 0x1_0000 then "\\u" + Hex(c as int, 4)
    else "\\U" + Hex(c as int, 8)
  }

  /** `text.encode("unicode_escape").decode("utf-8")`. */
  function Escape(s: string): (r: string)
    ensures |r| >= |s|
  {
    if s == [] then "" else EscapeChar(s[0]) + Escape(s[1..])
  }

  predicate IsPrintableAscii(c: char) { 32 <= c as int < 127 }

  predicate AllPrintableAscii(s: string)
  {
    forall i :: 0 <= i < |s| ==> IsPrintableAscii(s[i])
  }

  lemma {:induction false} HexPrintable(n: nat, width: nat)
    ensures AllPrintableAscii(Hex(n, width))
  {
    if width > 0 {
      HexPrintable(n / 16, width - 1);
    }
  }

  /** Escaped text is printable ASCII only. */
  lemma {:induction false} EscapePrintable(s: string)
    ensures AllPrintableAscii(Escape(s))
  {
    if s != [] {
      var c := s[0];
      HexPrintable(c as int, 2);
      HexPrintable(c as int, 4);
      HexPrintable(c as int, 8);
      assert AllPrintableAscii(EscapeChar(c));
      EscapePrintable(s[1..]);
    }
  }

  /** Printable ASCII text without a backslash passes the codec unchanged. */
  lemma {:induction false} EscapeIdentity(s: string)
    requires AllPrintableAscii(s) && forall i :: 0 <= i < |s| ==> s[i] != '\\'
    ensures Escape(s) == s
  {
    if s != [] {
      EscapeIdentity(s[1..]);
      assert s == [s[0]] + s[1..];
    }
  }
}
