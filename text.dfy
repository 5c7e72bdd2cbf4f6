/** The Python string operations the scripts rely on, over `string` (= `seq<char>`):
    `strip`, `lower`, `find`, `in`, `startswith`, `split(sep)`, `join`, `splitlines`,
    decimal formatting with `str(n)` and `f"{n:02d}"`, and the comma-list idiom
    `[x.strip() for x in s.split(",") if x.strip()]`. */
module Text {

  // ---------------------------------------------------------------------------------------
  // Whitespace and stripping
  // ---------------------------------------------------------------------------------------

  /** Python's `str.isspace()` on one character. */
  predicate IsSpace(c: char) {
    c == ' ' || ('\t' <= c <= '\r') || ('\U{001C}' <= c <= '\U{001F}')
    || c == '\U{0085}' || c == '\U{00A0}' || c == '\U{1680}' || ('\U{2000}' <= c <= '\U{200A}')
    || c == '\U{2028}' || c == '\U{2029}' || c == '\U{202F}' || c == '\U{205F}' || c == '\U{3000}'
  }

  /** `s.lstrip()`: the suffix of `s` left after its leading whitespace. */
  function LStrip(s: string): (r: string)
    ensures |r| <= |s|
  {
    if s != [] && IsSpace(s[0]) then LStrip(s[1..]) else s
  }

  /** What `lstrip` removes is all whitespace, and what it keeps is a suffix that starts with
      a non-space. */
  lemma {:induction false} LStripFacts(s: string)
    ensures LStrip(s) == s[|s| - |LStrip(s)|..]
    ensures LStrip(s) != [] ==> !IsSpace(LStrip(s)[0])
    ensures forall k :: 0 <= k < |s| - |LStrip(s)| ==> IsSpace(s[k])
  {
    if s != [] && IsSpace(s[0]) {
      LStripFacts(s[1..]);
      forall k | 0 < k < |s| - |LStrip(s)| ensures IsSpace(s[k]) {
        assert s[k] == s[1..][k - 1];
      }
    }
  }

  /** `s.rstrip()`: the prefix of `s` left before its trailing whitespace. */
  function RStrip(s: string): (r: string)
    ensures |r| <= |s|
  {
    if s != [] && IsSpace(s[|s| - 1]) then RStrip(s[..|s| - 1]) else s
  }

  /** What `rstrip` removes is all whitespace, and what it keeps is a prefix that ends with a
      non-space. */
  lemma {:induction false} RStripFacts(s: string)
    ensures RStrip(s) == s[..|RStrip(s)|]
    ensures RStrip(s) != [] ==> !IsSpace(RStrip(s)[|RStrip(s)| - 1])
    ensures forall k :: |RStrip(s)| <= k < |s| ==> IsSpace(s[k])
  {
    if s != [] && IsSpace(s[|s| - 1]) {
      RStripFacts(s[..|s| - 1]);
      forall k | |RStrip(s)| <= k < |s| - 1 ensures IsSpace(s[k]) {
        assert s[k] == s[..|s| - 1][k];
      }
    }
  }

  /** `s.strip()`: `s` without leading and trailing whitespace. */
  function Strip(s: string): (r: string)
    ensures |r| <= |s|
  {
    RStrip(LStrip(s))
  }

  /** A string with no whitespace at either end. */
  predicate IsStripped(s: string) {
    s == [] || (!IsSpace(s[0]) && !IsSpace(s[|s| - 1]))
  }

  /** `s.strip()` has no whitespace at either end. */
  lemma StripIsStripped(s: string)
    ensures IsStripped(Strip(s))
  {
    LStripFacts(s);
    RStripFacts(LStrip(s));
    var l := LStrip(s);
    if RStrip(l) != [] {
      assert RStrip(l)[0] == l[0];
    }
  }

  /** The characters of `strip(s)` are characters of `s`. */
  lemma StripInside(s: string)
    ensures forall c :: c in Strip(s) ==> c in s
  {
    LStripFacts(s);
    RStripFacts(LStrip(s));
  }

  /** Stripping leaves a stripped string alone. */
  lemma StripStripped(s: string)
    requires IsStripped(s)
    ensures Strip(s) == s
  {
  }

  /** `s.strip()` is empty exactly when every character of `s` is whitespace. */
  lemma StripEmptyIff(s: string)
    ensures Strip(s) == [] <==> forall k :: 0 <= k < |s| ==> IsSpace(s[k])
  {
    LStripFacts(s);
    var l := LStrip(s);
    RStripFacts(l);
    if !forall k :: 0 <= k < |s| ==> IsSpace(s[k]) {
      var k :| 0 <= k < |s| && !IsSpace(s[k]);
      assert l != [];
    }
  }

  // ---------------------------------------------------------------------------------------
  // Case
  // ---------------------------------------------------------------------------------------

  /** `c.lower()` for ASCII letters. */
  function LowerChar(c: char): char {
    if 'A' <= c <= 'Z' then (c as int + 32) as char else c
  }

  /** `s.lower()`, character by character. */
  function Lower(s: string): (r: string)
    ensures |r| == |s|
    ensures forall k {:trigger r[k]} :: 0 <= k < |s| ==> r[k] == LowerChar(s[k])
  {
    if s == [] then [] else Lower(s[..|s| - 1]) + [LowerChar(s[|s| - 1])]
  }

  // ---------------------------------------------------------------------------------------
  // Searching
  // ---------------------------------------------------------------------------------------

  /** `p` occurs in `s` starting at index `i`. */
  predicate OccursAt(s: string, p: string, i: int) {
    0 <= i && i + |p| <= |s| && forall j :: 0 <= j < |p| ==> s[i + j] == p[j]
  }

  /** An occurrence is a slice equal to the pattern. */
  lemma OccursAtSlice(s: string, p: string, i: int)
    requires 0 <= i && i + |p| <= |s|
    ensures OccursAt(s, p, i) <==> s[i..i + |p|] == p
  {
    var t := s[i..i + |p|];
    forall j | 0 <= j < |p| ensures t[j] == s[i + j] {
    }
  }

  /** `s.find(p, start)`: the least index at or after `start` where `p` occurs, or -1. */
  function Find(s: string, p: string, start: nat): (r: int)
    ensures r == -1 || (start <= r && OccursAt(s, p, r))
    decreases |s| - start
  {
    if start + |p| > |s| then -1
    else if OccursAt(s, p, start) then start
    else Find(s, p, start + 1)
  }

  /** `find` returns the least index: no occurrence lies between `start` and the result, nor
      anywhere after `start` when the result is -1. */
  lemma {:induction false} FindFacts(s: string, p: string, start: nat)
    ensures forall k :: start <= k && (Find(s, p, start) == -1 || k < Find(s, p, start)) ==> !OccursAt(s, p, k)
    decreases |s| - start
  {
    if start + |p| <= |s| && !OccursAt(s, p, start) {
      FindFacts(s, p, start + 1);
    }
  }

  /** Lower-casing commutes with slicing. */
  lemma LowerSlice(s: string, i: int, j: int)
    requires 0 <= i <= j <= |s|
    ensures Lower(s[i..j]) == Lower(s)[i..j]
  {
  }

  /** An occurrence inside a slice is an occurrence in the whole string, shifted by the slice's
      start. */
  lemma OccursInSlice(s: string, p: string, i: int, j: int, k: int)
    requires 0 <= i <= j <= |s|
    ensures OccursAt(s[i..j], p, k) ==> OccursAt(s, p, i + k)
  {
    if OccursAt(s[i..j], p, k) {
      forall m | 0 <= m < |p| ensures s[i + k + m] == p[m] {
        assert s[i..j][k + m] == p[m];
      }
    }
  }

  /** A character that does not appear in `s` is not a substring of it. */
  lemma AbsentChar(s: string, c: char)
    requires c !in s
    ensures !Contains(s, [c])
  {
    forall k | 0 <= k < |s| ensures !OccursAt(s, [c], k) {
      assert s[k + 0] != [c][0];
    }
  }

  /** `p in s` for strings. */
  predicate Contains(s: string, p: string) {
    Find(s, p, 0) >= 0
  }

  /** An occurrence anywhere makes `p in s` true. */
  lemma ContainsAt(s: string, p: string, i: int)
    requires OccursAt(s, p, i)
    ensures Contains(s, p)
  {
    FindFacts(s, p, 0);
  }

  /** `p in s` holds exactly when `p` occurs at some index of `s`. */
  lemma ContainsIff(s: string, p: string)
    ensures Contains(s, p) <==> exists i :: OccursAt(s, p, i)
  {
    if Contains(s, p) {
      assert OccursAt(s, p, Find(s, p, 0));
    } else if exists i :: OccursAt(s, p, i) {
      var i :| OccursAt(s, p, i);
      ContainsAt(s, p, i);
    }
  }

  /** Whatever `b` contains, `a + b + c` contains too. */
  lemma ContainsInside(a: string, b: string, c: string, p: string)
    requires Contains(b, p)
    ensures Contains(a + b + c, p)
  {
    var i := Find(b, p, 0);
    forall j | 0 <= j < |p| ensures (a + b + c)[|a| + i + j] == p[j] {
      assert (a + b + c)[|a| + i + j] == b[i + j];
    }
    ContainsAt(a + b + c, p, |a| + i);
  }

  /** What does not contain the pattern has no suffix that contains it. */
  lemma NotContainsTail(s: string, p: string)
    requires s != [] && !Contains(s, p)
    ensures !Contains(s[1..], p)
  {
    if Contains(s[1..], p) {
      var i := Find(s[1..], p, 0);
      forall j | 0 <= j < |p| ensures s[i + 1 + j] == p[j] {
        assert s[1..][i + j] == p[j];
      }
      ContainsAt(s, p, i + 1);
      assert false;
    }
  }

  /** The empty string is in every string. */
  lemma ContainsEmpty(s: string)
    ensures Contains(s, [])
  {
    ContainsAt(s, [], 0);
  }

  /** `s.startswith(p)`. */
  predicate StartsWith(s: string, p: string) {
    |p| <= |s| && s[..|p|] == p
  }

  /** `s.replace(p, r)`: every occurrence of `p`, taken left to right without overlap, is
      replaced by `r`. */
  function ReplaceAll(s: string, p: string, r: string): string
    requires p != []
    decreases |s|
  {
    if |s| < |p| then s
    else if s[..|p|] == p then r + ReplaceAll(s[|p|..], p, r)
    else [s[0]] + ReplaceAll(s[1..], p, r)
  }

  /** Text without the pattern comes back unchanged. */
  lemma {:induction false} ReplaceAbsent(s: string, p: string, r: string)
    requires p != [] && !Contains(s, p)
    ensures ReplaceAll(s, p, r) == s
    decreases |s|
  {
    if |s| >= |p| {
      if OccursAt(s, p, 0) {
        ContainsAt(s, p, 0);
        assert false;
      }
      NotContainsTail(s, p);
      ReplaceAbsent(s[1..], p, r);
      assert [s[0]] + s[1..] == s;
    }
  }

  /** Replacing the pattern by itself changes nothing. */
  lemma {:induction false} ReplaceSelf(s: string, p: string)
    requires p != []
    ensures ReplaceAll(s, p, p) == s
    decreases |s|
  {
    if |s| >= |p| {
      if s[..|p|] == p {
        ReplaceSelf(s[|p|..], p);
        assert p + s[|p|..] == s;
      } else {
        ReplaceSelf(s[1..], p);
        assert [s[0]] + s[1..] == s;
      }
    }
  }

  /** `s.replace(c, "")` for a single character keeps exactly the other characters. */
  lemma {:induction false} RemoveCharMembers(s: string, c: char)
    ensures forall x :: x in ReplaceAll(s, [c], []) <==> x in s && x != c
    decreases |s|
  {
    if |s| >= 1 {
      RemoveCharMembers(s[1..], c);
      assert s == [s[0]] + s[1..];
      assert s[..1] == [s[0]];
    }
  }

  /** Where the text is a run of pieces that hold no part of the pattern, separated by the
      pattern itself, each separator is replaced. */
  lemma {:induction false} ReplaceAround(a: string, b: string, p: string, r: string)
    requires p != [] && !Contains(a + p[..|p| - 1], p)
    ensures ReplaceAll(a + p + b, p, r) == a + r + ReplaceAll(b, p, r)
    decreases |a|
  {
    var s := a + p + b;
    if a == [] {
      assert s[..|p|] == p;
      assert s[|p|..] == b;
    } else {
      var t := a + p[..|p| - 1];
      if OccursAt(t, p, 0) {
        ContainsAt(t, p, 0);
        assert false;
      }
      assert t[..|p|] == s[..|p|];
      NotContainsTail(t, p);
      assert t[1..] == a[1..] + p[..|p| - 1];
      ReplaceAround(a[1..], b, p, r);
      assert s[1..] == a[1..] + p + b;
      assert ReplaceAll(s, p, r) == [a[0]] + ReplaceAll(a[1..] + p + b, p, r);
      assert [a[0]] + (a[1..] + r + ReplaceAll(b, p, r)) == a + r + ReplaceAll(b, p, r);
    }
  }

  // ---------------------------------------------------------------------------------------
  // Splitting and joining
  // ---------------------------------------------------------------------------------------

  /** `s.split(sep)` for a one-character separator: always at least one piece, and no piece
      holds the separator. */
  function Split(s: string, sep: char): (r: seq<string>)
    ensures |r| >= 1
    ensures forall i :: 0 <= i < |r| ==> sep !in r[i]
  {
    if s == [] then [[]]
    else
      var rest := Split(s[1..], sep);
      if s[0] == sep then [[]] + rest else [[s[0]] + rest[0]] + rest[1..]
  }

  /** `sep.join(parts)`. */
  function Join(parts: seq<string>, sep: char): string {
    if |parts| == 0 then []
    else if |parts| == 1 then parts[0]
    else parts[0] + [sep] + Join(parts[1..], sep)
  }

  /** Joining the pieces of a split gives back the string. */
  lemma {:induction false} JoinSplit(s: string, sep: char)
    ensures Join(Split(s, sep), sep) == s
  {
    if s != [] {
      var rest := Split(s[1..], sep);
      JoinSplit(s[1..], sep);
      if s[0] == sep {
        assert Split(s, sep) == [[]] + rest;
        assert ([[]] + rest)[1..] == rest;
      } else {
        var r := [[s[0]] + rest[0]] + rest[1..];
        assert Split(s, sep) == r;
        if |rest| == 1 {
          assert Join(r, sep) == [s[0]] + rest[0];
        } else {
          assert r[1..] == rest[1..];
          assert Join(rest, sep) == rest[0] + [sep] + Join(rest[1..], sep);
        }
      }
    }
  }

  /** A separator-free string splits to itself. */
  lemma {:induction false} SplitPlain(a: string, sep: char)
    requires sep !in a
    ensures Split(a, sep) == [a]
  {
    if a != [] {
      SplitPlain(a[1..], sep);
      assert [a[0]] + a[1..] == a;
    }
  }

  /** A separator after a separator-free head splits off exactly that head. */
  lemma {:induction false} SplitAfterHead(a: string, b: string, sep: char)
    requires sep !in a
    ensures Split(a + [sep] + b, sep) == [a] + Split(b, sep)
  {
    if a == [] {
      assert a + [sep] + b == [sep] + b;
      assert ([sep] + b)[1..] == b;
    } else {
      var s := a + [sep] + b;
      assert s[1..] == a[1..] + [sep] + b;
      SplitAfterHead(a[1..], b, sep);
      assert [a[0]] + a[1..] == a;
    }
  }

  /** Splitting a join of separator-free pieces gives back the pieces. */
  lemma {:induction false} SplitJoin(parts: seq<string>, sep: char)
    requires |parts| >= 1
    requires forall i :: 0 <= i < |parts| ==> sep !in parts[i]
    ensures Split(Join(parts, sep), sep) == parts
  {
    if |parts| == 1 {
      SplitPlain(parts[0], sep);
    } else {
      SplitJoin(parts[1..], sep);
      SplitAfterHead(parts[0], Join(parts[1..], sep), sep);
      assert [parts[0]] + parts[1..] == parts;
    }
  }

  /** Concatenation of a list of strings: `"".join(ls)`. */
  function Concat(ls: seq<string>): string {
    if ls == [] then [] else ls[0] + Concat(ls[1..])
  }

  /** Concatenation distributes over appending lists. */
  lemma {:induction false} ConcatAppend(a: seq<string>, b: seq<string>)
    ensures Concat(a + b) == Concat(a) + Concat(b)
  {
    if a == [] {
      assert a + b == b;
    } else {
      assert (a + b)[1..] == a[1..] + b;
      ConcatAppend(a[1..], b);
    }
  }

  /** `s.splitlines()` for text whose line boundary is `"\n"`: a final newline does not start
      another line, and the empty string has no lines. */
  function SplitLines(s: string): (r: seq<string>)
    ensures forall i :: 0 <= i < |r| ==> '\n' !in r[i]
  {
    if s == [] then []
    else
      var parts := Split(s, '\n');
      if parts[|parts| - 1] == [] then parts[..|parts| - 1] else parts
  }

  /** `s.splitlines(keepends=True)` for text whose line boundary is `"\n"`: every line keeps
      its newline, no line is empty, and the lines put together are the text. */
  function SplitLinesKeepEnds(s: string): (r: seq<string>)
    ensures Concat(r) == s
    ensures forall i :: 0 <= i < |r| ==> r[i] != []
    decreases |s|
  {
    if s == [] then []
    else
      var i := Find(s, "\n", 0);
      if i < 0 then [s]
      else
        var rest := SplitLinesKeepEnds(s[i + 1..]);
        assert ([s[..i + 1]] + rest)[1..] == rest;
        [s[..i + 1]] + rest
  }

  // ---------------------------------------------------------------------------------------
  // Comma lists
  // ---------------------------------------------------------------------------------------

  /** `[x.strip() for x in parts if x.strip()]`. */
  function StrippedNonEmpty(parts: seq<string>): (r: seq<string>)
    ensures |r| <= |parts|
    ensures forall i :: 0 <= i < |r| ==> r[i] != [] && IsStripped(r[i])
  {
    if parts == [] then []
    else
      var t := Strip(parts[0]);
      StripIsStripped(parts[0]);
      (if t != [] then [t] else []) + StrippedNonEmpty(parts[1..])
  }

  /** `x in [p.strip() for p in parts if p.strip()]` holds exactly when `x` is non-empty and the
      strip of one of the parts. */
  lemma {:induction false} StrippedNonEmptyMember(parts: seq<string>, x: string)
    ensures x in StrippedNonEmpty(parts) <==> x != [] && exists i :: 0 <= i < |parts| && Strip(parts[i]) == x
  {
    if parts != [] {
      StrippedNonEmptyMember(parts[1..], x);
      if x != [] && Strip(parts[0]) != x {
        if exists i :: 0 <= i < |parts| && Strip(parts[i]) == x {
          var i :| 0 <= i < |parts| && Strip(parts[i]) == x;
          assert parts[1..][i - 1] == parts[i];
        }
      }
    }
  }

  /** Stripping and dropping empties leaves already clean pieces untouched. */
  lemma {:induction false} StrippedNonEmptyClean(parts: seq<string>)
    requires forall i :: 0 <= i < |parts| ==> parts[i] != [] && IsStripped(parts[i])
    ensures StrippedNonEmpty(parts) == parts
  {
    if parts != [] {
      StripStripped(parts[0]);
      StrippedNonEmptyClean(parts[1..]);
      assert [parts[0]] + parts[1..] == parts;
    }
  }

  /** The comma-list idiom of the scripts' argument parsing:
      `[x.strip() for x in s.split(",") if x.strip()]`. */
  function CommaList(s: string): (r: seq<string>)
    ensures forall i :: 0 <= i < |r| ==> r[i] != [] && IsStripped(r[i])
  {
    StrippedNonEmpty(Split(s, ','))
  }

  /** A comma-joined list of clean items (non-empty, stripped, comma-free) parses back to
      itself. */
  lemma CommaListJoin(xs: seq<string>)
    requires forall i :: 0 <= i < |xs| ==> xs[i] != [] && IsStripped(xs[i]) && ',' !in xs[i]
    ensures CommaList(Join(xs, ',')) == xs
  {
    if xs == [] {
      assert Split([], ',') == [[]];
    } else {
      SplitJoin(xs, ',');
      StrippedNonEmptyClean(xs);
    }
  }

  /** `[x.strip() for x in s.split(",")]`: one stripped part per comma-separated part, the
      empty ones kept. */
  function CommaParts(s: string): (r: seq<string>)
    ensures |r| == |Split(s, ',')| >= 1
  {
    var parts := Split(s, ',');
    seq(|parts|, i requires 0 <= i < |parts| => Strip(parts[i]))
  }

  /** Every part is stripped and free of commas; a string without commas is one part. */
  lemma CommaPartsFacts(s: string)
    ensures forall i :: 0 <= i < |CommaParts(s)| ==> IsStripped(CommaParts(s)[i]) && ',' !in CommaParts(s)[i]
    ensures ',' !in s ==> CommaParts(s) == [Strip(s)]
  {
    var parts := Split(s, ',');
    forall i | 0 <= i < |parts| ensures IsStripped(Strip(parts[i])) && ',' !in Strip(parts[i]) {
      StripIsStripped(parts[i]);
      StripInside(parts[i]);
    }
    if ',' !in s {
      SplitPlain(s, ',');
    }
  }

  // ---------------------------------------------------------------------------------------
  // Decimal numbers
  // ---------------------------------------------------------------------------------------

  /** `str.isalnum()` on one character, for ASCII letters and digits. */
  predicate IsAlnum(c: char) {
    ('a' <= c <= 'z') || ('A' <= c <= 'Z') || ('0' <= c <= '9')
  }

  /** `s.isalnum()`: non-empty, and every character a letter or a digit. */
  predicate IsAlnumString(s: string) {
    s != [] && forall c :: c in s ==> IsAlnum(c)
  }

  predicate IsDigit(c: char) {
    '0' <= c <= '9'
  }

  predicate AllDigits(s: string) {
    forall k :: 0 <= k < |s| ==> IsDigit(s[k])
  }

  function DigitChar(d: nat): (c: char)
    requires d < 10
    ensures IsDigit(c)
  {
    ('0' as int + d) as char
  }

  /** `str(n)` for a natural number: its decimal digits, most significant first. */
  function NatToString(n: nat): (r: string)
    ensures r != [] && AllDigits(r)
  {
    if n < 10 then [DigitChar(n)] else NatToString(n / 10) + [DigitChar(n % 10)]
  }

  /** The value of a string of decimal digits. */
  function DigitsValue(s: string): nat
    requires AllDigits(s)
  {
    if s == [] then 0 else DigitsValue(s[..|s| - 1]) * 10 + (s[|s| - 1] as int - '0' as int)
  }

  /** Reading back the decimal form of `n` gives `n`. */
  lemma {:induction false} DigitsValueOfNat(n: nat)
    ensures DigitsValue(NatToString(n)) == n
  {
    if n >= 10 {
      DigitsValueOfNat(n / 10);
      var s := NatToString(n);
      assert s[..|s| - 1] == NatToString(n / 10);
    }
  }

  /** `str(i)` for any integer. */
  function IntToString(i: int): string {
    if i < 0 then "-" + NatToString(-i) else NatToString(i)
  }

  /** `f"{n:02d}"`: at least two digits, left-padded with zero. */
  function Pad2(n: nat): (r: string)
    ensures AllDigits(r) && DigitsValue(r) == n
    ensures n < 100 ==> |r| == 2
  {
    DigitsValueOfNat(n);
    if n < 10 then
      assert DigitsValue("0" + NatToString(n)) == n by {
        assert ("0" + NatToString(n))[..1] == "0";
      }
      "0" + NatToString(n)
    else NatToString(n)
  }
}
