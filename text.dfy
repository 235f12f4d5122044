/**
 * Text primitives of Rust's `str` that several firmware modules rely on:
 * decimal formatting (`to_string` on an unsigned integer), parsing
 * (`parse::<u8>()`, `parse::<u16>()`), `split` on one character, `trim`,
 * `split_whitespace` and ASCII case folding.  Strings are ASCII text.
 */
module Text {
  import opened Wrappers

  predicate IsDigit(c: char) { '0' <= c <= '9' }

  function DigitValue(c: char): nat
    requires IsDigit(c)
  {
    (c as int) - ('0' as int)
  }

  function DigitChar(d: nat): (c: char)
    requires d < 10
    ensures IsDigit(c) && DigitValue(c) == d
  {
    (('0' as int) + d) as char
  }

  predicate AllDigits(s: string) {
    forall i :: 0 <= i < |s| ==> IsDigit(s[i])
  }

  /** The value of a run of decimal digits, most significant digit first. */
  function DigitsValue(s: string): nat
    requires AllDigits(s)
  {
    if s == [] then 0 else DigitsValue(s[..|s| - 1]) * 10 + DigitValue(s[|s| - 1])
  }

  /** A digit string without superfluous leading zeros. */
  predicate Canonical(s: string) {
    |s| > 0 && AllDigits(s) && (s[0] == '0' ==> |s| == 1)
  }

  /** `n.to_string()` for an unsigned integer `n`. */
  function NatToDecimal(n: nat): (r: string)
    ensures Canonical(r)
    ensures DigitsValue(r) == n
  {
    if n < 10 then [DigitChar(n)]
    else
      var prefix := NatToDecimal(n / 10);
      var r := prefix + [DigitChar(n % 10)];
      assert r[..|r| - 1] == prefix;
      r
  }

  /** Every canonical digit string is the decimal form of its value. */
  lemma {:induction false} CanonicalIsDecimal(s: string)
    requires Canonical(s)
    ensures NatToDecimal(DigitsValue(s)) == s
    decreases |s|
  {
    if |s| == 1 {
    } else {
      var p := s[..|s| - 1];
      assert p[0] == s[0];
      CanonicalIsDecimal(p);
      DigitsValueLeadingNonZero(s);
      var n := DigitsValue(s);
      assert n / 10 == DigitsValue(p) && n % 10 == DigitValue(s[|s| - 1]);
    }
  }

  /** A digit string of two or more digits whose first digit is not 0 has a value of at least 10. */
  lemma {:induction false} DigitsValueLeadingNonZero(s: string)
    requires AllDigits(s) && |s| >= 2 && s[0] != '0'
    ensures DigitsValue(s) >= 10
    decreases |s|
  {
    var p := s[..|s| - 1];
    assert p[0] == s[0];
    if |p| >= 2 {
      DigitsValueLeadingNonZero(p);
    } else {
      assert p == [s[0]];
      assert DigitsValue(p) == DigitValue(s[0]);
    }
  }

  /**
   * `s.parse::<T>()` for an unsigned integer type T whose largest value is
   * `max`: one optional '+', then at least one decimal digit; a value that
   * does not fit is an error.
   */
  function ParseUnsigned(s: string, max: nat): (r: Option<nat>)
    ensures r.Some? <==> AcceptsDigits(s, max) || (|s| > 0 && s[0] == '+' && AcceptsDigits(s[1..], max))
    ensures AcceptsDigits(s, max) ==> r == Some(DigitsValue(s))
    ensures r.Some? ==> r.value <= max
  {
    var body := if |s| > 0 && s[0] == '+' then s[1..] else s;
    if AcceptsDigits(body, max) then Some(DigitsValue(body)) else None
  }

  /** A non-empty digit string whose value fits below `max`. */
  predicate AcceptsDigits(s: string, max: nat) {
    s != [] && AllDigits(s) && DigitsValue(s) <= max
  }

  /** Parsing gives back every value that `to_string` formats. */
  lemma DecimalRoundTrip(n: nat, max: nat)
    requires n <= max
    ensures ParseUnsigned(NatToDecimal(n), max) == Some(n)
  {
    var s := NatToDecimal(n);
    assert IsDigit(s[0]);
  }

  /** `s.split(c)`: the pieces between occurrences of `c`, at least one. */
  function Split(s: string, c: char): (r: seq<string>)
    ensures |r| >= 1
    ensures forall k :: 0 <= k < |r| ==> c !in r[k]
  {
    if s == [] then [""]
    else
      var rest := Split(s[1..], c);
      if s[0] == c then [""] + rest
      else [[s[0]] + rest[0]] + rest[1..]
  }

  /** `parts.join(c)` */
  function Join(parts: seq<string>, c: char): string {
    if parts == [] then ""
    else if |parts| == 1 then parts[0]
    else parts[0] + [c] + Join(parts[1..], c)
  }

  /** Splitting and joining on the same character restores the text. */
  lemma {:induction false} SplitJoin(s: string, c: char)
    ensures Join(Split(s, c), c) == s
  {
    if s == [] {
    } else {
      var rest := Split(s[1..], c);
      SplitJoin(s[1..], c);
      if s[0] == c {
        assert Split(s, c) == [""] + rest;
        assert ([""] + rest)[1..] == rest;
      } else {
        var r := [[s[0]] + rest[0]] + rest[1..];
        assert Split(s, c) == r;
        if |rest| == 1 {
          assert Join(rest, c) == rest[0];
        } else {
          assert r[1..] == rest[1..];
          assert Join(rest, c) == rest[0] + [c] + Join(rest[1..], c);
        }
      }
    }
  }

  /** Text without the separator splits into itself alone. */
  lemma {:induction false} SplitWithoutSeparator(s: string, c: char)
    requires c !in s
    ensures Split(s, c) == [s]
  {
    if s != [] {
      SplitWithoutSeparator(s[1..], c);
      assert [s[0]] + s[1..] == s;
    }
  }

  /** A separator after a piece without one starts the next piece. */
  lemma {:induction false} SplitAfterPiece(x: string, c: char, y: string)
    requires c !in x
    ensures Split(x + [c] + y, c) == [x] + Split(y, c)
  {
    var s := x + [c] + y;
    if x == [] {
      assert s[0] == c && s[1..] == y;
    } else {
      assert s[0] == x[0] && s[1..] == x[1..] + [c] + y;
      SplitAfterPiece(x[1..], c, y);
      assert [x[0]] + x[1..] == x;
    }
  }

  /** Joining pieces without the separator and splitting again gives the pieces back. */
  lemma {:induction false} SplitOfJoin(parts: seq<string>, c: char)
    requires |parts| >= 1
    requires forall k :: 0 <= k < |parts| ==> c !in parts[k]
    ensures Split(Join(parts, c), c) == parts
    decreases |parts|
  {
    if |parts| == 1 {
      SplitWithoutSeparator(parts[0], c);
    } else {
      SplitOfJoin(parts[1..], c);
      SplitAfterPiece(parts[0], c, Join(parts[1..], c));
      assert [parts[0]] + parts[1..] == parts;
    }
  }

  /**
   * `char::is_whitespace` restricted to ASCII: among the ASCII characters
   * it is the Unicode White_Space set, U+0009 to U+000D and the space.
   */
  predicate IsWhitespace(c: char): (r: bool)
    ensures r ==> (c as int) < 0x80
    ensures (c as int) < 0x80 ==> (r <==> 9 <= c as int <= 13 || c == ' ')
  {
    c == ' ' || c == '\t' || c == '\n' || c == '\r' || c == '\U{000B}' || c == '\U{000C}'
  }

  function TrimStart(s: string): (r: string)
    ensures |r| <= |s| && r == s[|s| - |r|..]
    ensures r == [] || !IsWhitespace(r[0])
    ensures forall i :: 0 <= i < |s| - |r| ==> IsWhitespace(s[i])
  {
    if s != [] && IsWhitespace(s[0]) then TrimStart(s[1..]) else s
  }

  function TrimEnd(s: string): (r: string)
    ensures |r| <= |s| && r == s[..|r|]
    ensures r == [] || !IsWhitespace(r[|r| - 1])
    ensures forall i :: |r| <= i < |s| ==> IsWhitespace(s[i])
  {
    if s != [] && IsWhitespace(s[|s| - 1]) then TrimEnd(s[..|s| - 1]) else s
  }

  /** `s.trim()` */
  function Trim(s: string): string {
    TrimEnd(TrimStart(s))
  }

  /** A trimmed text has no whitespace at either end and is an infix of the original. */
  lemma TrimProperties(s: string)
    ensures var t := Trim(s);
      (t == [] || (!IsWhitespace(t[0]) && !IsWhitespace(t[|t| - 1]))) &&
      exists i :: OccursAt(s, t, i)
  {
    var u := TrimStart(s);
    var t := TrimEnd(u);
    var i := |s| - |u|;
    assert s[i..i + |t|] == u[..|t|];
    assert OccursAt(s, t, i);
  }

  /** A text made only of whitespace trims to the empty text, and conversely. */
  lemma {:induction false} TrimEmptyIffBlank(s: string)
    ensures Trim(s) == [] <==> forall i :: 0 <= i < |s| ==> IsWhitespace(s[i])
  {
    var u := TrimStart(s);
    if u != [] {
      assert !IsWhitespace(u[0]);
      assert u[0] == s[|s| - |u|];
    }
  }

  /** `s.split_whitespace()`: the maximal runs of non-whitespace characters. */
  function Words(s: string): seq<string>
    decreases |s|
  {
    var t := TrimStart(s);
    if t == [] then [] else [FirstWord(t)] + Words(t[|FirstWord(t)|..])
  }

  /** Every piece `split_whitespace` gives is a word. */
  lemma {:induction false} WordsAreWords(s: string)
    ensures forall k :: 0 <= k < |Words(s)| ==> IsWord(Words(s)[k])
    decreases |s|
  {
    var t := TrimStart(s);
    if t != [] {
      var w := FirstWord(t);
      var rest := t[|w|..];
      assert IsWord(w);
      WordsAreWords(rest);
      WordsCons(s, w, Words(rest));
    }
  }

  lemma WordsCons(s: string, w: string, ws: seq<string>)
    requires IsWord(w) && forall k :: 0 <= k < |ws| ==> IsWord(ws[k])
    requires Words(s) == [w] + ws
    ensures forall k :: 0 <= k < |Words(s)| ==> IsWord(Words(s)[k])
  {
    forall k | 0 <= k < |Words(s)|
      ensures IsWord(Words(s)[k])
    {
      if k > 0 {
        assert Words(s)[k] == ws[k - 1];
      }
    }
  }

  /** A non-empty run of non-whitespace characters. */
  predicate IsWord(w: string) {
    w != [] && forall j :: 0 <= j < |w| ==> !IsWhitespace(w[j])
  }

  /** The leading run of non-whitespace characters of `s`. */
  function FirstWord(s: string): (w: string)
    ensures |w| <= |s| && w == s[..|w|]
    ensures forall j :: 0 <= j < |w| ==> !IsWhitespace(w[j])
    ensures |w| == |s| || IsWhitespace(s[|w|])
    ensures s != [] && !IsWhitespace(s[0]) ==> w != []
  {
    if s == [] || IsWhitespace(s[0]) then [] else [s[0]] + FirstWord(s[1..])
  }

  /** The words of a text with no whitespace at its start are its first word, then the words of the rest. */
  lemma WordsOfWord(w: string, rest: string)
    requires IsWord(w)
    requires rest == [] || IsWhitespace(rest[0])
    ensures Words(w + rest) == [w] + Words(rest)
  {
    FirstWordOf(w, rest);
    assert (w + rest)[0] == w[0];
    assert TrimStart(w + rest) == w + rest;
    assert (w + rest)[|w|..] == rest;
  }

  lemma {:induction false} FirstWordOf(w: string, rest: string)
    requires forall j :: 0 <= j < |w| ==> !IsWhitespace(w[j])
    requires rest == [] || IsWhitespace(rest[0])
    ensures FirstWord(w + rest) == w
    decreases |w|
  {
    if w == [] {
      assert w + rest == rest;
    } else {
      assert (w + rest)[1..] == w[1..] + rest;
      FirstWordOf(w[1..], rest);
    }
  }

  /** A leading space does not change the words of a text. */
  lemma WordsAfterSpace(x: string)
    ensures Words(" " + x) == Words(x)
  {
    assert (" " + x)[1..] == x;
  }

  /** Words joined by single spaces split back into those words. */
  lemma {:induction false} WordsOfJoin(ws: seq<string>)
    requires forall k :: 0 <= k < |ws| ==> IsWord(ws[k])
    ensures Words(Join(ws, ' ')) == ws
    decreases |ws|
  {
    if |ws| == 1 {
      WordsOfWord(ws[0], "");
      assert ws[0] + "" == ws[0];
    } else if |ws| > 1 {
      assert [ws[0]] + ws[1..] == ws;
      var rest := Join(ws[1..], ' ');
      WordsOfJoin(ws[1..]);
      JoinCons(ws, ' ');
      WordsBeforeSpace(ws[0], rest);
    }
  }

  lemma JoinCons(parts: seq<string>, c: char)
    requires |parts| > 1
    ensures Join(parts, c) == parts[0] + ([c] + Join(parts[1..], c))
  {
    assert parts[0] + [c] + Join(parts[1..], c) == parts[0] + ([c] + Join(parts[1..], c));
  }

  /** A word, a space and a text split into the word and the words of the text. */
  lemma WordsBeforeSpace(w: string, rest: string)
    requires IsWord(w)
    ensures Words(w + ([' '] + rest)) == [w] + Words(rest)
  {
    WordsOfWord(w, " " + rest);
    WordsAfterSpace(rest);
  }

  /** Words joined by single spaces begin with the first word's first character and end with the last word's last one. */
  lemma {:induction false} JoinEnds(ws: seq<string>, c: char)
    requires |ws| >= 1 && forall k :: 0 <= k < |ws| ==> ws[k] != []
    ensures var j := Join(ws, c); j != [] && j[0] == ws[0][0] && j[|j| - 1] == ws[|ws| - 1][|ws[|ws| - 1]| - 1]
    decreases |ws|
  {
    if |ws| > 1 {
      JoinEnds(ws[1..], c);
    }
  }

  /** Words joined by single spaces have nothing to trim. */
  lemma TrimOfJoinedWords(ws: seq<string>)
    requires |ws| >= 1 && forall k :: 0 <= k < |ws| ==> IsWord(ws[k])
    ensures Trim(Join(ws, ' ')) == Join(ws, ' ')
  {
    JoinEnds(ws, ' ');
    var last := ws[|ws| - 1];
    assert !IsWhitespace(last[|last| - 1]);
  }

  /** A character that is neither the separator nor in any part is not in the joined text. */
  lemma {:induction false} JoinAvoids(parts: seq<string>, sep: char, c: char)
    requires c != sep && forall k :: 0 <= k < |parts| ==> c !in parts[k]
    ensures c !in Join(parts, sep)
    decreases |parts|
  {
    if |parts| > 1 {
      JoinAvoids(parts[1..], sep, c);
    }
  }

  /** ASCII `to_ascii_lowercase`. */
  function AsciiLower(c: char): (r: char)
    ensures 'A' <= c <= 'Z' ==> r != c && 'a' <= r <= 'z'
    ensures !('A' <= c <= 'Z') ==> r == c
  {
    if 'A' <= c <= 'Z' then (c as int + 32) as char else c
  }

  function AsciiLowerString(s: string): (r: string)
    ensures |r| == |s|
    ensures forall i :: 0 <= i < |s| ==> r[i] == AsciiLower(s[i])
  {
    if s == [] then [] else [AsciiLower(s[0])] + AsciiLowerString(s[1..])
  }

  /** `a.eq_ignore_ascii_case(b)` */
  predicate EqIgnoreAsciiCase(a: string, b: string) {
    AsciiLowerString(a) == AsciiLowerString(b)
  }

  /** `s.starts_with(p)` and `s.ends_with(p)` */
  predicate StartsWith(s: string, p: string) { |p| <= |s| && s[..|p|] == p }
  predicate EndsWith(s: string, p: string) { |p| <= |s| && s[|s| - |p|..] == p }

  /** `s.find(p)`: the first index at which `p` occurs in `s`. */
  function Find(s: string, p: string): (r: Option<nat>)
    ensures r.Some? ==> OccursAt(s, p, r.value)
    ensures r.Some? ==> forall j :: 0 <= j < r.value ==> !OccursAt(s, p, j)
    ensures r.None? ==> forall j :: 0 <= j ==> !OccursAt(s, p, j)
    decreases |s|
  {
    if |s| < |p| then None
    else if s[..|p|] == p then Some(0)
    else
      var r := Find(s[1..], p);
      FindShift(s, p);
      if r.None? then None else Some(r.value + 1)
  }

  lemma FindShift(s: string, p: string)
    requires |s| > 0
    ensures forall j :: 1 <= j ==> (OccursAt(s, p, j) <==> OccursAt(s[1..], p, j - 1))
  {
    forall j | 1 <= j
      ensures OccursAt(s, p, j) <==> OccursAt(s[1..], p, j - 1)
    {
      if j + |p| <= |s| {
        var a, b := s[j..j + |p|], s[1..][j - 1..j - 1 + |p|];
        assert forall k :: 0 <= k < |a| ==> a[k] == b[k];
        assert a == b;
      }
    }
  }

  /** `p` occurs in `s` starting at index `j`. */
  predicate OccursAt(s: string, p: string, j: nat) {
    j + |p| <= |s| && s[j..j + |p|] == p
  }
}
