/** The JavaScript string operations the server relies on (`trim`, `split`,
    `startsWith`, `includes`, decimal rendering of numbers), over `string`. */
module Text {

  /** The characters that `String.prototype.trim` removes and that `\s` matches
      in a JavaScript regular expression: the white space characters (tab,
      vertical tab, form feed, space, no-break space, the byte order mark and
      every space separator) and the four line terminators. */
  predicate IsWhite(c: char) {
    c in WhiteChars
  }

  const WhiteChars: set<char> := {
    '\t', '\n', '\U{B}', '\U{C}', '\r', ' ', '\U{A0}', '\U{1680}',
    '\U{2000}', '\U{2001}', '\U{2002}', '\U{2003}', '\U{2004}', '\U{2005}',
    '\U{2006}', '\U{2007}', '\U{2008}', '\U{2009}', '\U{200A}',
    '\U{2028}', '\U{2029}', '\U{202F}', '\U{205F}', '\U{3000}', '\U{FEFF}'
  }

  /** `\d` in a JavaScript regular expression: an ASCII digit. */
  predicate IsDigit(c: char) {
    '0' <= c <= '9'
  }

  predicate AllWhite(s: string) {
    forall i :: 0 <= i < |s| ==> IsWhite(s[i])
  }

  predicate AllDigits(s: string) {
    forall i :: 0 <= i < |s| ==> IsDigit(s[i])
  }

  /** A string that `trim` leaves alone: no white character at either end. */
  predicate IsTrimmed(s: string) {
    s == [] || (!IsWhite(s[0]) && !IsWhite(s[|s| - 1]))
  }

  // ---------------------------------------------------------------- trim

  lemma AllWhiteConcat(a: string, b: string)
    requires AllWhite(a) && AllWhite(b)
    ensures AllWhite(a + b)
  {
    forall k | 0 <= k < |a + b| ensures IsWhite((a + b)[k]) {
      if k < |a| { assert (a + b)[k] == a[k]; } else { assert (a + b)[k] == b[k - |a|]; }
    }
  }

  /** `s.trimStart()`: `s` from its first character that is not white
      (`TrimStartDropsWhite` says that what it drops is all white). */
  function TrimStart(s: string): (r: string)
    ensures |r| <= |s| && r == s[|s| - |r|..]
    ensures r == [] || !IsWhite(r[0])
  {
    if |s| > 0 && IsWhite(s[0]) then TrimStart(s[1..]) else s
  }

  /** `s.trimEnd()`: `s` up to its last character that is not white
      (`TrimEndDropsWhite` says that what it drops is all white). */
  function TrimEnd(s: string): (r: string)
    ensures |r| <= |s| && r == s[..|r|]
    ensures r == [] || !IsWhite(r[|r| - 1])
  {
    if |s| > 0 && IsWhite(s[|s| - 1]) then TrimEnd(s[..|s| - 1]) else s
  }

  lemma {:induction false} TrimStartDropsWhite(s: string)
    ensures forall i :: 0 <= i < |s| - |TrimStart(s)| ==> IsWhite(s[i])
  {
    if |s| > 0 && IsWhite(s[0]) {
      TrimStartDropsWhite(s[1..]);
    }
  }

  lemma {:induction false} TrimEndDropsWhite(s: string)
    ensures forall i :: |TrimEnd(s)| <= i < |s| ==> IsWhite(s[i])
  {
    if |s| > 0 && IsWhite(s[|s| - 1]) {
      TrimEndDropsWhite(s[..|s| - 1]);
    }
  }

  /** A string that `trim` empties, character by character: each one white. */
  predicate Blank(s: string) {
    s == [] || (IsWhite(s[0]) && Blank(s[1..]))
  }

  lemma {:induction false} BlankIffAllWhite(s: string)
    ensures Blank(s) <==> AllWhite(s)
  {
    if s != [] {
      BlankIffAllWhite(s[1..]);
      assert s == [s[0]] + s[1..];
      if IsWhite(s[0]) && AllWhite(s[1..]) {
        AllWhiteConcat([s[0]], s[1..]);
      }
    }
  }

  /** `s.trim()`: `s` without its leading and trailing white characters.
      What is left is trimmed, and it is empty exactly when `s` is blank,
      so `Blank` is the JavaScript test `!s.trim()`. */
  function Trim(s: string): (r: string)
    ensures |r| <= |s|
    ensures IsTrimmed(r)
    ensures r == [] <==> Blank(s)
  {
    TrimEmptyIffBlank(s);
    TrimEnd(TrimStart(s))
  }

  lemma TrimEmptyIffBlank(s: string)
    ensures TrimEnd(TrimStart(s)) == [] <==> Blank(s)
  {
    BlankIffAllWhite(s);
    if TrimEnd(TrimStart(s)) == [] {
      EmptyTrimIsWhite(s);
    }
    if AllWhite(s) {
      WhiteTrimsToEmpty(s);
    }
  }

  lemma EmptyTrimIsWhite(s: string)
    requires TrimEnd(TrimStart(s)) == []
    ensures AllWhite(s)
  {
    TrimStartDropsWhite(s);
    TrimEndDropsWhite(TrimStart(s));
  }

  lemma {:induction false} WhiteTrimsToEmpty(s: string)
    requires AllWhite(s)
    ensures TrimStart(s) == []
  {
    if s != [] {
      assert IsWhite(s[0]);
      WhiteTrimsToEmpty(s[1..]);
    }
  }

  /** White space in front of a string that does not start white is all
      `trimStart` removes. */
  lemma {:induction false} TrimStartSkips(front: string, s: string)
    requires AllWhite(front) && (s == [] || !IsWhite(s[0]))
    ensures TrimStart(front + s) == s
  {
    if front != [] {
      assert (front + s)[1..] == front[1..] + s;
      TrimStartSkips(front[1..], s);
    } else {
      assert front + s == s;
    }
  }

  /** White space behind a string that does not end white is all `trimEnd` removes. */
  lemma {:induction false} TrimEndSkips(s: string, back: string)
    requires AllWhite(back) && (s == [] || !IsWhite(s[|s| - 1]))
    ensures TrimEnd(s + back) == s
  {
    if back != [] {
      var b := back[..|back| - 1];
      assert (s + back)[..|s + back| - 1] == s + b;
      TrimEndSkips(s, b);
    } else {
      assert s + back == s;
    }
  }

  /** `trim` is fully characterised by the decomposition it undoes: white
      space, a trimmed core, white space. */
  lemma TrimRemovesPadding(front: string, core: string, back: string)
    requires AllWhite(front) && IsTrimmed(core) && AllWhite(back)
    ensures Trim(front + core + back) == core
  {
    var s := front + core + back;
    if core == [] {
      AllWhiteConcat(front, back);
      assert s == front + back;
    } else {
      assert s == front + (core + back);
      TrimStartSkips(front, core + back);
      TrimEndSkips(core, back);
    }
  }

  /** `trim` does nothing to a string that is already trimmed, so it is idempotent. */
  lemma TrimIdempotent(s: string)
    ensures Trim(Trim(s)) == Trim(s)
  {
    TrimRemovesPadding([], Trim(s), []);
    assert [] + Trim(s) + [] == Trim(s);
  }

  /** White space in front of a string does not change what `trimStart` gives. */
  lemma {:induction false} WhitePrefixIgnored(front: string, s: string)
    requires AllWhite(front)
    ensures TrimStart(front + s) == TrimStart(s)
  {
    if front != [] {
      assert (front + s)[0] == front[0];
      assert (front + s)[1..] == front[1..] + s;
      WhitePrefixIgnored(front[1..], s);
    } else {
      assert front + s == s;
    }
  }

  /** White space in front of a string does not change what `trim` gives. */
  lemma WhitePrefixTrimmed(front: string, s: string)
    requires AllWhite(front)
    ensures Trim(front + s) == Trim(s)
  {
    WhitePrefixIgnored(front, s);
  }

  /** `trimStart` before `trim` changes nothing. */
  lemma TrimAfterTrimStart(s: string)
    ensures Trim(TrimStart(s)) == Trim(s)
  {
    var u := TrimStart(s);
    TrimStartSkips([], u);
    assert [] + u == u;
  }

  // ---------------------------------------------------------------- split

  /** `s.split(sep)` for a one-character separator: the pieces between the
      separators, from left to right; there is always at least one piece. */
  function Split(s: string, sep: char): (r: seq<string>)
    ensures |r| >= 1
    ensures forall i :: 0 <= i < |r| ==> sep !in r[i]
  {
    if s == [] then [[]]
    else
      var rest := Split(s[1..], sep);
      if s[0] == sep then [[]] + rest
      else [[s[0]] + rest[0]] + rest[1..]
  }

  /** `parts.join(sep)`: the inverse of `Split`. */
  function Join(parts: seq<string>, sep: char): string
    requires |parts| >= 1
  {
    if |parts| == 1 then parts[0] else parts[0] + [sep] + Join(parts[1..], sep)
  }

  /** Joining the pieces of a split gives back the original string. */
  lemma {:induction false} JoinSplit(s: string, sep: char)
    ensures Join(Split(s, sep), sep) == s
  {
    if s != [] {
      var rest := Split(s[1..], sep);
      JoinSplit(s[1..], sep);
      if s[0] == sep {
        assert Split(s, sep)[1..] == rest;
      } else {
        var r := Split(s, sep);
        if |rest| == 1 {
          assert r == [[s[0]] + rest[0]];
        } else {
          assert r[1..] == rest[1..];
          assert Join(rest, sep) == rest[0] + [sep] + Join(rest[1..], sep);
        }
      }
    }
  }

  /** A piece free of the separator, followed by the separator, splits off as one piece. */
  lemma {:induction false} SplitPiece(p: string, sep: char, rest: string)
    requires sep !in p
    ensures Split(p + [sep] + rest, sep) == [p] + Split(rest, sep)
  {
    if p != [] {
      assert (p + [sep] + rest)[1..] == p[1..] + [sep] + rest;
      SplitPiece(p[1..], sep, rest);
      assert [p[0]] + p[1..] == p;
    } else {
      assert p + [sep] + rest == [sep] + rest;
    }
  }

  /** A string free of the separator is one piece. */
  lemma {:induction false} SplitWhole(p: string, sep: char)
    requires sep !in p
    ensures Split(p, sep) == [p]
  {
    if p != [] {
      SplitWhole(p[1..], sep);
      assert [p[0]] + p[1..] == p;
    }
  }

  /** Splitting a join gives back the pieces, when none contains the separator. */
  lemma {:induction false} SplitJoin(parts: seq<string>, sep: char)
    requires |parts| >= 1
    requires forall i :: 0 <= i < |parts| ==> sep !in parts[i]
    ensures Split(Join(parts, sep), sep) == parts
  {
    if |parts| == 1 {
      SplitWhole(parts[0], sep);
    } else {
      SplitJoin(parts[1..], sep);
      SplitPiece(parts[0], sep, Join(parts[1..], sep));
      assert parts == [parts[0]] + parts[1..];
    }
  }

  // ---------------------------------------------------------------- includes

  /** `s.includes(sub)`. */
  predicate Contains(s: string, sub: string): (b: bool)
    ensures sub <= s ==> b
    ensures b ==> |sub| <= |s|
    decreases |s|
  {
    sub <= s || (|s| > 0 && Contains(s[1..], sub))
  }

  /** `sub` occurs in `s` starting at position `i`. */
  predicate OccursAt(s: string, sub: string, i: nat) {
    i + |sub| <= |s| && s[i..i + |sub|] == sub
  }

  /** `Contains` holds exactly when `sub` occurs at some position of `s`. */
  lemma {:induction false} ContainsAt(s: string, sub: string)
    ensures Contains(s, sub) <==> exists i: nat :: OccursAt(s, sub, i)
  {
    if sub <= s {
      assert OccursAt(s, sub, 0);
    } else if |s| > 0 {
      ContainsAt(s[1..], sub);
      if Contains(s[1..], sub) {
        var i: nat :| OccursAt(s[1..], sub, i);
        assert s[1..][i..i + |sub|] == s[i + 1..i + 1 + |sub|];
        assert OccursAt(s, sub, i + 1);
      }
      if i: nat :| OccursAt(s, sub, i) {
        assert s[0..|sub|] == s[..|sub|];
        assert i != 0;
        assert s[1..][i - 1..i - 1 + |sub|] == s[i..i + |sub|];
        assert OccursAt(s[1..], sub, i - 1);
      }
    } else {
      assert forall i: nat :: !OccursAt(s, sub, i);
    }
  }

  /** A string that ends with `sub` includes it, whatever comes before. */
  lemma {:induction false} ContainsSuffix(front: string, sub: string)
    ensures Contains(front + sub, sub)
  {
    if front != [] {
      assert (front + sub)[1..] == front[1..] + sub;
      ContainsSuffix(front[1..], sub);
    }
  }

  // ---------------------------------------------------------------- numbers

  function DigitChar(d: nat): (c: char)
    requires d < 10
    ensures IsDigit(c)
  {
    (48 + d) as char
  }

  function DigitValue(c: char): nat
    requires IsDigit(c)
  {
    c as int - 48
  }

  /** How a template literal renders a natural number: its decimal digits,
      without leading zeros. */
  function Decimal(n: nat): (r: string)
    ensures |r| >= 1 && AllDigits(r)
    ensures r[0] == '0' ==> n == 0
  {
    if n < 10 then [DigitChar(n)] else Decimal(n / 10) + [DigitChar(n % 10)]
  }

  /** The value of a string of decimal digits. */
  function DigitsValue(s: string): nat
    requires AllDigits(s)
  {
    if s == [] then 0 else 10 * DigitsValue(s[..|s| - 1]) + DigitValue(s[|s| - 1])
  }

  /** Reading back a rendered number gives the number. */
  lemma {:induction false} DecimalRoundTrip(n: nat)
    ensures DigitsValue(Decimal(n)) == n
  {
    if n >= 10 {
      DecimalRoundTrip(n / 10);
      var r := Decimal(n);
      assert r[..|r| - 1] == Decimal(n / 10);
    }
  }

  /** Distinct numbers render differently. */
  lemma DecimalInjective(m: nat, n: nat)
    requires m != n
    ensures Decimal(m) != Decimal(n)
  {
    DecimalRoundTrip(m);
    DecimalRoundTrip(n);
  }
}
