/**
 * The Python `str` operations the services rely on: `isspace`, `lower`, `upper`, `strip`,
 * `split(sep)`, `sep.join`, `split()` with no argument, `in` on strings and `str(n)` for a
 * natural number.
 *
 * Case mapping covers ASCII and Latin-1, and every other character whose Python case
 * mapping lands in Latin-1 (the Kelvin and Angstrom signs, the dotless i, the long s,
 * the Latin ligatures). All other characters are left unchanged. Comparisons against
 * Latin-1 text are therefore decided exactly as Python decides them.
 */
module Strings {
  import opened Wrappers
  import opened Seqs

  /** `c.isspace()` in Python 3. */
  predicate IsSpace(c: char) {
    c == ' ' || '\t' <= c <= '\r' || '\U{1C}' <= c <= '\U{1F}' || c == '\U{85}' || c == '\U{A0}'
    || c == '\U{1680}' || '\U{2000}' <= c <= '\U{200A}' || c == '\U{2028}' || c == '\U{2029}'
    || c == '\U{202F}' || c == '\U{205F}' || c == '\U{3000}'
  }

  function LowerChar(c: char): char {
    if 'A' <= c <= 'Z' || ('\U{C0}' <= c <= '\U{DE}' && c != '\U{D7}') then (c as int + 32) as char
    else if c == '\U{178}' then '\U{FF}'
    else if c == '\U{1E9E}' then '\U{DF}'
    else if c == '\U{212A}' then 'k'
    else if c == '\U{212B}' then '\U{E5}'
    else c
  }

  /** `s.lower()`: one character for one character. */
  function Lower(s: string): (r: string)
    ensures |r| == |s| && forall i :: 0 <= i < |s| ==> r[i] == LowerChar(s[i])
  {
    seq(|s|, i requires 0 <= i < |s| => LowerChar(s[i]))
  }

  lemma LowerAppend(a: string, b: string)
    ensures Lower(a + b) == Lower(a) + Lower(b)
  {
  }

  function UpperChar(c: char): string {
    if 'a' <= c <= 'z' || ('\U{E0}' <= c <= '\U{FE}' && c != '\U{F7}') then [(c as int - 32) as char]
    else if c == '\U{FF}' then "\U{178}"
    else if c == '\U{B5}' then "\U{39C}"
    else if c == '\U{DF}' then "SS"
    else if c == '\U{131}' then "I"
    else if c == '\U{17F}' then "S"
    else if c == '\U{FB00}' then "FF"
    else if c == '\U{FB01}' then "FI"
    else if c == '\U{FB02}' then "FL"
    else if c == '\U{FB03}' then "FFI"
    else if c == '\U{FB04}' then "FFL"
    else if c == '\U{FB05}' || c == '\U{FB06}' then "ST"
    else [c]
  }

  /** `s.upper()`: a character may become several ("ß" becomes "SS"). */
  function Upper(s: string): string {
    FlatMap(s, UpperChar)
  }

  /** Upper-casing works character by character, so it distributes over concatenation. */
  lemma UpperAppend(a: string, b: string)
    ensures Upper(a + b) == Upper(a) + Upper(b)
  {
    FlatMapAppend(a, b, UpperChar);
  }

  /** Characters upper-cased to themselves, in both directions of `Lower`. */
  predicate IsUpperWordChar(c: char) {
    'A' <= c <= 'Z' || c == '_'
  }

  lemma UpperSingle(c: char)
    ensures Upper([c]) == UpperChar(c)
  {
    assert [c][..0] == [];
    assert FlatMap([c], UpperChar) == FlatMap([c][..0], UpperChar) + UpperChar(c);
  }

  /** A word of capitals and underscores. */
  predicate IsUpperWord(s: string) {
    forall i :: 0 <= i < |s| ==> IsUpperWordChar(s[i])
  }

  /** A word of capitals and underscores is unchanged by `upper`, and is recovered by `upper`
      from its `lower` form. */
  lemma {:induction false} UpperOfUpperWord(s: string)
    requires IsUpperWord(s)
    ensures Upper(s) == s && Upper(Lower(s)) == s
  {
    if |s| > 0 {
      var p, c := s[..|s| - 1], s[|s| - 1];
      assert IsUpperWord(p) by {
        forall i | 0 <= i < |p| ensures IsUpperWordChar(p[i]) { assert p[i] == s[i]; }
      }
      UpperOfUpperWord(p);
      assert s == p + [c];
      UpperWordStep(p, c);
    }
  }

  lemma UpperWordChar(c: char)
    requires IsUpperWordChar(c)
    ensures UpperChar(c) == [c] && UpperChar(LowerChar(c)) == [c]
  {
  }

  lemma UpperSnoc(p: string, c: char)
    ensures Upper(p + [c]) == Upper(p) + UpperChar(c)
  {
    UpperAppend(p, [c]);
    UpperSingle(c);
  }

  lemma UpperWordStep(p: string, c: char)
    requires IsUpperWordChar(c)
    requires Upper(p) == p && Upper(Lower(p)) == p
    ensures Upper(p + [c]) == p + [c] && Upper(Lower(p + [c])) == p + [c]
  {
    UpperWordChar(c);
    UpperSnoc(p, c);
    LowerAppend(p, [c]);
    assert Lower(p + [c]) == Lower(p) + [LowerChar(c)];
    UpperSnoc(Lower(p), LowerChar(c));
  }

  /** Whitespace is untouched by `upper`. */
  lemma UpperOfSpace(c: char)
    requires IsSpace(c)
    ensures Upper([c]) == [c]
  {
    UpperSingle(c);
  }

  /** `s.lstrip()`: drops the leading whitespace. */
  function StripLeft(s: string): (r: string)
    ensures |r| <= |s| && r == s[|s| - |r|..]
    ensures forall i :: 0 <= i < |s| - |r| ==> IsSpace(s[i])
    ensures |r| > 0 ==> !IsSpace(r[0])
  {
    if |s| > 0 && IsSpace(s[0]) then StripLeft(s[1..]) else s
  }

  /** `s.rstrip()`: drops the trailing whitespace. */
  function StripRight(s: string): (r: string)
    ensures |r| <= |s| && r == s[..|r|]
    ensures forall i :: |r| <= i < |s| ==> IsSpace(s[i])
    ensures |r| > 0 ==> !IsSpace(r[|r| - 1])
  {
    if |s| > 0 && IsSpace(s[|s| - 1]) then StripRight(s[..|s| - 1]) else s
  }

  /** `s.strip()`: no whitespace left at either end. */
  function Strip(s: string): (r: string)
    ensures |r| <= |s|
    ensures |r| > 0 ==> !IsSpace(r[0]) && !IsSpace(r[|r| - 1])
  {
    StripRight(StripLeft(s))
  }

  /** What `strip` removes is whitespace at the two ends, and what it keeps is an infix. */
  lemma StripRemovesOnlyEnds(s: string)
    ensures var left, r := |s| - |StripLeft(s)|, Strip(s);
      left + |r| <= |s| && r == s[left..left + |r|] &&
      (forall i :: 0 <= i < left ==> IsSpace(s[i])) &&
      (forall i :: left + |r| <= i < |s| ==> IsSpace(s[i]))
  {
    var l := StripLeft(s);
    StripIsInfix(s);
    StripTail(s, l, StripRight(l), |s| - |l|);
  }

  /** What `strip` keeps is the infix after the leading whitespace. */
  lemma StripIsInfix(s: string)
    ensures var left, r := |s| - |StripLeft(s)|, Strip(s);
      left + |r| <= |s| && r == s[left..left + |r|]
  {
    var l := StripLeft(s);
    var r := StripRight(l);
    var left := |s| - |l|;
    assert l == s[left..];
    assert r == l[..|r|];
    SliceOfSuffix(s, left, |r|);
  }

  lemma SliceOfSuffix(s: string, left: nat, n: nat)
    requires left + n <= |s|
    ensures s[left..][..n] == s[left..left + n]
  {
  }

  lemma StripTail(s: string, l: string, r: string, left: nat)
    requires left <= |s| && l == s[left..] && |r| <= |l|
    requires forall i :: |r| <= i < |l| ==> IsSpace(l[i])
    ensures forall i :: left + |r| <= i < |s| ==> IsSpace(s[i])
  {
    forall i | left + |r| <= i < |s| ensures IsSpace(s[i]) {
      assert s[i] == l[i - left];
    }
  }

  /** `s.split(sep)` for a one-character separator: always at least one piece. */
  function Split(s: string, sep: char): (r: seq<string>)
    ensures |r| >= 1
    ensures forall i :: 0 <= i < |r| ==> sep !in r[i]
    decreases |s|
  {
    if |s| == 0 then [""]
    else
      var rest := Split(s[1..], sep);
      if s[0] == sep then [""] + rest
      else [[s[0]] + rest[0]] + rest[1..]
  }

  /** `sep.join(ls)`. */
  function Join(ls: seq<string>, sep: char): string {
    if |ls| == 0 then ""
    else if |ls| == 1 then ls[0]
    else ls[0] + [sep] + Join(ls[1..], sep)
  }

  lemma JoinPrepend(x: string, ls: seq<string>, sep: char)
    requires |ls| >= 1
    ensures Join([x + ls[0]] + ls[1..], sep) == x + Join(ls, sep)
  {
    var ls' := [x + ls[0]] + ls[1..];
    assert ls'[1..] == ls[1..];
  }

  /** Joining the pieces with the separator gives back the string. */
  lemma {:induction false} JoinSplit(s: string, sep: char)
    ensures Join(Split(s, sep), sep) == s
    decreases |s|
  {
    if |s| > 0 {
      var rest := Split(s[1..], sep);
      JoinSplit(s[1..], sep);
      if s[0] == sep {
        assert ([""] + rest)[1..] == rest;
      } else {
        JoinPrepend([s[0]], rest, sep);
      }
    }
  }

  lemma {:induction false} SplitPrefix(a: string, rest: string, sep: char)
    requires sep !in a
    ensures var r := Split(rest, sep); Split(a + rest, sep) == [a + r[0]] + r[1..]
  {
    if |a| > 0 {
      SplitPrefix(a[1..], rest, sep);
      assert (a + rest)[1..] == a[1..] + rest;
      assert [a[0]] + (a[1..] + Split(rest, sep)[0]) == a + Split(rest, sep)[0];
    } else {
      var r := Split(rest, sep);
      assert a + rest == rest;
      assert a + r[0] == r[0];
      assert [r[0]] + r[1..] == r;
    }
  }

  /** Splitting a join of separator-free pieces gives back the pieces. */
  lemma {:induction false} SplitJoin(ls: seq<string>, sep: char)
    requires |ls| >= 1
    requires forall i :: 0 <= i < |ls| ==> sep !in ls[i]
    ensures Split(Join(ls, sep), sep) == ls
  {
    if |ls| == 1 {
      SplitPrefix(ls[0], "", sep);
      assert ls[0] + "" == ls[0];
      assert Split("", sep) == [""];
      assert [ls[0]] == ls;
    } else {
      var tail := Join(ls[1..], sep);
      SplitJoin(ls[1..], sep);
      SplitPrefix(ls[0], [sep] + tail, sep);
      assert ([sep] + tail)[1..] == tail;
      assert Split([sep] + tail, sep) == [""] + ls[1..];
      assert Join(ls, sep) == ls[0] + ([sep] + tail);
      assert ls[0] + "" == ls[0];
      assert ls[0] + [sep] + tail == ls[0] + ([sep] + tail);
      assert [ls[0]] + ls[1..] == ls;
    }
  }

  /** `s.split()` with no separator: the maximal runs of non-whitespace, in order. */
  function Words(s: string): (ws: seq<string>)
    ensures forall i :: 0 <= i < |ws| ==> |ws[i]| > 0 && forall c :: c in ws[i] ==> !IsSpace(c)
    ensures |s| > 0 && !IsSpace(s[0]) ==> |ws| > 0 && ws[0][0] == s[0]
    decreases |s|
  {
    if |s| == 0 then []
    else if IsSpace(s[0]) then Words(s[1..])
    else
      var rest := Words(s[1..]);
      if |s| > 1 && !IsSpace(s[1]) then [[s[0]] + rest[0]] + rest[1..]
      else [[s[0]]] + rest
  }

  /** The characters of s that are not whitespace, in order. */
  function NonWs(s: string): (r: string)
    ensures forall c :: c in r ==> !IsSpace(c)
    ensures forall c :: c in r ==> c in s
    ensures |r| <= |s|
  {
    if |s| == 0 then "" else (if IsSpace(s[0]) then "" else [s[0]]) + NonWs(s[1..])
  }

  lemma {:induction false} NonWsAppend(a: string, b: string)
    ensures NonWs(a + b) == NonWs(a) + NonWs(b)
  {
    if |a| > 0 {
      NonWsAppend(a[1..], b);
      assert (a + b)[1..] == a[1..] + b;
    } else {
      assert a + b == b;
    }
  }

  function Concat(ws: seq<string>): string {
    if |ws| == 0 then "" else ws[0] + Concat(ws[1..])
  }

  lemma {:induction false} ConcatMember(ws: seq<string>, i: nat, c: char)
    requires i < |ws| && c in ws[i]
    ensures c in Concat(ws)
  {
    if i > 0 { ConcatMember(ws[1..], i - 1, c); }
  }

  /** The words of s are made of characters of s. */
  lemma WordsChars(s: string, i: nat, c: char)
    requires i < |Words(s)| && c in Words(s)[i]
    ensures c in s
  {
    ConcatMember(Words(s), i, c);
    WordsKeepText(s);
  }

  /** `split()` loses only whitespace: its words concatenate to the non-whitespace characters. */
  lemma {:induction false} WordsKeepText(s: string)
    ensures Concat(Words(s)) == NonWs(s)
    decreases |s|
  {
    if |s| > 0 {
      WordsKeepText(s[1..]);
      var rest := Words(s[1..]);
      if !IsSpace(s[0]) && |s| > 1 && !IsSpace(s[1]) {
        var ws := [[s[0]] + rest[0]] + rest[1..];
        assert ws[1..] == rest[1..];
        assert Concat(rest) == rest[0] + Concat(rest[1..]);
      } else if !IsSpace(s[0]) {
        assert ([[s[0]]] + rest)[1..] == rest;
      }
    }
  }

  /** `s.find(c)`, as an option. */
  function FirstIndexOf(s: string, c: char): (r: Option<nat>)
    ensures r.None? ==> forall j :: 0 <= j < |s| ==> s[j] != c
    ensures r.Some? ==> (r.value < |s| && s[r.value] == c && forall j :: 0 <= j < r.value ==> s[j] != c)
  {
    if |s| == 0 then None
    else if s[0] == c then Some(0)
    else match FirstIndexOf(s[1..], c)
      case None => None
      case Some(i) => Some(i + 1)
  }

  /** `s.rfind(c)`, as an option. */
  function LastIndexOf(s: string, c: char): (r: Option<nat>)
    ensures r.None? ==> forall j :: 0 <= j < |s| ==> s[j] != c
    ensures r.Some? ==> (r.value < |s| && s[r.value] == c && forall j :: r.value < j < |s| ==> s[j] != c)
  {
    if |s| == 0 then None
    else if s[|s| - 1] == c then Some(|s| - 1)
    else LastIndexOf(s[..|s| - 1], c)
  }

  /** Python's `sub in s` on strings. */
  predicate Contains(s: string, sub: string)
    decreases |s|
  {
    sub <= s || (|s| > 0 && Contains(s[1..], sub))
  }

  /** A string contains every infix of itself. */
  lemma {:induction false} ContainsInfix(a: string, sub: string, b: string)
    ensures Contains(a + sub + b, sub)
  {
    if |a| == 0 {
      assert a + sub + b == sub + b;
    } else {
      ContainsInfix(a[1..], sub, b);
      assert (a + sub + b)[1..] == a[1..] + sub + b;
    }
  }

  function Digit(d: nat): char
    requires d < 10
  {
    ('0' as int + d) as char
  }

  /** `str(n)` for a natural number: its decimal digits, without leading zeros. */
  function NatToString(n: nat): (s: string)
    ensures |s| > 0 && forall i :: 0 <= i < |s| ==> '0' <= s[i] <= '9'
    ensures n > 0 ==> s[0] != '0'
  {
    if n < 10 then [Digit(n)] else NatToString(n / 10) + [Digit(n % 10)]
  }

  /** The number a string of decimal digits denotes. */
  function DecimalValue(s: string): nat
    requires forall i :: 0 <= i < |s| ==> '0' <= s[i] <= '9'
  {
    if |s| == 0 then 0 else DecimalValue(s[..|s| - 1]) * 10 + (s[|s| - 1] as int - '0' as int)
  }

  /** Reading back the digits of `str(n)` gives n. */
  lemma {:induction false} DecimalRoundTrip(n: nat)
    ensures DecimalValue(NatToString(n)) == n
  {
    if n >= 10 {
      DecimalRoundTrip(n / 10);
      var s := NatToString(n);
      assert s[..|s| - 1] == NatToString(n / 10);
    }
  }

  /** Different numbers have different decimal forms. */
  lemma NatToStringInjective(a: nat, b: nat)
    requires NatToString(a) == NatToString(b)
    ensures a == b
  {
    DecimalRoundTrip(a);
    DecimalRoundTrip(b);
  }
}
