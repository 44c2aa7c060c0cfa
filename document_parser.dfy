/**
 * The text side of the document parser: the clean-up pipeline applied to decoded text, the
 * marker-word language guess, and the extension gate and metadata of `parse`. The PDF, DOCX
 * and plain-text decoders are parameters.
 */
module DocumentParser {
  import opened Wrappers
  import opened Seqs
  import opened Strings

  // ---------------------------------------------------------------- clean_text, step by step

  /** `replace('\r\n', '\n')`: a left-to-right scan replacing each CR LF pair. */
  function ReplaceCrLf(s: string): (r: string)
    ensures forall c :: c in r ==> c in s
    decreases |s|
  {
    if |s| == 0 then ""
    else if |s| >= 2 && s[0] == '\r' && s[1] == '\n' then "\n" + ReplaceCrLf(s[2..])
    else [s[0]] + ReplaceCrLf(s[1..])
  }

  /** `replace('\r', '\n')`. */
  function ReplaceCr(s: string): (r: string)
    ensures '\r' !in r
    ensures forall c :: c in r ==> c in s || c == '\n'
  {
    if |s| == 0 then "" else [if s[0] == '\r' then '\n' else s[0]] + ReplaceCr(s[1..])
  }

  predicate IsBlank(c: char) { c == ' ' || c == '\t' }

  /** The leading run of blanks removed. */
  function DropBlanks(s: string): (r: string)
    ensures |r| <= |s| && r == s[|s| - |r|..]
    ensures forall i :: 0 <= i < |s| - |r| ==> IsBlank(s[i])
    ensures |r| > 0 ==> !IsBlank(r[0])
  {
    if |s| > 0 && IsBlank(s[0]) then DropBlanks(s[1..]) else s
  }

  /** No two spaces in a row. */
  predicate NoDoubleSpace(s: string) {
    forall k :: 0 <= k < |s| - 1 ==> !(s[k] == ' ' && s[k + 1] == ' ')
  }

  /** `re.sub(r'[ \t]+', ' ', s)`: each maximal run of spaces and tabs becomes one space. */
  function CollapseBlanks(s: string): (r: string)
    ensures '\t' !in r && NoDoubleSpace(r)
    ensures forall c :: c in r ==> c in s || c == ' '
    ensures |r| > 0 <==> |s| > 0
    ensures |r| > 0 ==> (r[0] == ' ' <==> IsBlank(s[0]))
    decreases |s|
  {
    if |s| == 0 then ""
    else if IsBlank(s[0]) then " " + CollapseBlanks(DropBlanks(s[1..]))
    else [s[0]] + CollapseBlanks(s[1..])
  }

  /** The length of the leading run of newlines. */
  function LeadingNewlines(s: string): (n: nat)
    ensures n <= |s| && (forall i :: 0 <= i < n ==> s[i] == '\n') && (n < |s| ==> s[n] != '\n')
  {
    if |s| > 0 && s[0] == '\n' then 1 + LeadingNewlines(s[1..]) else 0
  }

  /** `re.sub(r'\n{3,}', '\n\n', s)`: each maximal run of three or more newlines becomes two. */
  function CollapseNewlines(s: string): (r: string)
    ensures forall c :: c in r ==> c in s
    ensures |s| > 0 ==> |r| > 0 && r[0] == s[0]
    decreases |s|
  {
    if |s| == 0 then ""
    else
      var n := LeadingNewlines(s);
      if n == 0 then [s[0]] + CollapseNewlines(s[1..])
      else (if n >= 3 then "\n\n" else s[..n]) + CollapseNewlines(s[n..])
  }

  function StripEach(ls: seq<string>): (ms: seq<string>)
    ensures |ms| == |ls| && forall i :: 0 <= i < |ls| ==> ms[i] == Strip(ls[i])
  {
    seq(|ls|, i requires 0 <= i < |ls| => Strip(ls[i]))
  }

  /** `'\n'.join(line.strip() for line in s.split('\n'))`. */
  function StripLines(s: string): string {
    Join(StripEach(Split(s, '\n')), '\n')
  }

  function NormalizeNewlines(text: string): string { ReplaceCr(ReplaceCrLf(text)) }

  /** `clean_text`. */
  function CleanText(text: string): string {
    Strip(StripLines(CollapseNewlines(CollapseBlanks(NormalizeNewlines(text)))))
  }

  // ---------------------------------------------------------------- what each step keeps

  lemma {:induction false} NonWsOfSpaces(s: string)
    requires forall i :: 0 <= i < |s| ==> IsSpace(s[i])
    ensures NonWs(s) == ""
  {
    if |s| > 0 { NonWsOfSpaces(s[1..]); }
  }

  /** Whitespace in front of a text adds nothing to its non-whitespace characters. */
  lemma NonWsAfterSpaces(p: string, x: string)
    requires forall i :: 0 <= i < |p| ==> IsSpace(p[i])
    ensures NonWs(p + x) == NonWs(x)
  {
    NonWsAppend(p, x);
    NonWsOfSpaces(p);
  }

  /** Leading whitespace adds nothing to the non-whitespace text. */
  lemma {:induction false} LeadingSpacesDropped(s: string, n: nat)
    requires n <= |s| && forall i :: 0 <= i < n ==> IsSpace(s[i])
    ensures NonWs(s) == NonWs(s[n..])
  {
    if n > 0 {
      assert s[1..][n - 1..] == s[n..];
      LeadingSpacesDropped(s[1..], n - 1);
    }
  }

  lemma NonWsSameHead(a: string, b: string)
    requires |a| > 0 && |b| > 0 && a[0] == b[0] && NonWs(a[1..]) == NonWs(b[1..])
    ensures NonWs(a) == NonWs(b)
  {
  }

  lemma {:induction false} ReplaceCrLfKeepsText(s: string)
    ensures NonWs(ReplaceCrLf(s)) == NonWs(s)
    decreases |s|
  {
    if |s| >= 2 && s[0] == '\r' && s[1] == '\n' {
      ReplaceCrLfKeepsText(s[2..]);
      LeadingSpacesDropped(s, 2);
      LeadingSpacesDropped(ReplaceCrLf(s), 1);
      assert ReplaceCrLf(s)[1..] == ReplaceCrLf(s[2..]);
    } else if |s| > 0 {
      ReplaceCrLfKeepsText(s[1..]);
      assert ReplaceCrLf(s)[1..] == ReplaceCrLf(s[1..]);
      NonWsSameHead(ReplaceCrLf(s), s);
    }
  }

  lemma {:induction false} ReplaceCrKeepsText(s: string)
    ensures NonWs(ReplaceCr(s)) == NonWs(s)
  {
    if |s| > 0 {
      ReplaceCrKeepsText(s[1..]);
      assert ReplaceCr(s)[1..] == ReplaceCr(s[1..]);
    }
  }

  lemma {:induction false} DropBlanksKeepsText(s: string)
    ensures NonWs(DropBlanks(s)) == NonWs(s)
  {
    if |s| > 0 && IsBlank(s[0]) { DropBlanksKeepsText(s[1..]); }
  }

  lemma {:induction false} CollapseBlanksKeepsText(s: string)
    ensures NonWs(CollapseBlanks(s)) == NonWs(s)
    decreases |s|
  {
    if |s| > 0 {
      if IsBlank(s[0]) {
        var d := DropBlanks(s[1..]);
        CollapseBlanksKeepsText(d);
        DropBlanksKeepsText(s[1..]);
        NonWsAppend(" ", CollapseBlanks(d));
        NonWsOfSpaces(" ");
      } else {
        CollapseBlanksKeepsText(s[1..]);
        assert CollapseBlanks(s)[1..] == CollapseBlanks(s[1..]);
      }
    }
  }

  lemma {:induction false} CollapseNewlinesKeepsText(s: string)
    ensures NonWs(CollapseNewlines(s)) == NonWs(s)
    decreases |s|
  {
    if |s| > 0 {
      var n := LeadingNewlines(s);
      if n == 0 {
        CollapseNewlinesKeepsText(s[1..]);
        assert CollapseNewlines(s)[1..] == CollapseNewlines(s[1..]);
      } else {
        var head := if n >= 3 then "\n\n" else s[..n];
        CollapseNewlinesKeepsText(s[n..]);
        assert CollapseNewlines(s) == head + CollapseNewlines(s[n..]);
        NonWsAfterSpaces(head, CollapseNewlines(s[n..]));
        assert s == s[..n] + s[n..];
        NonWsAfterSpaces(s[..n], s[n..]);
      }
    }
  }

  lemma {:induction false} CollapseNewlinesNoDoubleSpace(s: string)
    requires NoDoubleSpace(s)
    ensures NoDoubleSpace(CollapseNewlines(s))
    decreases |s|
  {
    if |s| > 0 {
      var n := LeadingNewlines(s);
      var r := CollapseNewlines(s);
      if n == 0 {
        CollapseNewlinesNoDoubleSpace(s[1..]);
        assert r[1..] == CollapseNewlines(s[1..]);
        if |s| > 1 { assert r[1] == s[1]; }
      } else {
        var head := if n >= 3 then "\n\n" else s[..n];
        var tail := CollapseNewlines(s[n..]);
        CollapseNewlinesNoDoubleSpace(s[n..]);
        assert r == head + tail;
        forall k | 0 <= k < |r| - 1 ensures !(r[k] == ' ' && r[k + 1] == ' ') {
          if k < |head| { assert r[k] == '\n'; } else { assert r[k] == tail[k - |head|]; }
        }
      }
    }
  }

  lemma {:induction false} StripLeftKeepsText(x: string)
    ensures NonWs(StripLeft(x)) == NonWs(x)
  {
    if |x| > 0 && IsSpace(x[0]) { StripLeftKeepsText(x[1..]); }
  }

  lemma {:induction false} StripRightKeepsText(x: string)
    ensures NonWs(StripRight(x)) == NonWs(x)
  {
    if |x| > 0 && IsSpace(x[|x| - 1]) {
      var p := x[..|x| - 1];
      StripRightKeepsText(p);
      assert x == p + [x[|x| - 1]];
      NonWsBeforeSpace(p, x[|x| - 1]);
    }
  }

  lemma NonWsBeforeSpace(p: string, c: char)
    requires IsSpace(c)
    ensures NonWs(p + [c]) == NonWs(p)
  {
    NonWsAppend(p, [c]);
    assert NonWs([c]) == "";
    assert NonWs(p) + "" == NonWs(p);
  }

  lemma StripKeepsText(x: string)
    ensures NonWs(Strip(x)) == NonWs(x)
  {
    StripLeftKeepsText(x);
    StripRightKeepsText(StripLeft(x));
  }

  lemma {:induction false} JoinKeepsText(ls: seq<string>, ms: seq<string>, sep: char)
    requires IsSpace(sep) && |ls| == |ms|
    requires forall i :: 0 <= i < |ls| ==> NonWs(ls[i]) == NonWs(ms[i])
    ensures NonWs(Join(ls, sep)) == NonWs(Join(ms, sep))
  {
    if |ls| > 1 {
      JoinKeepsText(ls[1..], ms[1..], sep);
      NonWsAppend(ls[0] + [sep], Join(ls[1..], sep));
      NonWsAppend(ms[0] + [sep], Join(ms[1..], sep));
      NonWsAppend(ls[0], [sep]);
      NonWsAppend(ms[0], [sep]);
      NonWsOfSpaces([sep]);
    }
  }

  lemma StripLinesKeepsText(s: string)
    ensures NonWs(StripLines(s)) == NonWs(s)
  {
    var ls := Split(s, '\n');
    forall i | 0 <= i < |ls| ensures NonWs(ls[i]) == NonWs(StripEach(ls)[i]) { StripKeepsText(ls[i]); }
    JoinKeepsText(ls, StripEach(ls), '\n');
    JoinSplit(s, '\n');
  }

  // ---------------------------------------------------------------- joins and infixes

  lemma {:induction false} JoinChars(ls: seq<string>, sep: char, c: char)
    requires c != sep
    ensures c in Join(ls, sep) <==> exists i :: 0 <= i < |ls| && c in ls[i]
  {
    if |ls| > 1 {
      JoinChars(ls[1..], sep, c);
      assert c in Join(ls, sep) <==> c in ls[0] || c in Join(ls[1..], sep);
      if exists i :: 0 <= i < |ls| && c in ls[i] {
        var i :| 0 <= i < |ls| && c in ls[i];
        if i > 0 { assert ls[1..][i - 1] == ls[i]; }
      }
      forall i | 0 <= i < |ls| - 1 ensures ls[1..][i] == ls[i + 1] { }
    }
  }

  lemma NoDoubleSpaceAround(a: string, sep: char, b: string)
    requires sep != ' '
    ensures NoDoubleSpace(a + [sep] + b) <==> NoDoubleSpace(a) && NoDoubleSpace(b)
  {
    var s := a + [sep] + b;
    if NoDoubleSpace(s) {
      forall k | 0 <= k < |a| - 1 ensures !(a[k] == ' ' && a[k + 1] == ' ') { assert s[k] == a[k] && s[k + 1] == a[k + 1]; }
      forall k | 0 <= k < |b| - 1 ensures !(b[k] == ' ' && b[k + 1] == ' ') {
        assert s[|a| + 1 + k] == b[k] && s[|a| + 2 + k] == b[k + 1];
      }
    }
    if NoDoubleSpace(a) && NoDoubleSpace(b) {
      forall k | 0 <= k < |s| - 1 ensures !(s[k] == ' ' && s[k + 1] == ' ') {
        if k < |a| - 1 { assert s[k] == a[k] && s[k + 1] == a[k + 1]; }
        else if k > |a| { assert s[k] == b[k - |a| - 1] && s[k + 1] == b[k - |a|]; }
      }
    }
  }

  lemma {:induction false} JoinNoDoubleSpace(ls: seq<string>, sep: char)
    requires sep != ' '
    ensures NoDoubleSpace(Join(ls, sep)) <==> forall i :: 0 <= i < |ls| ==> NoDoubleSpace(ls[i])
  {
    if |ls| > 1 {
      JoinNoDoubleSpace(ls[1..], sep);
      NoDoubleSpaceAround(ls[0], sep, Join(ls[1..], sep));
      forall i | 0 <= i < |ls| - 1 ensures ls[1..][i] == ls[i + 1] { }
    }
  }

  lemma NoDoubleSpaceInfix(s: string, i: nat, j: nat)
    requires i <= j <= |s| && NoDoubleSpace(s)
    ensures NoDoubleSpace(s[i..j])
  {
    var t := s[i..j];
    forall k | 0 <= k < |t| - 1 ensures !(t[k] == ' ' && t[k + 1] == ' ') { assert t[k] == s[i + k] && t[k + 1] == s[i + k + 1]; }
  }

  /** Every whitespace character other than a newline has a character other than a newline on
      both sides: no line starts or ends with whitespace. */
  predicate LinesTrimmed(s: string) {
    forall k :: 0 <= k < |s| && IsSpace(s[k]) && s[k] != '\n' ==>
      0 < k < |s| - 1 && s[k - 1] != '\n' && s[k + 1] != '\n'
  }

  lemma LinesTrimmedAround(a: string, b: string)
    requires LinesTrimmed(a) && LinesTrimmed(b)
    ensures LinesTrimmed(a + "\n" + b)
  {
    var s := a + "\n" + b;
    forall k | 0 <= k < |s| && IsSpace(s[k]) && s[k] != '\n'
      ensures 0 < k < |s| - 1 && s[k - 1] != '\n' && s[k + 1] != '\n'
    {
      if k < |a| {
        assert s[k] == a[k];
        assert s[k - 1] == a[k - 1] && s[k + 1] == a[k + 1];
      } else {
        assert s[k] == b[k - |a| - 1];
        assert s[k - 1] == b[k - |a| - 2] && s[k + 1] == b[k - |a|];
      }
    }
  }

  lemma {:induction false} JoinLinesTrimmed(ls: seq<string>)
    requires forall i :: 0 <= i < |ls| ==> LinesTrimmed(ls[i])
    ensures LinesTrimmed(Join(ls, '\n'))
  {
    if |ls| > 1 {
      assert forall i :: 0 <= i < |ls| - 1 ==> ls[1..][i] == ls[i + 1];
      JoinLinesTrimmed(ls[1..]);
      LinesTrimmedAround(ls[0], Join(ls[1..], '\n'));
    }
  }

  /** A stripped infix of a text whose lines are trimmed still has trimmed lines. */
  lemma StripKeepsLinesTrimmed(s: string)
    ensures '\n' !in s || LinesTrimmed(s) ==> LinesTrimmed(Strip(s))
  {
    StripIsInfix(s);
    var r := Strip(s);
    if '\n' !in s || LinesTrimmed(s) {
      InfixLinesTrimmed(s, |s| - |StripLeft(s)|, r);
    }
  }

  /** An infix that neither starts nor ends with whitespace keeps its lines trimmed. */
  lemma InfixLinesTrimmed(s: string, left: nat, r: string)
    requires left + |r| <= |s| && r == s[left..left + |r|]
    requires |r| > 0 ==> !IsSpace(r[0]) && !IsSpace(r[|r| - 1])
    requires '\n' !in s || LinesTrimmed(s)
    ensures LinesTrimmed(r)
  {
    forall k | 0 <= k < |r| && IsSpace(r[k]) && r[k] != '\n'
      ensures 0 < k < |r| - 1 && r[k - 1] != '\n' && r[k + 1] != '\n'
    {
      assert r[k] == s[left + k];
      assert r[k - 1] == s[left + k - 1] && r[k + 1] == s[left + k + 1];
    }
  }

  lemma {:induction false} CharsOfStripLines(s: string, c: char)
    requires c != '\n' && c in StripLines(s)
    ensures c in s
  {
    var ls := Split(s, '\n');
    JoinChars(StripEach(ls), '\n', c);
    var i :| 0 <= i < |ls| && c in StripEach(ls)[i];
    StripRemovesOnlyEnds(ls[i]);
    JoinChars(ls, '\n', c);
    JoinSplit(s, '\n');
  }

  lemma StripLinesNoDoubleSpace(s: string)
    requires NoDoubleSpace(s)
    ensures NoDoubleSpace(StripLines(s))
  {
    var ls := Split(s, '\n');
    JoinSplit(s, '\n');
    JoinNoDoubleSpace(ls, '\n');
    forall i | 0 <= i < |ls| ensures NoDoubleSpace(StripEach(ls)[i]) {
      StripRemovesOnlyEnds(ls[i]);
      NoDoubleSpaceInfix(ls[i], |ls[i]| - |StripLeft(ls[i])|, |ls[i]| - |StripLeft(ls[i])| + |Strip(ls[i])|);
    }
    JoinNoDoubleSpace(StripEach(ls), '\n');
  }

  lemma StripLinesTrimmed(s: string)
    ensures LinesTrimmed(StripLines(s))
  {
    var ls := Split(s, '\n');
    forall i | 0 <= i < |ls| ensures LinesTrimmed(StripEach(ls)[i]) { StripKeepsLinesTrimmed(ls[i]); }
    JoinLinesTrimmed(StripEach(ls));
  }

  // ---------------------------------------------------------------- what clean_text promises

  /** The text after the newline and blank rewrites, before the per-line strip. */
  function Collapsed(text: string): string {
    CollapseNewlines(CollapseBlanks(NormalizeNewlines(text)))
  }

  lemma CollapsedChars(text: string, c: char)
    requires c in Collapsed(text)
    ensures c != '\r' && c != '\t'
  {
  }

  /** A character of the result other than a newline was in the collapsed text. */
  lemma CleanTextChars(text: string, c: char)
    requires c != '\n' && c in CleanText(text)
    ensures c in Collapsed(text)
  {
    var d := StripLines(Collapsed(text));
    StripRemovesOnlyEnds(d);
    CharsOfStripLines(Collapsed(text), c);
  }

  /** Carriage returns and tabs are gone. */
  lemma CleanTextNoCrOrTab(text: string)
    ensures '\r' !in CleanText(text) && '\t' !in CleanText(text)
  {
    if '\r' in CleanText(text) { CleanTextChars(text, '\r'); CollapsedChars(text, '\r'); }
    if '\t' in CleanText(text) { CleanTextChars(text, '\t'); CollapsedChars(text, '\t'); }
  }

  /** No two spaces in a row are left. */
  lemma CleanTextNoDoubleSpace(text: string)
    ensures NoDoubleSpace(CleanText(text))
  {
    var b := CollapseBlanks(NormalizeNewlines(text));
    CollapseNewlinesNoDoubleSpace(b);
    StripLinesNoDoubleSpace(Collapsed(text));
    StripNoDoubleSpace(StripLines(Collapsed(text)));
  }

  lemma StripNoDoubleSpace(d: string)
    requires NoDoubleSpace(d)
    ensures NoDoubleSpace(Strip(d))
  {
    var l := StripLeft(d);
    NoDoubleSpaceInfix(d, |d| - |l|, |d|);
    NoDoubleSpaceInfix(l, 0, |StripRight(l)|);
  }

  /** No line of the result starts or ends with whitespace, and neither does the result. */
  lemma CleanTextLinesTrimmed(text: string)
    ensures LinesTrimmed(CleanText(text))
    ensures var r := CleanText(text); |r| > 0 ==> !IsSpace(r[0]) && !IsSpace(r[|r| - 1])
  {
    var d := StripLines(CollapseNewlines(CollapseBlanks(NormalizeNewlines(text))));
    StripLinesTrimmed(CollapseNewlines(CollapseBlanks(NormalizeNewlines(text))));
    StripKeepsLinesTrimmed(d);
  }

  /** Only whitespace is removed or replaced: the non-whitespace characters are kept in order. */
  lemma CleanTextKeepsText(text: string)
    ensures NonWs(CleanText(text)) == NonWs(text)
  {
    var a0 := ReplaceCrLf(text);
    var a := NormalizeNewlines(text);
    var b := CollapseBlanks(a);
    var c := CollapseNewlines(b);
    ReplaceCrLfKeepsText(text);
    ReplaceCrKeepsText(a0);
    CollapseBlanksKeepsText(a);
    CollapseNewlinesKeepsText(b);
    StripLinesKeepsText(c);
    StripKeepsText(StripLines(c));
  }

  // ---------------------------------------------------------------- detect_language

  /** The marker words per language, in the table's order. */
  type MarkerTable = seq<(string, seq<string>)>

  /** The table as it was evidently meant: the accented words spelled with their accents. */
  const LanguageMarkers: MarkerTable := [
    ("en", ["the", "and", "is", "are", "shall", "must", "tax", "rate", "income"]),
    ("pt", ["o", "a", "de", "da", "do", "imposto", "taxa", "alíquota", "renda"]),
    ("es", ["el", "la", "de", "del", "impuesto", "tasa", "renta", "gravamen"]),
    ("de", ["der", "die", "das", "und", "steuer", "satz", "einkommen", "betrag"]),
    ("fr", ["le", "la", "de", "du", "impôt", "taux", "revenu", "taxe"]),
    ("it", ["il", "la", "di", "del", "imposta", "tasso", "reddito", "aliquota"])]

  /** The table as written: two accented words are stored as the Latin-1 reading of their
      UTF-8 bytes. */
  const LanguageMarkersAsWritten: MarkerTable := [
    ("en", ["the", "and", "is", "are", "shall", "must", "tax", "rate", "income"]),
    ("pt", ["o", "a", "de", "da", "do", "imposto", "taxa", "alÃ­quota", "renda"]),
    ("es", ["el", "la", "de", "del", "impuesto", "tasa", "renta", "gravamen"]),
    ("de", ["der", "die", "das", "und", "steuer", "satz", "einkommen", "betrag"]),
    ("fr", ["le", "la", "de", "du", "impÃ´t", "taux", "revenu", "taxe"]),
    ("it", ["il", "la", "di", "del", "imposta", "tasso", "reddito", "aliquota"])]

  /** How many of the markers are among the words. */
  function Score(markers: seq<string>, words: seq<string>): (n: nat)
    ensures n <= |markers|
    ensures n == 0 <==> forall i :: 0 <= i < |markers| ==> markers[i] !in words
  {
    if |markers| == 0 then 0 else (if markers[0] in words then 1 else 0) + Score(markers[1..], words)
  }

  function Scores(table: MarkerTable, words: seq<string>): (sc: seq<nat>)
    ensures |sc| == |table| && forall i :: 0 <= i < |table| ==> sc[i] == Score(table[i].1, words)
  {
    seq(|table|, i requires 0 <= i < |table| => Score(table[i].1, words))
  }

  /** The position `max` picks: the first of the highest scores. */
  function FirstMax(sc: seq<nat>): (b: nat)
    requires |sc| > 0
    ensures b < |sc| && (forall j :: 0 <= j < |sc| ==> sc[j] <= sc[b]) && (forall j :: 0 <= j < b ==> sc[j] < sc[b])
  {
    if |sc| == 1 then 0
    else
      var b := FirstMax(sc[..|sc| - 1]);
      if sc[|sc| - 1] > sc[b] then |sc| - 1 else b
  }

  /** The words of the lower-cased text, as `split()` gives them. */
  function WordsOf(text: string): seq<string> { Words(Lower(text)) }

  function LanguageWith(table: MarkerTable, text: string): string
    requires |table| > 0
  {
    var sc := Scores(table, WordsOf(text));
    var b := FirstMax(sc);
    if sc[b] > 0 then table[b].0 else "en"
  }

  function DetectLanguageAsWritten(text: string): string { LanguageWith(LanguageMarkersAsWritten, text) }

  function Language(text: string): string { LanguageWith(LanguageMarkers, text) }

  /** `detect_language`, for a given marker table: the score loop filling `scores` in table
      order, then `max`, which keeps the first of equal scores. */
  method DetectLanguage(table: MarkerTable, text: string) returns (lang: string)
    requires |table| > 0
    ensures lang == LanguageWith(table, text)
  {
    var scores := ScoreLanguages(table, WordsOf(text));
    var best := MaxScore(scores);
    lang := if scores[best] > 0 then table[best].0 else "en";
  }

  /** The loop filling `scores`, one language at a time in table order. */
  method ScoreLanguages(table: MarkerTable, words: seq<string>) returns (scores: seq<nat>)
    ensures scores == Scores(table, words)
  {
    scores := [];
    for i := 0 to |table|
      invariant scores == Scores(table[..i], words)
    {
      scores := scores + [Score(table[i].1, words)];
    }
    assert table[..|table|] == table;
  }

  /** `max(scores, key=scores.get)`: a later score replaces the best only when it is higher. */
  method MaxScore(scores: seq<nat>) returns (best: nat)
    requires |scores| > 0
    ensures best == FirstMax(scores)
  {
    best := 0;
    for i := 1 to |scores|
      invariant best == FirstMax(scores[..i])
    {
      assert scores[..i + 1][..i] == scores[..i];
      if scores[i] > scores[best] {
        best := i;
      }
    }
    assert scores[..|scores|] == scores;
  }

  /** The languages the marker tables name. */
  const KnownLanguages: set<string> := {"en", "pt", "es", "de", "fr", "it"}

  /** The answer is "en" or one of the table's languages. */
  lemma LanguageFromTable(table: MarkerTable, text: string, langs: set<string>)
    requires |table| > 0 && "en" in langs
    requires forall i :: 0 <= i < |table| ==> table[i].0 in langs
    ensures LanguageWith(table, text) in langs
  {
    var b := FirstMax(Scores(table, WordsOf(text)));
    assert table[b].0 in langs;
  }

  /** Both tables name the six languages, English first. */
  lemma TablesNameKnownLanguages()
    ensures forall i :: 0 <= i < |LanguageMarkersAsWritten| ==> LanguageMarkersAsWritten[i].0 in KnownLanguages
    ensures forall i :: 0 <= i < |LanguageMarkers| ==> LanguageMarkers[i].0 in KnownLanguages
  {
  }

  /** With the table as written and with the corrected one, the answer is one of the six
      languages. */
  lemma LanguageIsKnown(text: string)
    ensures DetectLanguageAsWritten(text) in KnownLanguages
    ensures Language(text) in KnownLanguages
  {
    TablesNameKnownLanguages();
    LanguageFromTable(LanguageMarkersAsWritten, text, KnownLanguages);
    LanguageFromTable(LanguageMarkers, text, KnownLanguages);
  }

  /** With no marker word among the text's words the answer is English. */
  lemma NoMarkerWith(table: MarkerTable, text: string)
    requires |table| > 0
    requires forall i, m :: 0 <= i < |table| && m in table[i].1 ==> m !in WordsOf(text)
    ensures LanguageWith(table, text) == "en"
  {
    var sc := Scores(table, WordsOf(text));
    var b := FirstMax(sc);
    assert Score(table[b].1, WordsOf(text)) == 0;
  }

  /** English wins exactly when no language scores more than it, ties and all-zero included. */
  lemma EnglishWins(table: MarkerTable, text: string)
    requires |table| > 0 && table[0].0 == "en"
    requires forall i :: 0 < i < |table| ==> table[i].0 != "en"
    ensures var sc := Scores(table, WordsOf(text));
      LanguageWith(table, text) == "en" <==> forall j :: 0 <= j < |table| ==> sc[j] <= sc[0]
  {
  }

  /** Any other language wins exactly when it scores above zero, above every language before it
      in the table, and at least as much as every language after it. */
  lemma OtherLanguageWins(table: MarkerTable, text: string, k: nat)
    requires 0 < k < |table| && table[0].0 == "en"
    requires forall i, j :: 0 <= i < j < |table| ==> table[i].0 != table[j].0
    ensures var sc := Scores(table, WordsOf(text));
      LanguageWith(table, text) == table[k].0 <==>
        sc[k] > 0 && (forall j :: 0 <= j < k ==> sc[j] < sc[k]) && (forall j :: k < j < |table| ==> sc[j] <= sc[k])
  {
  }

  /** No lower-cased character is U+00C3. */
  lemma LowerNeverC3(s: string)
    ensures 'Ã' !in Lower(s)
  {
  }

  /** As written, the two misspelled markers can never match: lower-casing never produces
      the U+00C3 they contain. */
  lemma MisspelledMarkersNeverMatch(text: string)
    ensures "alÃ­quota" !in WordsOf(text) && "impÃ´t" !in WordsOf(text)
  {
    var ws := WordsOf(text);
    LowerNeverC3(text);
    forall i | 0 <= i < |ws| ensures 'Ã' !in ws[i] {
      if 'Ã' in ws[i] { WordsChars(Lower(text), i, 'Ã'); }
    }
  }

  /** An accented marker is in its own row of the corrected table only, and in no row of the
      table as written. */
  lemma MisspelledAbsent(w: string, k: nat)
    requires (w == "alíquota" && k == 1) || (w == "impôt" && k == 4)
    ensures forall i :: 0 <= i < |LanguageMarkersAsWritten| ==> w !in LanguageMarkersAsWritten[i].1
    ensures k < |LanguageMarkers| && w in LanguageMarkers[k].1
    ensures forall i :: 0 <= i < |LanguageMarkers| && i != k ==> w !in LanguageMarkers[i].1
  {
    if w == "alíquota" {
      assert LanguageMarkers[1].1[7] == w;
    } else {
      assert LanguageMarkers[4].1[4] == w;
    }
  }

  lemma PlainWord(w: string)
    requires w == "alíquota" || w == "impôt"
    ensures WordsOf(w) == [w]
  {
    assert Lower(w) == w by {
      forall i | 0 <= i < |w| ensures LowerChar(w[i]) == w[i] { }
    }
    WordsOfOneWord(w);
  }

  /** When exactly one row scores, its language is the answer. */
  lemma OnlyScoringRowWins(table: MarkerTable, text: string, k: nat)
    requires k < |table|
    requires var sc := Scores(table, WordsOf(text)); sc[k] > 0 && forall j :: 0 <= j < |table| && j != k ==> sc[j] == 0
    ensures LanguageWith(table, text) == table[k].0
  {
  }

  /** As written, the Portuguese word "alíquota" and the French word "impôt", each on its own,
      are guessed as English. */
  lemma AccentedWordsMissedAsWritten(w: string)
    requires w == "alíquota" || w == "impôt"
    ensures DetectLanguageAsWritten(w) == "en"
  {
    PlainWord(w);
    MisspelledAbsent(w, if w == "alíquota" then 1 else 4);
    NoMarkerWith(LanguageMarkersAsWritten, w);
  }

  /** A one-word text whose word is a marker of row k of the corrected table and of no other
      row gets that row's language. */
  lemma OneRowWord(w: string, k: nat)
    requires k < |LanguageMarkers| && WordsOf(w) == [w] && w in LanguageMarkers[k].1
    requires forall i :: 0 <= i < |LanguageMarkers| && i != k ==> w !in LanguageMarkers[i].1
    ensures Language(w) == LanguageMarkers[k].0
  {
    OnlyScoringRowWins(LanguageMarkers, w, k);
  }

  /** An accented marker of the corrected table, on its own: one word, in row k only. */
  lemma AccentedMarkerRow(w: string, k: nat)
    requires (w == "alíquota" && k == 1) || (w == "impôt" && k == 4)
    ensures k < |LanguageMarkers| && WordsOf(w) == [w] && w in LanguageMarkers[k].1
    ensures forall i :: 0 <= i < |LanguageMarkers| && i != k ==> w !in LanguageMarkers[i].1
  {
    PlainWord(w);
    MisspelledAbsent(w, k);
  }

  /** With the marker spelled with its accent, "alíquota" on its own is guessed as Portuguese. */
  lemma PortugueseAccentDetected(w: string)
    requires w == "alíquota"
    ensures Language(w) == "pt"
  {
    AccentedMarkerRow(w, 1);
    OneRowWord(w, 1);
    RowLanguages();
  }

  /** The languages of the Portuguese and French rows. */
  lemma RowLanguages()
    ensures LanguageMarkers[1].0 == "pt" && LanguageMarkers[4].0 == "fr"
  {
  }

  /** With the marker spelled with its accent, "impôt" on its own is guessed as French. */
  lemma FrenchAccentDetected(w: string)
    requires w == "impôt"
    ensures Language(w) == "fr"
  {
    AccentedMarkerRow(w, 4);
    OneRowWord(w, 4);
    RowLanguages();
  }

  lemma {:induction false} WordsOfOneWord(w: string)
    requires |w| > 0 && forall i :: 0 <= i < |w| ==> !IsSpace(w[i])
    ensures Words(w) == [w]
  {
    if |w| > 1 {
      WordsOfOneWord(w[1..]);
      assert !IsSpace(w[1]);
      assert [w[0]] + w[1..] == w;
    } else {
      assert Words(w[1..]) == [];
      assert [w[0]] == w;
    }
  }

  // ---------------------------------------------------------------- parse: extension and metadata

  const SupportedExtensions: set<string> := {".pdf", ".txt", ".docx", ".doc"}

  /** The final path component, as `PurePosixPath(filename).name`: empty and `.` parts are not
      components. */
  function LastComponent(parts: seq<string>): string {
    if |parts| == 0 then ""
    else if parts[|parts| - 1] != "" && parts[|parts| - 1] != "." then parts[|parts| - 1]
    else LastComponent(parts[..|parts| - 1])
  }

  /** `Path(filename).suffix`: from the last dot of the name, unless that dot starts or ends it. */
  function Suffix(filename: string): (suffix: string)
    ensures suffix == "" || (suffix[0] == '.' && |suffix| >= 2)
    ensures var name := LastComponent(Split(filename, '/'));
      suffix != "" ==>
        |suffix| < |name| && suffix == name[|name| - |suffix|..] &&
        forall j :: 1 <= j < |suffix| ==> suffix[j] != '.'
    ensures var name := LastComponent(Split(filename, '/'));
      suffix == "" <==>
        (|name| > 0 && name[|name| - 1] == '.') || forall j :: 0 < j < |name| - 1 ==> name[j] != '.'
  {
    var name := LastComponent(Split(filename, '/'));
    match LastIndexOf(name, '.')
    case Some(i) => if 0 < i < |name| - 1 then name[i..] else ""
    case None => ""
  }

  function Extension(filename: string): string { Lower(Suffix(filename)) }

  datatype MetaValue = MetaText(text: string) | MetaInt(value: int) | MetaNone

  type Metadata = map<string, MetaValue>

  /** What a decoder returns: the text and its own metadata entries. */
  datatype Decoded = Decoded(text: string, metadata: Metadata)

  /** The PDF, plain-text and Word decoders. */
  datatype Decoders = Decoders(
    pdf: seq<bv8> -> Result<Decoded, string>,
    plain: seq<bv8> -> Result<Decoded, string>,
    docx: seq<bv8> -> Result<Decoded, string>)

  datatype ParseError = UnsupportedFileType(extension: string) | DecodingFailed(message: string)

  function BaseMetadata(filename: string, extension: string, size: nat): Metadata {
    map["filename" := MetaText(filename), "extension" := MetaText(extension), "size_bytes" := MetaInt(size),
        "pages" := MetaNone, "extraction_method" := MetaNone]
  }

  /** The decoder `parse` hands the content to, by extension. */
  function DecoderFor(decoders: Decoders, extension: string): seq<bv8> -> Result<Decoded, string> {
    if extension == ".pdf" then decoders.pdf
    else if extension == ".txt" then decoders.plain
    else decoders.docx
  }

  /** `parse`: reject an unsupported extension before decoding; otherwise decode, and the
      decoder's metadata entries update the base entries. */
  function Parse(content: seq<bv8>, filename: string, decoders: Decoders): Result<Decoded, ParseError> {
    var extension := Extension(filename);
    if extension !in SupportedExtensions then Failure(UnsupportedFileType(extension))
    else
      match DecoderFor(decoders, extension)(content)
      case Failure(m) => Failure(DecodingFailed(m))
      case Success(d) => Success(Decoded(d.text, BaseMetadata(filename, extension, |content|) + d.metadata))
  }

  method ParseDocument(content: seq<bv8>, filename: string, decoders: Decoders) returns (r: Result<Decoded, ParseError>)
    ensures r == Parse(content, filename, decoders)
  {
    var extension := Extension(filename);
    if extension !in SupportedExtensions {
      return Failure(UnsupportedFileType(extension));
    }
    var metadata := BaseMetadata(filename, extension, |content|);
    var decoded := DecoderFor(decoders, extension)(content);
    if decoded.Failure? {
      return Failure(DecodingFailed(decoded.error));
    }
    metadata := metadata + decoded.value.metadata;
    r := Success(Decoded(decoded.value.text, metadata));
  }

  /** An unsupported extension is refused whatever the decoders would do, and only then is
      the file type refused. */
  lemma UnsupportedBeforeDecoding(content: seq<bv8>, filename: string, d1: Decoders, d2: Decoders)
    ensures Extension(filename) !in SupportedExtensions ==>
      Parse(content, filename, d1) == Parse(content, filename, d2) == Failure(UnsupportedFileType(Extension(filename)))
    ensures (Parse(content, filename, d1).Failure? && Parse(content, filename, d1).error.UnsupportedFileType?) <==>
      Extension(filename) !in SupportedExtensions
  {
  }

  /** On success the metadata records the filename, the lower-cased extension and the byte
      size, unless the decoder overrides them, and holds exactly the base keys and the
      decoder's keys, the decoder's value winning. */
  lemma MetadataRecordsFile(content: seq<bv8>, filename: string, decoders: Decoders)
    requires Parse(content, filename, decoders).Success?
    ensures var ext := Extension(filename); var d := DecoderFor(decoders, ext)(content).value;
      var m := Parse(content, filename, decoders).value.metadata;
      ext in SupportedExtensions &&
      m.Keys == {"filename", "extension", "size_bytes", "pages", "extraction_method"} + d.metadata.Keys &&
      (forall k :: k in d.metadata ==> m[k] == d.metadata[k]) &&
      ("filename" !in d.metadata ==> m["filename"] == MetaText(filename)) &&
      ("extension" !in d.metadata ==> m["extension"] == MetaText(ext)) &&
      ("size_bytes" !in d.metadata ==> m["size_bytes"] == MetaInt(|content|))
  {
  }

  lemma {:induction false} SplitWithoutSeparator(s: string, sep: char)
    requires sep !in s
    ensures Split(s, sep) == [s]
  {
    if |s| > 0 {
      SplitWithoutSeparator(s[1..], sep);
      assert [s[0]] + s[1..] == s;
    }
  }

  /** A bare file name is its own last component. */
  lemma NameOfBareFile(filename: string)
    requires '/' !in filename && filename != "" && filename != "."
    ensures LastComponent(Split(filename, '/')) == filename
  {
    SplitWithoutSeparator(filename, '/');
  }

  lemma LastIndexAt(s: string, c: char, i: nat)
    requires i < |s| && s[i] == c && forall j :: i < j < |s| ==> s[j] != c
    ensures LastIndexOf(s, c) == Some(i)
  {
  }

  /** The extension check ignores case. */
  lemma UpperCaseExtensionAccepted(f: string)
    requires f == "report.PDF"
    ensures Extension(f) == ".pdf"
  {
    NameOfBareFile(f);
    LastIndexAt(f, '.', 6);
    assert f[6..] == ".PDF";
    assert Lower(".PDF") == ".pdf";
  }

  /** Only the last suffix counts. */
  lemma LastSuffixOnly(f: string)
    requires f == "rates.tar.gz"
    ensures Extension(f) == ".gz"
  {
    NameOfBareFile(f);
    LastIndexAt(f, '.', 9);
    assert f[9..] == ".gz";
    assert Lower(".gz") == ".gz";
  }

  /** A name that is only a dot and an extension has no suffix, so it is refused. */
  lemma DotFileRefused(content: seq<bv8>, decoders: Decoders)
    ensures Extension(".txt") == ""
    ensures Parse(content, ".txt", decoders) == Failure(UnsupportedFileType(""))
  {
    NameOfBareFile(".txt");
    LastIndexAt(".txt", '.', 0);
  }
}
