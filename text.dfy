/**
 * The string operations the analyzers rely on, with Python's meaning:
 * `str.isspace`, `\w`, `str.lower`, `str.strip`, `str.split(sep)`, `str.count`,
 * `str.startswith`, and the ordering `sorted` uses on strings.
 * `\w`, `str.isdigit` and `str.lower` are taken over ASCII only; whitespace
 * is every character `str.isspace` accepts.
 */
module Text {

  /** `c.isspace()`, which is also what `\s` and `str.strip()` treat as whitespace. */
  predicate IsSpace(c: char) {
    ('\t' <= c <= '\r') || ('\U{001C}' <= c <= ' ') || c == '\U{0085}' || c == '\U{00A0}'
    || c == '\U{1680}' || ('\U{2000}' <= c <= '\U{200A}') || c == '\U{2028}' || c == '\U{2029}'
    || c == '\U{202F}' || c == '\U{205F}' || c == '\U{3000}'
  }

  /** A character of the regular-expression class `\w` (ASCII letters, digits, underscore). */
  predicate IsWordChar(c: char) {
    ('a' <= c <= 'z') || ('A' <= c <= 'Z') || ('0' <= c <= '9') || c == '_'
  }

  /** An ASCII decimal digit. */
  predicate IsDigit(c: char) {
    '0' <= c <= '9'
  }

  /** `s.isdigit()`: non-empty and made of digits only. */
  predicate IsDigits(s: string) {
    |s| > 0 && forall k :: 0 <= k < |s| ==> IsDigit(s[k])
  }

  predicate AllSpace(s: string) {
    forall k :: 0 <= k < |s| ==> IsSpace(s[k])
  }

  predicate AllWord(s: string) {
    forall k :: 0 <= k < |s| ==> IsWordChar(s[k])
  }

  /** `s.startswith(prefix)` */
  predicate StartsWith(s: string, prefix: string) {
    |prefix| <= |s| && s[..|prefix|] == prefix
  }

  // ---------------------------------------------------------------------
  // Case
  // ---------------------------------------------------------------------

  function LowerChar(c: char): (r: char)
    ensures !('A' <= r <= 'Z')
    ensures !('A' <= c <= 'Z') ==> r == c
  {
    if 'A' <= c <= 'Z' then (c as int + 32) as char else c
  }

  /** `s.lower()` for ASCII letters; every other character is kept. */
  function Lower(s: string): (r: string)
    ensures |r| == |s|
    ensures forall k :: 0 <= k < |s| ==> r[k] == LowerChar(s[k])
  {
    seq(|s|, k requires 0 <= k < |s| => LowerChar(s[k]))
  }

  /** `text[at:].startswith(lit)` under `re.IGNORECASE` (ASCII case folding). */
  predicate MatchesIgnoringCase(text: string, at: nat, lit: string) {
    at + |lit| <= |text| && forall k :: 0 <= k < |lit| ==> LowerChar(text[at + k]) == LowerChar(lit[k])
  }

  /** `text[at:].startswith(lit)`, case-sensitive. */
  predicate MatchesAt(text: string, at: nat, lit: string) {
    at + |lit| <= |text| && text[at..at + |lit|] == lit
  }

  // ---------------------------------------------------------------------
  // Runs of characters (greedy `\w+`, `\s*`)
  // ---------------------------------------------------------------------

  /** The end of the longest run of word characters starting at `from`. */
  function WordEnd(text: string, from: nat): (e: nat)
    requires from <= |text|
    ensures from <= e <= |text|
    ensures AllWord(text[from..e])
    ensures e < |text| ==> !IsWordChar(text[e])
    decreases |text| - from
  {
    if from < |text| && IsWordChar(text[from]) then WordEnd(text, from + 1) else from
  }

  /** The end of the longest run of whitespace starting at `from`. */
  function SpaceEnd(text: string, from: nat): (e: nat)
    requires from <= |text|
    ensures from <= e <= |text|
    ensures AllSpace(text[from..e])
    ensures e < |text| ==> !IsSpace(text[e])
    decreases |text| - from
  {
    if from < |text| && IsSpace(text[from]) then SpaceEnd(text, from + 1) else from
  }

  /** The start of the longest run of whitespace ending at `upTo`. */
  function SpaceStartBefore(text: string, upTo: nat): (b: nat)
    requires upTo <= |text|
    ensures b <= upTo
    ensures AllSpace(text[b..upTo])
    ensures b > 0 ==> !IsSpace(text[b - 1])
  {
    if upTo > 0 && IsSpace(text[upTo - 1]) then
      var b := SpaceStartBefore(text, upTo - 1);
      assert text[b..upTo] == text[b..upTo - 1] + [text[upTo - 1]];
      b
    else
      upTo
  }

  // ---------------------------------------------------------------------
  // strip, count, split
  // ---------------------------------------------------------------------

  /** `s.strip()`: `s` without its leading and trailing whitespace. */
  function Strip(s: string): (r: string)
    ensures |r| <= |s|
    ensures r == [] <==> AllSpace(s)
    ensures r == [] || (!IsSpace(r[0]) && !IsSpace(r[|r| - 1]))
  {
    var a := SpaceEnd(s, 0);
    if a == |s| then
      assert s[0..] == s;
      []
    else
      var b := SpaceStartBefore(s, |s|);
      assert !IsSpace(s[a]);
      s[a..b]
  }

  /** What `strip` removes is whitespace at either end. */
  lemma StripIsSlice(s: string)
    ensures exists i :: 0 <= i <= |s| - |Strip(s)| && s[i..i + |Strip(s)|] == Strip(s)
                        && AllSpace(s[..i]) && AllSpace(s[i + |Strip(s)|..])
  {
    var a := SpaceEnd(s, 0);
    if a == |s| {
      assert s[..0] == [] && s[0..] == s;
    } else {
      var b := SpaceStartBefore(s, |s|);
      assert !IsSpace(s[a]);
      var r := s[a..b];
      assert s[a..a + |r|] == r;
      assert s[..a] == s[0..a];
      assert s[a + |r|..] == s[b..|s|];
    }
  }

  /** `s.count(c)` */
  function Count(s: string, c: char): (n: nat)
    ensures n <= |s|
  {
    if |s| == 0 then 0 else (if s[0] == c then 1 else 0) + Count(s[1..], c)
  }

  /** `s.split(sep)`: the pieces between the separators, always at least one. */
  function Split(s: string, sep: char): (pieces: seq<string>)
    ensures |pieces| >= 1
  {
    if |s| == 0 then [""]
    else
      var rest := Split(s[1..], sep);
      if s[0] == sep then [""] + rest else [[s[0]] + rest[0]] + rest[1..]
  }

  /** `sep.join(pieces)` */
  function Join(pieces: seq<string>, sep: char): string
    requires |pieces| >= 1
  {
    if |pieces| == 1 then pieces[0] else pieces[0] + [sep] + Join(pieces[1..], sep)
  }

  /** `s.split(sep)` has one more piece than `s` has separators. */
  lemma {:induction false} SplitLength(s: string, sep: char)
    ensures |Split(s, sep)| == Count(s, sep) + 1
  {
    if |s| > 0 {
      SplitLength(s[1..], sep);
    }
  }

  /** No piece of `s.split(sep)` contains `sep`. */
  lemma {:induction false} SplitPiecesFree(s: string, sep: char)
    ensures forall i :: 0 <= i < |Split(s, sep)| ==> sep !in Split(s, sep)[i]
  {
    if |s| > 0 {
      SplitPiecesFree(s[1..], sep);
    }
  }

  /** Splitting and joining on the same separator gives the text back. */
  lemma {:induction false} JoinSplit(s: string, sep: char)
    ensures Join(Split(s, sep), sep) == s
  {
    if |s| > 0 {
      var rest := Split(s[1..], sep);
      JoinSplit(s[1..], sep);
      if s[0] == sep {
        assert Split(s, sep)[1..] == rest;
      } else {
        var pieces := Split(s, sep);
        if |rest| == 1 {
          assert pieces == [[s[0]] + rest[0]];
        } else {
          assert pieces[1..] == rest[1..];
          assert Join(rest, sep) == rest[0] + [sep] + Join(rest[1..], sep);
        }
      }
    }
  }

  /** A prefix never holds more separators than the whole text. */
  lemma {:induction false} CountPrefix(s: string, c: char, p: nat)
    requires p <= |s|
    ensures Count(s[..p], c) <= Count(s, c)
  {
    if p > 0 {
      assert s[..p][1..] == s[1..][..p - 1];
      CountPrefix(s[1..], c, p - 1);
    }
  }

  /** The 1-based number of the line on which position `p` lies: one more than the newlines before it. */
  function LineNumber(text: string, p: nat): (n: nat)
    requires p <= |text|
    ensures 1 <= n <= |Split(text, '\n')|
  {
    CountPrefix(text, '\n', p);
    SplitLength(text, '\n');
    Count(text[..p], '\n') + 1
  }

  /** The text after the first `sep`: `s.split(sep, 1)[1]`. */
  function AfterFirst(s: string, sep: char): (r: string)
    requires sep in s
    ensures |r| < |s|
    ensures exists i :: 0 <= i < |s| && s[i] == sep && sep !in s[..i] && r == s[i + 1..]
  {
    if s[0] == sep then
      assert s[..0] == [];
      s[1..]
    else
      var r := AfterFirst(s[1..], sep);
      ghost var i :| 0 <= i < |s[1..]| && s[1..][i] == sep && sep !in s[1..][..i] && r == s[1..][i + 1..];
      assert s[..i + 1] == [s[0]] + s[1..][..i];
      assert s[i + 1 + 1..] == s[1..][i + 1..];
      r
  }

  /** `AfterFirst` cuts at the first `sep`, wherever that is. */
  lemma AfterFirstAt(s: string, sep: char, i: nat)
    requires i < |s| && s[i] == sep && sep !in s[..i]
    ensures AfterFirst(s, sep) == s[i + 1..]
  {
    var j :| 0 <= j < |s| && s[j] == sep && sep !in s[..j] && AfterFirst(s, sep) == s[j + 1..];
  }

  /** The text before the first `sep`, or all of `s`: `s.split(sep, 1)[0]`. */
  function BeforeFirst(s: string, sep: char): (r: string)
    ensures |r| <= |s| && r == s[..|r|]
    ensures sep !in r
    ensures |r| == |s| || s[|r|] == sep
  {
    if s == [] then []
    else if s[0] == sep then []
    else
      var rest := BeforeFirst(s[1..], sep);
      assert [s[0]] + rest == s[..|rest| + 1];
      [s[0]] + rest
  }

  /** `BeforeFirst` is the one prefix of `s` free of `sep` that ends at a `sep` or at the end. */
  lemma {:induction false} BeforeFirstUnique(s: string, sep: char, p: string)
    requires |p| <= |s| && p == s[..|p|]
    requires sep !in p
    requires |p| == |s| || s[|p|] == sep
    ensures BeforeFirst(s, sep) == p
  {
    if s != [] {
      assert |p| > 0 ==> p[0] == s[0] && p[0] in p;
      if s[0] != sep {
        var tail := p[1..];
        assert forall x | x in tail :: x in p;
        assert tail == s[1..][..|tail|];
        BeforeFirstUnique(s[1..], sep, tail);
        assert p == [s[0]] + tail;
      }
    }
  }

  /** `s.split(sep, 1)[0]` is the first piece of the full split. */
  lemma {:induction false} BeforeFirstIsSplitHead(s: string, sep: char)
    ensures BeforeFirst(s, sep) == Split(s, sep)[0]
  {
    if s != [] && s[0] != sep {
      BeforeFirstIsSplitHead(s[1..], sep);
    }
  }

  /** The position of the last `c` in `s`, or -1: where `s.rsplit(c, 1)` cuts. */
  function LastIndexOf(s: string, c: char): (i: int)
    ensures -1 <= i < |s|
    ensures i == -1 ==> forall k :: 0 <= k < |s| ==> s[k] != c
    ensures i >= 0 ==> s[i] == c && forall k :: i < k < |s| ==> s[k] != c
  {
    if s == [] then -1
    else if s[|s| - 1] == c then |s| - 1
    else LastIndexOf(s[..|s| - 1], c)
  }

  // ---------------------------------------------------------------------
  // Decimal numerals: `str(n)` and `int(s)`
  // ---------------------------------------------------------------------

  function DigitChar(d: nat): (c: char)
    requires d < 10
    ensures IsDigit(c)
  {
    ('0' as int + d) as char
  }

  function DigitValue(c: char): (d: nat)
    requires IsDigit(c)
    ensures d < 10
  {
    c as int - '0' as int
  }

  /** `str(n)` for a natural number: its decimal digits, most significant first. */
  function NatToString(n: nat): (r: string)
    ensures IsDigits(r)
    decreases n
  {
    if n < 10 then [DigitChar(n)] else NatToString(n / 10) + [DigitChar(n % 10)]
  }

  /** `str(n)` for any integer: a `-` before the digits of a negative one. */
  function IntToString(n: int): string
  {
    if n >= 0 then NatToString(n) else "-" + NatToString(-n)
  }

  /** `int(s)` for a run of decimal digits (the empty run reads as 0). */
  function ParseNat(s: string): nat
    requires forall k :: 0 <= k < |s| ==> IsDigit(s[k])
  {
    if s == [] then 0 else ParseNat(s[..|s| - 1]) * 10 + DigitValue(s[|s| - 1])
  }

  /** Reading back the numeral of `n` gives `n`. */
  lemma {:induction false} ParseNatToString(n: nat)
    ensures ParseNat(NatToString(n)) == n
    decreases n
  {
    var s := NatToString(n);
    if n < 10 {
      assert s[..0] == [];
    } else {
      ParseNatToString(n / 10);
      assert s[..|s| - 1] == NatToString(n / 10);
    }
  }

  /** `sep.join(pieces)` begins with the first piece. */
  lemma {:induction false} JoinStartsWith(pieces: seq<string>, sep: char)
    requires |pieces| >= 1
    ensures StartsWith(Join(pieces, sep), pieces[0])
  {
    var j := Join(pieces, sep);
    if |pieces| > 1 {
      assert j == pieces[0] + ([sep] + Join(pieces[1..], sep));
    }
  }

  /** A text without the separator splits into itself alone. */
  lemma {:induction false} SplitFree(a: string, sep: char)
    requires sep !in a
    ensures Split(a, sep) == [a]
  {
    if |a| > 0 {
      SplitFree(a[1..], sep);
      assert [a[0]] + a[1..] == a;
    }
  }

  /** A separator-free piece followed by a separator splits off as the first piece. */
  lemma {:induction false} SplitAfter(a: string, b: string, sep: char)
    requires sep !in a
    ensures Split(a + [sep] + b, sep) == [a] + Split(b, sep)
  {
    var s := a + [sep] + b;
    if |a| == 0 {
      assert s[1..] == b;
    } else {
      assert s[1..] == a[1..] + [sep] + b;
      SplitAfter(a[1..], b, sep);
      assert [a[0]] + a[1..] == a;
    }
  }

  /** Joining separator-free pieces and splitting again gives the pieces back. */
  lemma {:induction false} SplitJoin(pieces: seq<string>, sep: char)
    requires |pieces| >= 1
    requires forall i :: 0 <= i < |pieces| ==> sep !in pieces[i]
    ensures Split(Join(pieces, sep), sep) == pieces
    decreases |pieces|
  {
    if |pieces| == 1 {
      SplitFree(pieces[0], sep);
    } else {
      SplitJoin(pieces[1..], sep);
      SplitAfter(pieces[0], Join(pieces[1..], sep), sep);
      assert [pieces[0]] + pieces[1..] == pieces;
    }
  }

  /** A text holds `c` exactly when it counts at least one. */
  lemma {:induction false} CountIn(s: string, c: char)
    ensures Count(s, c) > 0 <==> c in s
  {
    if |s| > 0 {
      CountIn(s[1..], c);
      assert s == [s[0]] + s[1..];
    }
  }

  /**
   * Line `LineNumber(text, p)` of `text.split('\n')` is `text[k..p]` followed
   * by the rest of the text up to the next newline, where `k` is just after
   * the last newline before `p`.
   */
  ghost predicate LineFrom(text: string, p: nat, k: nat)
    requires p <= |text|
  {
    k <= p && '\n' !in text[k..p] && (k > 0 ==> text[k - 1] == '\n') &&
    Split(text, '\n')[LineNumber(text, p) - 1] == text[k..p] + BeforeFirst(text[p..], '\n')
  }

  /** The line numbered for position `p` is the line on which `p` lies. */
  lemma {:induction false} LineAt(text: string, p: nat)
    requires p <= |text|
    ensures exists k :: LineFrom(text, p, k)
    decreases p
  {
    if p == 0 {
      BeforeFirstIsSplitHead(text, '\n');
      assert text[..0] == [] && text[0..0] == [] && text[0..] == text;
      assert LineFrom(text, p, 0);
    } else {
      LineAt(text[1..], p - 1);
      var k': nat :| LineFrom(text[1..], p - 1, k');
      if text[0] == '\n' {
        LineAfterNewline(text, p, k');
      } else if LineNumber(text[1..], p - 1) == 1 {
        LineOnFirst(text, p, k');
      } else {
        LineAfterFirst(text, p, k');
      }
    }
  }

  lemma LineAfterNewline(text: string, p: nat, k': nat)
    requires 0 < p <= |text| && text[0] == '\n'
    requires LineFrom(text[1..], p - 1, k')
    ensures LineFrom(text, p, k' + 1)
  {
    var t := text[1..];
    assert text[..p][1..] == t[..p - 1];
    assert text[p..] == t[p - 1..];
    assert text[k' + 1..p] == t[k'..p - 1];
    assert LineNumber(text, p) == LineNumber(t, p - 1) + 1;
  }

  lemma LineOnFirst(text: string, p: nat, k': nat)
    requires 0 < p <= |text| && text[0] != '\n'
    requires LineFrom(text[1..], p - 1, k') && LineNumber(text[1..], p - 1) == 1
    ensures LineFrom(text, p, 0)
  {
    var t := text[1..];
    assert text[..p][1..] == t[..p - 1];
    assert text[p..] == t[p - 1..];
    if k' > 0 {
      assert t[..p - 1][k' - 1] == '\n';
      CountIn(t[..p - 1], '\n');
      assert false;
    }
    assert text[0..p] == [text[0]] + t[0..p - 1];
    assert Split(text, '\n')[0] == [text[0]] + Split(t, '\n')[0];
  }

  lemma LineAfterFirst(text: string, p: nat, k': nat)
    requires 0 < p <= |text| && text[0] != '\n'
    requires LineFrom(text[1..], p - 1, k') && LineNumber(text[1..], p - 1) > 1
    ensures LineFrom(text, p, k' + 1)
  {
    var t := text[1..];
    var n' := LineNumber(t, p - 1);
    assert text[..p][1..] == t[..p - 1];
    assert text[p..] == t[p - 1..];
    if k' == 0 {
      assert t[..p - 1] == t[0..p - 1];
      CountIn(t[..p - 1], '\n');
      assert false;
    }
    assert text[k' + 1..p] == t[k'..p - 1];
    assert Split(text, '\n')[n' - 1] == Split(t, '\n')[n' - 1];
  }

  // ---------------------------------------------------------------------
  // Python's ordering of strings: lexicographic by code point
  // ---------------------------------------------------------------------

  /** `a < b` on Python strings. */
  predicate Less(a: string, b: string)
    decreases |a|
  {
    if |a| == 0 then |b| > 0
    else if |b| == 0 then false
    else if a[0] != b[0] then a[0] < b[0]
    else Less(a[1..], b[1..])
  }

  lemma {:induction false} LessIrreflexive(a: string)
    ensures !Less(a, a)
  {
    if |a| > 0 {
      LessIrreflexive(a[1..]);
    }
  }

  lemma {:induction false} LessAsymmetric(a: string, b: string)
    ensures !(Less(a, b) && Less(b, a))
    decreases |a|
  {
    if |a| > 0 && |b| > 0 && a[0] == b[0] {
      LessAsymmetric(a[1..], b[1..]);
    }
  }

  lemma {:induction false} LessTransitive(a: string, b: string, c: string)
    requires Less(a, b) && Less(b, c)
    ensures Less(a, c)
    decreases |a|
  {
    if |a| > 0 && |b| > 0 && |c| > 0 && a[0] == b[0] && b[0] == c[0] {
      LessTransitive(a[1..], b[1..], c[1..]);
    }
  }

  lemma {:induction false} LessTotal(a: string, b: string)
    ensures a == b || Less(a, b) || Less(b, a)
    decreases |a|
  {
    if |a| > 0 && |b| > 0 && a[0] == b[0] {
      LessTotal(a[1..], b[1..]);
      assert a == [a[0]] + a[1..] && b == [b[0]] + b[1..];
    }
  }

  predicate StrictlySorted(r: seq<string>) {
    forall i, j :: 0 <= i < j < |r| ==> Less(r[i], r[j])
  }

  predicate IsLeast(m: string, s: set<string>) {
    m in s && forall x :: x in s && x != m ==> Less(m, x)
  }

  lemma {:induction false} LeastExists(s: set<string>)
    requires s != {}
    ensures exists m :: IsLeast(m, s)
    decreases |s|
  {
    var x :| x in s;
    if s == {x} {
      assert IsLeast(x, s);
    } else {
      LeastExists(s - {x});
      var m :| IsLeast(m, s - {x});
      LessTotal(m, x);
      if Less(m, x) {
        assert IsLeast(m, s);
      } else {
        forall y | y in s && y != x
          ensures Less(x, y)
        {
          if y != m {
            LessTransitive(x, m, y);
          }
        }
        assert IsLeast(x, s);
      }
    }
  }

  lemma LeastUnique(s: set<string>)
    ensures forall a, b :: IsLeast(a, s) && IsLeast(b, s) ==> a == b
  {
    forall a, b | IsLeast(a, s) && IsLeast(b, s)
      ensures a == b
    {
      if a != b {
        LessAsymmetric(a, b);
      }
    }
  }

  /** `sorted(s)` for a set of strings: every element once, in increasing order. */
  function SortedSet(s: set<string>): (r: seq<string>)
    ensures StrictlySorted(r)
    ensures forall x :: x in r <==> x in s
    ensures |r| == |s|
    decreases s
  {
    if s == {} then []
    else
      LeastExists(s);
      LeastUnique(s);
      var m :| IsLeast(m, s);
      var rest := SortedSet(s - {m});
      assert forall j :: 0 <= j < |rest| ==> Less(m, rest[j]);
      [m] + rest
  }

  /** Concatenation regroups freely. */
  lemma AppendAssoc<T>(a: seq<T>, b: seq<T>, c: seq<T>)
    ensures (a + b) + c == a + (b + c)
    ensures a + b + [] == a + b
  {
  }
}
