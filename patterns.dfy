/**
 * The regular expressions of the Deluge analyzer, read by a hand scanner.
 *
 * Every pattern the analyzer uses is a chain of four kinds of element: a
 * literal (matched case-insensitively under `re.IGNORECASE`), `\s*`, `\s+`
 * and a captured `(\w+)`. `Parse` says when a chain matches a stretch of text
 * with any choice of run lengths; `Greedy` takes every run as long as it can,
 * without backtracking. In the analyzer's patterns a `\w+` is never followed
 * by something that can begin with a word character, nor a `\s*`/`\s+` by
 * something that can begin with a space, so the runs are forced: `Greedy`
 * finds a match wherever `Parse` has one and agrees with it on every run but
 * the last, which it takes longest, as Python's backtracking matcher does.
 * `FindAll` is `finditer`: leftmost matches, each search resuming where the
 * previous match ended.
 */
module Patterns {
  import opened Wrappers
  import Text

  datatype Elem =
    | Lit(lit: string, ignoreCase: bool)
    | Spaces0
    | Spaces1
    | Word

  datatype CharClass = WordClass | SpaceClass

  predicate InClass(cls: CharClass, c: char) {
    match cls
    case WordClass => Text.IsWordChar(c)
    case SpaceClass => Text.IsSpace(c)
  }

  /** The patterns of the analyzer that are ever searched. */
  datatype Pattern =
    | GetRecord      // RE_GET_RECORD
    | SearchRecords  // RE_SEARCH_RECORDS
    | UpdateRecord   // RE_UPDATE_RECORD
    | CreateRecord   // RE_CREATE_RECORD
    | ForEach        // the `for each` pattern of `_find_record_variables`
    | DotGet         // RE_DOT_GET
    | DotPut         // RE_DOT_PUT

  function Elems(p: Pattern): seq<Elem> {
    match p
    case GetRecord =>
      [Word, Spaces0, Lit("=", true), Spaces0, Lit("zoho.crm.getRecordById(", true), Spaces0, Lit("\"", true), Word,
       Lit("\"", true)]
    case SearchRecords =>
      [Word, Spaces0, Lit("=", true), Spaces0, Lit("zoho.crm.searchRecords(", true), Spaces0, Lit("\"", true), Word,
       Lit("\"", true)]
    case UpdateRecord =>
      [Lit("zoho.crm.updateRecord(", true), Spaces0, Lit("\"", true), Word, Lit("\"", true), Spaces0, Lit(",", true),
       Spaces0, Word, Spaces0, Lit(",", true), Spaces0, Word]
    case CreateRecord =>
      [Lit("zoho.crm.createRecord(", true), Spaces0, Lit("\"", true), Word, Lit("\"", true), Spaces0, Lit(",", true),
       Spaces0, Word]
    case ForEach =>
      [Lit("for", false), Spaces1, Lit("each", false), Spaces1, Word, Spaces1, Lit("in", false), Spaces1, Word]
    case DotGet =>
      [Word, Lit(".get(", false), Spaces0, Lit("\"", false), Word, Lit("\"", false), Spaces0, Lit(")", false)]
    case DotPut =>
      [Word, Lit(".put(", false), Spaces0, Lit("\"", false), Word, Lit("\"", false), Spaces0, Lit(",", false)]
  }

  // ---------------------------------------------------------------------
  // What a match is
  // ---------------------------------------------------------------------

  /** Element `e` matches `text[p..q]`. */
  predicate Fits(e: Elem, text: string, p: nat, q: nat) {
    p <= q <= |text| &&
    match e
    case Lit(lit, ignoreCase) =>
      q == p + |lit| && (if ignoreCase then Text.MatchesIgnoringCase(text, p, lit) else Text.MatchesAt(text, p, lit))
    case Spaces0 => Text.AllSpace(text[p..q])
    case Spaces1 => p < q && Text.AllSpace(text[p..q])
    case Word => p < q && Text.AllWord(text[p..q])
  }

  /** The chain `es` matches from `p`, element `i` ending at `ends[i]`. */
  predicate Parse(es: seq<Elem>, text: string, p: nat, ends: seq<nat>)
    decreases es
  {
    |ends| == |es| && (es != [] ==> Fits(es[0], text, p, ends[0]) && Parse(es[1..], text, ends[0], ends[1..]))
  }

  /** The captured groups of a match: the text of each `\w+`, in order. */
  function Captures(es: seq<Elem>, text: string, p: nat, ends: seq<nat>): (gs: seq<string>)
    requires Parse(es, text, p, ends)
    ensures |gs| == WordCount(es)
    ensures forall k :: 0 <= k < |gs| ==> gs[k] != [] && Text.AllWord(gs[k])
    decreases es
  {
    if es == [] then []
    else (if es[0].Word? then [text[p..ends[0]]] else []) + Captures(es[1..], text, ends[0], ends[1..])
  }

  function WordCount(es: seq<Elem>): nat {
    if es == [] then 0 else (if es[0].Word? then 1 else 0) + WordCount(es[1..])
  }

  lemma {:induction false} ParseEnds(es: seq<Elem>, text: string, p: nat, ends: seq<nat>)
    requires Parse(es, text, p, ends)
    requires es != []
    ensures p <= ends[0] <= ends[|ends| - 1] <= |text|
  {
    if |es| > 1 {
      ParseEnds(es[1..], text, ends[0], ends[1..]);
    }
  }

  // ---------------------------------------------------------------------
  // The greedy matcher
  // ---------------------------------------------------------------------

  /** Where element `e` ends when it starts at `p` and takes all it can. */
  function Step(e: Elem, text: string, p: nat): (r: Option<nat>)
    requires p <= |text|
    ensures r.Some? ==> Fits(e, text, p, r.value)
  {
    match e
    case Lit(lit, ignoreCase) =>
      if (if ignoreCase then Text.MatchesIgnoringCase(text, p, lit) else Text.MatchesAt(text, p, lit))
      then Some(p + |lit|) else None
    case Spaces0 => Some(Text.SpaceEnd(text, p))
    case Spaces1 => var q := Text.SpaceEnd(text, p); if q > p then Some(q) else None
    case Word => var q := Text.WordEnd(text, p); if q > p then Some(q) else None
  }

  function Greedy(es: seq<Elem>, text: string, p: nat): (r: Option<seq<nat>>)
    requires p <= |text|
    ensures r.Some? ==> Parse(es, text, p, r.value)
    decreases es
  {
    if es == [] then Some([])
    else
      match Step(es[0], text, p)
      case None => None
      case Some(q) =>
        match Greedy(es[1..], text, q)
        case None => None
        case Some(rest) => Some([q] + rest)
  }

  // ---------------------------------------------------------------------
  // Well-formed chains: the runs are forced
  // ---------------------------------------------------------------------

  /** No match of `es` begins with a character of `cls`. */
  predicate CannotStartWith(es: seq<Elem>, cls: CharClass)
    decreases es
  {
    es != [] &&
    match es[0]
    case Lit(lit, _) => |lit| > 0 && !InClass(cls, lit[0])
    case Spaces0 => cls == WordClass && CannotStartWith(es[1..], cls)
    case Spaces1 => cls == WordClass
    case Word => cls == SpaceClass
  }

  /** What follows a run never begins with a character the run could take. */
  predicate Separated(e: Elem, rest: seq<Elem>) {
    match e
    case Word => CannotStartWith(rest, WordClass)
    case Spaces0 => CannotStartWith(rest, SpaceClass)
    case Spaces1 => CannotStartWith(rest, SpaceClass)
    case Lit(_, _) => true
  }

  predicate Consumes(e: Elem) {
    e.Word? || e.Spaces1? || (e.Lit? && |e.lit| > 0)
  }

  predicate WellFormed(es: seq<Elem>) {
    es != [] && Consumes(es[0]) && forall i :: 0 <= i < |es| - 1 ==> Separated(es[i], es[i + 1..])
  }

  lemma LitCharClass(c: char, lit: string, ignoreCase: bool, cls: CharClass)
    requires |lit| > 0 && !InClass(cls, lit[0])
    requires if ignoreCase then Text.LowerChar(c) == Text.LowerChar(lit[0]) else c == lit[0]
    ensures !InClass(cls, c)
  {
  }

  /** A match of a chain that cannot start with `cls` does not begin with such a character. */
  lemma {:induction false} NoParseStartsIn(es: seq<Elem>, text: string, x: nat, ends: seq<nat>, cls: CharClass)
    requires CannotStartWith(es, cls)
    requires Parse(es, text, x, ends)
    requires x < |text|
    ensures !InClass(cls, text[x])
    decreases es
  {
    match es[0]
    case Lit(lit, ignoreCase) =>
      if ignoreCase {
        assert Text.LowerChar(text[x + 0]) == Text.LowerChar(lit[0]);
      } else {
        assert text[x..x + |lit|][0] == lit[0];
      }
      LitCharClass(text[x], lit, ignoreCase, cls);
    case Spaces0 =>
      if ends[0] > x {
        assert text[x..ends[0]][0] == text[x];
      } else {
        NoParseStartsIn(es[1..], text, x, ends[1..], cls);
      }
    case Spaces1 =>
      assert text[x..ends[0]][0] == text[x];
    case Word =>
      assert text[x..ends[0]][0] == text[x];
  }

  /** A greedy run reaches at least as far as any run that fits. */
  lemma {:induction false} WordEndCovers(text: string, from: nat, q: nat)
    requires from <= q <= |text| && Text.AllWord(text[from..q])
    ensures Text.WordEnd(text, from) >= q
    decreases q - from
  {
    if from < q {
      assert text[from..q][0] == text[from];
      assert text[from + 1..q] == text[from..q][1..];
      WordEndCovers(text, from + 1, q);
    }
  }

  lemma {:induction false} SpaceEndCovers(text: string, from: nat, q: nat)
    requires from <= q <= |text| && Text.AllSpace(text[from..q])
    ensures Text.SpaceEnd(text, from) >= q
    decreases q - from
  {
    if from < q {
      assert text[from..q][0] == text[from];
      assert text[from + 1..q] == text[from..q][1..];
      SpaceEndCovers(text, from + 1, q);
    }
  }

  lemma StepCovers(e: Elem, text: string, p: nat, q: nat)
    requires Fits(e, text, p, q)
    ensures Step(e, text, p).Some? && Step(e, text, p).value >= q
    ensures e.Lit? ==> Step(e, text, p).value == q
  {
    match e
    case Lit(_, _) =>
    case Spaces0 => SpaceEndCovers(text, p, q);
    case Spaces1 => SpaceEndCovers(text, p, q);
    case Word => WordEndCovers(text, p, q);
  }

  /** A greedy run that overshoots a fitting one covers a character of its class. */
  lemma Overshoot(e: Elem, text: string, p: nat, q: nat, g: nat, cls: CharClass)
    requires Fits(e, text, p, q) && Fits(e, text, p, g) && q < g
    requires !e.Lit?
    requires e.Word? ==> cls == WordClass
    requires !e.Word? ==> cls == SpaceClass
    ensures q < |text| && InClass(cls, text[q])
  {
    assert text[p..g][q - p] == text[q];
  }

  /**
   * On a well-formed chain the greedy matcher succeeds wherever any match
   * exists, with the same run ends except the last, which it takes longest.
   */
  lemma {:induction false} GreedyComplete(es: seq<Elem>, text: string, p: nat, ends: seq<nat>)
    requires p <= |text|
    requires forall i :: 0 <= i < |es| - 1 ==> Separated(es[i], es[i + 1..])
    requires Parse(es, text, p, ends)
    ensures Greedy(es, text, p).Some?
    ensures |Greedy(es, text, p).value| == |ends|
    ensures forall i :: 0 <= i < |ends| - 1 ==> Greedy(es, text, p).value[i] == ends[i]
    ensures |ends| > 0 ==> Greedy(es, text, p).value[|ends| - 1] >= ends[|ends| - 1]
    decreases es
  {
    if es != [] {
      StepCovers(es[0], text, p, ends[0]);
      var q := Step(es[0], text, p).value;
      if |es| > 1 {
        assert Separated(es[0], es[1..]);
        if q > ends[0] {
          var cls := if es[0].Word? then WordClass else SpaceClass;
          Overshoot(es[0], text, p, ends[0], q, cls);
          NoParseStartsIn(es[1..], text, ends[0], ends[1..], cls);
        }
        forall i | 0 <= i < |es[1..]| - 1
          ensures Separated(es[1..][i], es[1..][i + 1..])
        {
          assert es[1..][i] == es[i + 1] && es[1..][i + 1..] == es[i + 2..];
        }
        GreedyComplete(es[1..], text, ends[0], ends[1..]);
      }
    }
  }

  /** `CannotStartWith(es[j..], cls)`, decided by looking at most two elements ahead. */
  predicate StartsOutside(es: seq<Elem>, j: nat, cls: CharClass) {
    j < |es| &&
    match es[j]
    case Lit(lit, _) => |lit| > 0 && !InClass(cls, lit[0])
    case Spaces0 => cls == WordClass && j + 1 < |es| && es[j + 1].Lit? && |es[j + 1].lit| > 0 && !InClass(cls, es[j + 1].lit[0])
    case Spaces1 => cls == WordClass
    case Word => cls == SpaceClass
  }

  lemma StartsOutsideCannot(es: seq<Elem>, j: nat, cls: CharClass)
    requires StartsOutside(es, j, cls)
    ensures CannotStartWith(es[j..], cls)
  {
    assert es[j..][0] == es[j];
    if es[j].Spaces0? {
      assert es[j..][1..] == es[j + 1..];
      assert es[j + 1..][0] == es[j + 1];
    }
  }

  predicate SeparatedAt(es: seq<Elem>, i: nat) {
    i + 1 < |es| &&
    match es[i]
    case Word => StartsOutside(es, i + 1, WordClass)
    case Spaces0 => StartsOutside(es, i + 1, SpaceClass)
    case Spaces1 => StartsOutside(es, i + 1, SpaceClass)
    case Lit(_, _) => true
  }

  lemma WellFormedByIndex(es: seq<Elem>)
    requires es != [] && Consumes(es[0])
    requires forall i :: 0 <= i < |es| - 1 ==> SeparatedAt(es, i)
    ensures WellFormed(es)
  {
    forall i | 0 <= i < |es| - 1
      ensures Separated(es[i], es[i + 1..])
    {
      assert SeparatedAt(es, i);
      if !es[i].Lit? {
        StartsOutsideCannot(es, i + 1, if es[i].Word? then WordClass else SpaceClass);
      }
    }
  }

  lemma GetRecordWellFormed()
    ensures WellFormed(Elems(GetRecord))
  {
    var es := Elems(GetRecord);
    assert SeparatedAt(es, 0) && SeparatedAt(es, 1) && SeparatedAt(es, 2) && SeparatedAt(es, 3) && SeparatedAt(es, 4) && SeparatedAt(es, 5) && SeparatedAt(es, 6) && SeparatedAt(es, 7);
    WellFormedByIndex(es);
  }

  lemma SearchRecordsWellFormed()
    ensures WellFormed(Elems(SearchRecords))
  {
    var es := Elems(SearchRecords);
    assert SeparatedAt(es, 0) && SeparatedAt(es, 1) && SeparatedAt(es, 2) && SeparatedAt(es, 3) && SeparatedAt(es, 4) && SeparatedAt(es, 5) && SeparatedAt(es, 6) && SeparatedAt(es, 7);
    WellFormedByIndex(es);
  }

  lemma UpdateRecordWellFormed()
    ensures WellFormed(Elems(UpdateRecord))
  {
    var es := Elems(UpdateRecord);
    assert SeparatedAt(es, 0) && SeparatedAt(es, 1) && SeparatedAt(es, 2) && SeparatedAt(es, 3) && SeparatedAt(es, 4) && SeparatedAt(es, 5) && SeparatedAt(es, 6) && SeparatedAt(es, 7) && SeparatedAt(es, 8) && SeparatedAt(es, 9) && SeparatedAt(es, 10) && SeparatedAt(es, 11);
    WellFormedByIndex(es);
  }

  lemma CreateRecordWellFormed()
    ensures WellFormed(Elems(CreateRecord))
  {
    var es := Elems(CreateRecord);
    assert SeparatedAt(es, 0) && SeparatedAt(es, 1) && SeparatedAt(es, 2) && SeparatedAt(es, 3) && SeparatedAt(es, 4) && SeparatedAt(es, 5) && SeparatedAt(es, 6) && SeparatedAt(es, 7);
    WellFormedByIndex(es);
  }

  lemma ForEachWellFormed()
    ensures WellFormed(Elems(ForEach))
  {
    var es := Elems(ForEach);
    assert SeparatedAt(es, 0) && SeparatedAt(es, 1) && SeparatedAt(es, 2) && SeparatedAt(es, 3) && SeparatedAt(es, 4) && SeparatedAt(es, 5) && SeparatedAt(es, 6) && SeparatedAt(es, 7);
    WellFormedByIndex(es);
  }

  lemma DotGetWellFormed()
    ensures WellFormed(Elems(DotGet))
  {
    var es := Elems(DotGet);
    assert SeparatedAt(es, 0) && SeparatedAt(es, 1) && SeparatedAt(es, 2) && SeparatedAt(es, 3) && SeparatedAt(es, 4) && SeparatedAt(es, 5) && SeparatedAt(es, 6);
    WellFormedByIndex(es);
  }

  lemma DotPutWellFormed()
    ensures WellFormed(Elems(DotPut))
  {
    var es := Elems(DotPut);
    assert SeparatedAt(es, 0) && SeparatedAt(es, 1) && SeparatedAt(es, 2) && SeparatedAt(es, 3) && SeparatedAt(es, 4) && SeparatedAt(es, 5) && SeparatedAt(es, 6);
    WellFormedByIndex(es);
  }

  lemma ElemsWellFormed(pat: Pattern)
    ensures WellFormed(Elems(pat))
  {
    match pat
    case GetRecord => GetRecordWellFormed();
    case SearchRecords => SearchRecordsWellFormed();
    case UpdateRecord => UpdateRecordWellFormed();
    case CreateRecord => CreateRecordWellFormed();
    case ForEach => ForEachWellFormed();
    case DotGet => DotGetWellFormed();
    case DotPut => DotPutWellFormed();
  }

  // ---------------------------------------------------------------------
  // finditer
  // ---------------------------------------------------------------------

  datatype Match = Match(start: nat, ends: seq<nat>, groups: seq<string>)

  function End(m: Match): nat {
    if m.ends == [] then m.start else m.ends[|m.ends| - 1]
  }

  /** Group `k` of a match (`match.group(k + 1)`); every group of the analyzer's patterns is always present. */
  function Group(m: Match, k: nat): string {
    if k < |m.groups| then m.groups[k] else ""
  }

  /** `finditer` from position `from`: at each position the greedy match, if any; after a match, its end. */
  function FindAll(es: seq<Elem>, text: string, from: nat): (ms: seq<Match>)
    requires WellFormed(es)
    requires from <= |text|
    ensures forall i :: 0 <= i < |ms| ==> from <= ms[i].start < End(ms[i]) <= |text|
    decreases |text| - from
  {
    if from == |text| then []
    else
      match Greedy(es, text, from)
      case None => FindAll(es, text, from + 1)
      case Some(ends) =>
        var m := Match(from, ends, Captures(es, text, from, ends));
        ParseEnds(es, text, from, ends);
        [m] + FindAll(es, text, End(m))
  }

  /** The matches of one of the analyzer's patterns, in text order. */
  function Find(pat: Pattern, text: string): (ms: seq<Match>)
    ensures forall i :: 0 <= i < |ms| ==> ms[i].start < |text|
  {
    ElemsWellFormed(pat);
    FindAll(Elems(pat), text, 0)
  }

  /** Every match is a parse of the pattern carrying its groups, and matches do not overlap. */
  lemma {:induction false} FindAllShape(es: seq<Elem>, text: string, from: nat)
    requires WellFormed(es)
    requires from <= |text|
    ensures forall i :: 0 <= i < |FindAll(es, text, from)| ==>
              Parse(es, text, FindAll(es, text, from)[i].start, FindAll(es, text, from)[i].ends) &&
              FindAll(es, text, from)[i].groups == Captures(es, text, FindAll(es, text, from)[i].start, FindAll(es, text, from)[i].ends)
    ensures forall i :: 0 <= i < |FindAll(es, text, from)| - 1 ==>
              End(FindAll(es, text, from)[i]) <= FindAll(es, text, from)[i + 1].start
    decreases |text| - from
  {
    if from < |text| {
      match Greedy(es, text, from)
      case None => FindAllShape(es, text, from + 1);
      case Some(ends) =>
        var m := Match(from, ends, Captures(es, text, from, ends));
        ParseEnds(es, text, from, ends);
        FindAllShape(es, text, End(m));
    }
  }

  /** Element `i` of a parse fits between the end of the element before it (or the start) and its own end. */
  lemma {:induction false} ParseFits(es: seq<Elem>, text: string, p: nat, ends: seq<nat>, i: nat)
    requires Parse(es, text, p, ends) && i < |es|
    ensures Fits(es[i], text, if i == 0 then p else ends[i - 1], ends[i])
    decreases i
  {
    if i > 0 {
      ParseFits(es[1..], text, ends[0], ends[1..], i - 1);
    }
  }

  /** A match of `getRecordById` or `searchRecords` has a `"` right after its module name. */
  lemma ModuleNameQuoted(pat: Pattern, text: string, m: Match)
    requires pat == GetRecord || pat == SearchRecords
    requires m in Find(pat, text)
    ensures |m.ends| == 9 && m.ends[7] < |text| && text[m.ends[7]] == '"'
  {
    ElemsWellFormed(pat);
    FindAllShape(Elems(pat), text, 0);
    var ms := Find(pat, text);
    var i :| 0 <= i < |ms| && ms[i] == m;
    ParseFits(Elems(pat), text, m.start, m.ends, 8);
    assert Text.LowerChar(text[m.ends[7] + 0]) == Text.LowerChar("\""[0]);
  }

  /**
   * No match is skipped: every position from which the pattern matches lies
   * inside one of the matches found.
   */
  lemma {:induction false} FindAllComplete(es: seq<Elem>, text: string, from: nat, q: nat, ends: seq<nat>)
    requires WellFormed(es)
    requires from <= q <= |text|
    requires Parse(es, text, q, ends)
    ensures exists i :: 0 <= i < |FindAll(es, text, from)| &&
              FindAll(es, text, from)[i].start <= q < End(FindAll(es, text, from)[i])
    decreases |text| - from
  {
    ParseEnds(es, text, q, ends);
    var ms := FindAll(es, text, from);
    match Greedy(es, text, from)
    case None =>
      if q == from {
        GreedyComplete(es, text, q, ends);
        assert false;
      }
      var rest := FindAll(es, text, from + 1);
      assert ms == rest;
      FindAllComplete(es, text, from + 1, q, ends);
    case Some(g) =>
      var m := Match(from, g, Captures(es, text, from, g));
      ParseEnds(es, text, from, g);
      var rest := FindAll(es, text, End(m));
      assert ms == [m] + rest;
      if q >= End(m) {
        FindAllComplete(es, text, End(m), q, ends);
        var i :| 0 <= i < |rest| && rest[i].start <= q < End(rest[i]);
        assert ms[i + 1] == rest[i];
      } else {
        assert ms[0] == m;
      }
  }
}
