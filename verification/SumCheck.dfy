/** Addition chains in an answer that do not come to the total they state
    (packages/core/src/agent/arithmetic-check.ts, lines 157 to 270).

    The figures of a line, with their places and readings, are given; so is which characters are letters and which
    are numbers. */
module SumCheck {
  import opened Common
  import opened DecimalSum

  datatype Item =
    // a figure with its sign and currency; commaTail: as written it ends in a comma and one or two digits
    | Term(start: nat, end: nat, figure: Figure, commaTail: bool)
    // a figure that belongs to an identifier
    | Blocker

  datatype Alphabet = Alphabet(letter: char -> bool, number: char -> bool)

  datatype Mismatch = Mismatch(excerpt: string, terms: seq<string>, operators: seq<Operator>, stated: string, computed: string)

  const MAX_TERMS := 199
  const MAX_TEXT_CHARS := 200000
  const EXCERPT_CHARS := 160

  predicate IsLineSpace(c: char) {
    c == ' ' || c == '\t' || c == '\U{00a0}' || c == '\U{202f}'
  }

  /** `line.slice(from, upto)` */
  function Between(line: string, from: nat, upto: nat): string {
    if from <= upto <= |line| then line[from..upto] else if from <= |line| < upto then line[from..] else ""
  }

  // ----- What may stand between two figures.

  /** A mark with nothing but spaces around it. */
  ghost predicate Joins(gap: string, mark: char, at: nat) {
    && at < |gap| && gap[at] == mark
    && forall i | 0 <= i < |gap| && i != at :: IsLineSpace(gap[i])
  }

  ghost predicate JoinsByPlus(gap: string) {
    exists at :: Joins(gap, '+', at)
  }

  /** A minus needs a space on either side. */
  ghost predicate JoinsByMinus(gap: string) {
    exists at :: 0 < at < |gap| - 1 && (Joins(gap, '-', at) || Joins(gap, '\U{2212}', at))
  }

  ghost predicate Equates(gap: string) {
    exists at :: Joins(gap, '=', at)
  }

  /** How many spaces a gap begins with. */
  function LeadingSpaces(gap: string): (n: nat)
    ensures n <= |gap| && (forall i | 0 <= i < n :: IsLineSpace(gap[i])) && (n < |gap| ==> !IsLineSpace(gap[n]))
  {
    if gap == "" || !IsLineSpace(gap[0]) then 0 else 1 + LeadingSpaces(gap[1..])
  }

  /** The one character of a gap that is no space. */
  function OnlyMark(gap: string): Option<char> {
    var n := LeadingSpaces(gap);
    if n < |gap| && LeadingSpaces(gap[n + 1..]) == |gap| - n - 1 then Some(gap[n]) else None
  }

  predicate IsPlusJoiner(gap: string) {
    OnlyMark(gap) == Some('+')
  }

  predicate IsMinusJoiner(gap: string) {
    && OnlyMark(gap) in {Some('-'), Some('\U{2212}')}
    && 0 < LeadingSpaces(gap) < |gap| - 1
  }

  predicate IsEquals(gap: string) {
    OnlyMark(gap) == Some('=')
  }

  predicate IsJoiner(gap: string) {
    IsPlusJoiner(gap) || IsMinusJoiner(gap)
  }

  lemma OnlyMarkIff(gap: string, mark: char, at: nat)
    requires !IsLineSpace(mark)
    ensures Joins(gap, mark, at) <==> OnlyMark(gap) == Some(mark) && at == LeadingSpaces(gap)
  {
    var n := LeadingSpaces(gap);
    if n < |gap| {
      assert forall i | n < i < |gap| :: gap[n + 1..][i - n - 1] == gap[i];
      var rest := LeadingSpaces(gap[n + 1..]);
      assert rest < |gap| - n - 1 ==> !IsLineSpace(gap[n + 1 + rest]);
      assert forall i | n < i < n + 1 + rest :: IsLineSpace(gap[i]) by {
        forall i | n < i < n + 1 + rest ensures IsLineSpace(gap[i]) {
          assert gap[n + 1..][i - n - 1] == gap[i];
        }
      }
    }
  }

  /** The three tests on a gap say what they are meant to. */
  lemma GapTests(gap: string)
    ensures IsPlusJoiner(gap) <==> JoinsByPlus(gap)
    ensures IsMinusJoiner(gap) <==> JoinsByMinus(gap)
    ensures IsEquals(gap) <==> Equates(gap)
  {
    forall mark, at | mark in {'+', '-', '\U{2212}', '='}
      ensures Joins(gap, mark, at) <==> OnlyMark(gap) == Some(mark) && at == LeadingSpaces(gap)
    {
      OnlyMarkIff(gap, mark, at);
    }
    var n := LeadingSpaces(gap);
    assert Joins(gap, '+', n) <==> OnlyMark(gap) == Some('+');
    assert Joins(gap, '-', n) <==> OnlyMark(gap) == Some('-');
    assert Joins(gap, '\U{2212}', n) <==> OnlyMark(gap) == Some('\U{2212}');
    assert Joins(gap, '=', n) <==> OnlyMark(gap) == Some('=');
  }

  // ----- Where a chain may start and end.

  predicate IsMark(c: char) {
    c == '-' || c == '\U{2022}' || c == '>'
  }

  /** A list or quote marker from i to e, after blanks only. */
  ghost predicate MarkerAt(line: string, i: nat, e: int) {
    && i < e <= |line|
    && (forall k | 0 <= k < i :: IsBlank(line[k]))
    && ((e == i + 1 && IsMark(line[i]))
        || (e > i + 1 && line[e - 1] == '.' && forall k | i <= k < e - 1 :: IsDigit(line[k])))
  }

  ghost predicate MarkerEndsAt(line: string, e: int) {
    exists i :: MarkerAt(line, i, e)
  }

  lemma MarkerIsUnique(line: string, i: nat, e: int, i': nat, e': int)
    requires MarkerAt(line, i, e) && MarkerAt(line, i', e')
    ensures i == i' && e == e'
  {
    assert !IsBlank(line[i]) && !IsBlank(line[i']);
    assert IsDigit(line[i]) ==> !IsDigit(line[e - 1]) && !IsDigit(line[e' - 1]);
  }

  /** `lineMarkerEnd`, lines 157 to 164: where the marker ends, or -1. */
  method LineMarkerEnd(line: string) returns (e: int)
    ensures e == -1 || MarkerEndsAt(line, e)
    ensures e == -1 ==> forall k :: !MarkerEndsAt(line, k)
  {
    var first := 0;
    while first < |line| && IsBlank(line[first])
      invariant first <= |line| && forall k | 0 <= k < first :: IsBlank(line[k])
    {
      first := first + 1;
    }
    if first < |line| && IsMark(line[first]) {
      assert MarkerAt(line, first, first + 1);
      return first + 1;
    }
    var digits := first;
    while digits < |line| && IsDigit(line[digits])
      invariant first <= digits <= |line| && forall k | first <= k < digits :: IsDigit(line[k])
    {
      digits := digits + 1;
    }
    if digits > first && digits < |line| && line[digits] == '.' {
      assert MarkerAt(line, first, digits + 1);
      return digits + 1;
    }
    forall i: nat, k ensures !MarkerAt(line, i, k) {
      if MarkerAt(line, i, k) {
        NoOtherMarker(line, first, digits, i, k);
      }
    }
    return -1;
  }

  lemma NoOtherMarker(line: string, first: nat, digits: nat, i: nat, e: int)
    requires first <= digits <= |line| && forall k | 0 <= k < first :: IsBlank(line[k])
    requires first < |line| ==> !IsBlank(line[first]) && !IsMark(line[first])
    requires forall k | first <= k < digits :: IsDigit(line[k])
    requires digits < |line| ==> !IsDigit(line[digits])
    requires MarkerAt(line, i, e)
    ensures digits > first && digits < |line| && line[digits] == '.'
  {
    assert !IsBlank(line[i]);
    assert i == first;
    assert !IsDigit(line[e - 1]);
    assert digits == e - 1;
  }

  /** Where the text before a chain ends, its spaces taken off. */
  function SpacesBack(line: string, start: nat): (end: nat)
    ensures end <= start
    ensures start <= |line| ==> forall k | end <= k < start :: IsLineSpace(line[k])
    ensures 0 < end <= |line| ==> end == start > |line| || !IsLineSpace(line[end - 1])
  {
    if 0 < start <= |line| && IsLineSpace(line[start - 1]) then SpacesBack(line, start - 1) else start
  }

  /** The characters one lead check reads. */
  function LeadRead(line: string, start: nat): nat {
    start - SpacesBack(line, start) + 1
  }

  /** A chain may start: at the line's start, after a letter, ":" or "|", or after a list or quote marker. */
  ghost predicate LeadAllowed(a: Alphabet, line: string, start: nat) {
    var end := SpacesBack(line, start);
    || end == 0
    || (end <= |line| && (a.letter(line[end - 1]) || line[end - 1] in {':', '|'}))
    || MarkerEndsAt(line, end)
  }

  const AFTER_REJECT := {'+', '-', '\U{2212}', '\U{00d7}', '*', '\U{00b7}', '/', '\U{00f7}', '^', '=', '(', ')', '[', ']',
    '{', '}', '%', '\U{2026}'}

  /** `tailAllowed`, lines 192 to 197. */
  predicate TailAllowed(a: Alphabet, line: string, end: nat) {
    var rest := Between(line, end, |line|);
    var suffix := rest[LeadingSpaces(rest)..];
    suffix == "" || (suffix[0] !in AFTER_REJECT && !a.number(suffix[0]) && !(|suffix| >= 3 && suffix[..3] == "..."))
  }

  lemma SpacesAreFour(c: char)
    ensures IsLineSpace(c) <==> c in {' ', '\t', '\U{00a0}', '\U{202f}'}
  {
  }

  lemma BetweenIs(line: string, from: nat, upto: nat)
    ensures from <= upto <= |line| ==> Between(line, from, upto) == line[from..upto]
    ensures from >= |line| || upto < from ==> Between(line, from, upto) == ""
  {
  }

  /** What may not stand behind a total: an operator, a bracket, a percent sign, a number, or an ellipsis. */
  ghost predicate Refuses(a: Alphabet, rest: string) {
    rest != "" && (rest[0] in {'+', '-', '\U{2212}', '\U{00d7}', '*', '\U{00b7}', '/', '\U{00f7}', '^', '=', '%', '\U{2026}'}
                   || rest[0] in {'(', ')', '[', ']', '{', '}'} || a.number(rest[0]) || rest[..Min(3, |rest|)] == "...")
  }

  /** The spaces behind a total do not count. */
  lemma TailIff(a: Alphabet, line: string, end: nat, k: nat)
    requires end <= k <= |line| && (forall i | end <= i < k :: IsLineSpace(line[i])) && (k < |line| ==> !IsLineSpace(line[k]))
    ensures TailAllowed(a, line, end) <==> !Refuses(a, line[k..])
  {
    var rest := Between(line, end, |line|);
    var n := LeadingSpaces(rest);
    assert rest == line[end..] && forall i | end <= i < |line| :: rest[i - end] == line[i];
    assert n == k - end;
    assert rest[n..] == line[k..];
    ThreeDots(line[k..]);
  }

  lemma ThreeDots(suffix: string)
    ensures (|suffix| >= 3 && suffix[..3] == "...") <==> suffix[..Min(3, |suffix|)] == "..."
  {
    assert |"..."| == 3;
  }

  /** Nor do those in front of a chain: what stands before them is nothing, a letter, a colon, a bar, or the marker. */
  lemma LeadIff(a: Alphabet, line: string, start: nat, k: nat)
    requires k <= start <= |line| && (forall i | k <= i < start :: IsLineSpace(line[i])) && (k > 0 ==> !IsLineSpace(line[k - 1]))
    ensures LeadAllowed(a, line, start) <==>
      (k == 0 || a.letter(line[k - 1]) || line[k - 1] == ':' || line[k - 1] == '|' || exists i :: MarkerAt(line, i, k))
  {
    assert SpacesBack(line, start) == k;
  }

  // ----- The chains of a line.

  function Gap(line: string, items: seq<Item>, k: nat): string
    requires 0 < k < |items| && items[k - 1].Term? && items[k].Term?
  {
    Between(line, items[k - 1].end, items[k].start)
  }

  /** Items b to n - 1 are terms. */
  predicate Terms(items: seq<Item>, b: nat, n: nat) {
    b < n <= |items| && forall k | b <= k < n :: items[k].Term?
  }

  /** Where the chain that ends with item n - 1 starts. A total starts none; nor does a blocker. */
  ghost function ChainStart(line: string, items: seq<Item>, n: nat): (b: Option<nat>)
    requires n <= |items|
    ensures b.Some? ==> Terms(items, b.value, n)
  {
    if n == 0 || items[n - 1].Blocker? then None
    else
      var before := ChainStart(line, items, n - 1);
      if before.None? then Some(n - 1)
      else if IsJoiner(Gap(line, items, n - 1)) then before
      else if IsEquals(Gap(line, items, n - 1)) then None
      else Some(n - 1)
  }

  /** Each term of a chain is joined to the next. */
  lemma {:induction false} ChainIsJoined(line: string, items: seq<Item>, n: nat, k: nat)
    requires n <= |items| && ChainStart(line, items, n).Some? && ChainStart(line, items, n).value < k < n
    ensures IsJoiner(Gap(line, items, k))
  {
    assert ChainStart(line, items, n) == ChainStart(line, items, n - 1);
    if k < n - 1 {
      ChainIsJoined(line, items, n - 1, k);
    }
  }

  /** Item n is the total stated for a chain. */
  ghost predicate Closes(line: string, items: seq<Item>, n: nat)
    requires n < |items|
  {
    var b := ChainStart(line, items, n);
    && items[n].Term? && b.Some? && 2 <= n - b.value <= MAX_TERMS
    && !IsJoiner(Gap(line, items, n)) && IsEquals(Gap(line, items, n))
  }

  function OperatorAt(line: string, items: seq<Item>, k: nat): Operator
    requires 0 < k < |items| && items[k - 1].Term? && items[k].Term?
  {
    if IsPlusJoiner(Gap(line, items, k)) then Plus else Minus
  }

  ghost function Operators(line: string, items: seq<Item>, b: nat, n: nat): seq<Operator>
    requires Terms(items, b, n)
  {
    seq(n - b - 1, i requires 0 <= i < n - b - 1 => OperatorAt(line, items, b + 1 + i))
  }

  function Figures(chain: seq<Item>): seq<Figure>
    requires forall k | 0 <= k < |chain| :: chain[k].Term?
  {
    seq(|chain|, k requires 0 <= k < |chain| => chain[k].figure)
  }

  function Texts(line: string, chain: seq<Item>): seq<string>
    requires forall k | 0 <= k < |chain| :: chain[k].Term?
  {
    seq(|chain|, k requires 0 <= k < |chain| => Trim(Between(line, chain[k].start, chain[k].end)))
  }

  function Excerpt(original: string, from: nat, upto: nat): string {
    var excerpt := Trim(Between(original, from, upto));
    if |excerpt| > EXCERPT_CHARS then excerpt[..EXCERPT_CHARS - 1] + ['\U{2026}'] else excerpt
  }

  /** The original's text, trimmed, cut off at 160 characters. */
  lemma ExcerptIs(original: string, from: nat, upto: nat)
    ensures var text, excerpt := Trim(Between(original, from, upto)), Excerpt(original, from, upto);
      && |excerpt| <= 160 && (|text| <= 160 ==> excerpt == text)
      && (|text| > 160 ==> |excerpt| == 160 && excerpt[..159] == text[..159] && excerpt[159] == '\U{2026}')
  {
  }

  /** Which of the two verdicts is shown, lines 229 to 234: None when the chain is not reported. */
  function Shown(comma: Verdict, point: Verdict, commaTail: bool): Option<string> {
    if comma.Skip? || point.Skip? || (comma.Unreadable? && point.Unreadable?) then None
    else if (comma.Checked? && comma.matches) || (point.Checked? && point.matches) then None
    else if point.Unreadable? then Some(comma.computed)
    else if comma.Unreadable? then Some(point.computed)
    else Some(if commaTail then comma.computed else point.computed)
  }

  function VerdictOn(chain: seq<Item>, operators: seq<Operator>, stated: Item): Option<string>
    requires (forall k | 0 <= k < |chain| :: chain[k].Term?) && stated.Term?
  {
    var terms := Figures(chain);
    Shown(Verdicted(terms, operators, stated.figure, Comma), Verdicted(terms, operators, stated.figure, Point), stated.commaTail)
  }

  function Reported(line: string, original: string, chain: seq<Item>, operators: seq<Operator>, stated: Item, computed: string): Mismatch
    requires (forall k | 0 <= k < |chain| :: chain[k].Term?) && chain != [] && stated.Term?
  {
    Mismatch(Excerpt(original, chain[0].start, stated.end), Texts(line, chain), operators,
             Trim(Between(line, stated.start, stated.end)), computed)
  }

  /** What item n makes the line report. */
  ghost function ReportAt(a: Alphabet, line: string, original: string, items: seq<Item>, n: nat): Option<Mismatch>
    requires n < |items|
  {
    if !Closes(line, items, n) then None
    else
      var b := ChainStart(line, items, n).value;
      var chain, operators := items[b..n], Operators(line, items, b, n);
      var shown := VerdictOn(chain, operators, items[n]);
      if LeadAllowed(a, line, items[b].start) && TailAllowed(a, line, items[n].end) && shown.Some?
      then Some(Reported(line, original, chain, operators, items[n], shown.value)) else None
  }

  function Somes<T>(options: seq<Option<T>>): seq<T> {
    if options == [] then []
    else Somes(Init(options)) + if Last(options).Some? then [Last(options).value] else []
  }

  lemma {:induction false} SomesFrom<T>(options: seq<Option<T>>, x: T) returns (k: nat)
    requires x in Somes(options)
    ensures k < |options| && options[k] == Some(x)
  {
    if x in Somes(Init(options)) {
      k := SomesFrom(Init(options), x);
    } else {
      k := |options| - 1;
    }
  }

  lemma {:induction false} SomesHold<T>(options: seq<Option<T>>, k: nat)
    requires k < |options| && options[k].Some?
    ensures options[k].value in Somes(options)
  {
    if k < |options| - 1 {
      SomesHold(Init(options), k);
    }
  }

  lemma SomesSnoc<T>(options: seq<Option<T>>, last: Option<T>)
    ensures Somes(options + [last]) == Somes(options) + if last.Some? then [last.value] else []
  {
    assert Init(options + [last]) == options;
  }

  ghost function Table<T>(f: nat -> T, n: nat): seq<T> {
    if n == 0 then [] else Table(f, n - 1) + [f(n - 1)]
  }

  lemma {:induction false} TableAt<T>(f: nat -> T, n: nat)
    ensures |Table(f, n)| == n && forall k | 0 <= k < n :: Table(f, n)[k] == f(k)
  {
    if n > 0 {
      TableAt(f, n - 1);
    }
  }

  /** What each item makes the line report. */
  ghost function Reporter(a: Alphabet, line: string, original: string, items: seq<Item>): nat -> Option<Mismatch> {
    (k: nat) => if k < |items| then ReportAt(a, line, original, items, k) else None
  }

  /** What the first n items make the line report. */
  ghost function Reports(a: Alphabet, line: string, original: string, items: seq<Item>, n: nat): seq<Mismatch>
    requires n <= |items|
  {
    Somes(Table(Reporter(a, line, original, items), n))
  }

  lemma ReportsOneMore(a: Alphabet, line: string, original: string, items: seq<Item>, n: nat, m: Option<Mismatch>)
    requires n < |items| && m == ReportAt(a, line, original, items, n)
    ensures Reports(a, line, original, items, n + 1) == Reports(a, line, original, items, n) + if m.Some? then [m.value] else []
  {
    SomesSnoc(Table(Reporter(a, line, original, items), n), m);
  }

  /** The lead checks made, and the characters they read. */
  ghost function Checks(line: string, items: seq<Item>, n: nat): nat
    requires n <= |items|
  {
    if n == 0 then 0 else Checks(line, items, n - 1) + if Closes(line, items, n - 1) then 1 else 0
  }

  ghost function CharsRead(line: string, items: seq<Item>, n: nat): nat
    requires n <= |items|
  {
    if n == 0 then 0
    else
      var before := CharsRead(line, items, n - 1);
      if Closes(line, items, n - 1) then before + LeadRead(line, items[ChainStart(line, items, n - 1).value].start) else before
  }

  /** The loop's chain and operators, told by where the chain starts. */
  ghost predicate Tracks(line: string, items: seq<Item>, n: nat, chain: seq<Item>, operators: seq<Operator>)
    requires n <= |items|
  {
    var b := ChainStart(line, items, n);
    if b.None? then chain == [] && operators == []
    else chain == items[b.value..n] && operators == Operators(line, items, b.value, n)
  }

  lemma OperatorsGrow(line: string, items: seq<Item>, b: nat, n: nat)
    requires b < n < |items| && Terms(items, b, n + 1)
    ensures Operators(line, items, b, n + 1) == Operators(line, items, b, n) + [OperatorAt(line, items, n)]
  {
  }

  lemma ChainBegins(line: string, items: seq<Item>, n: nat, chain: seq<Item>, operators: seq<Operator>)
    requires n < |items| && Tracks(line, items, n, chain, operators)
    requires items[n].Blocker? || chain == []
    ensures !Closes(line, items, n)
    ensures Tracks(line, items, n + 1, if items[n].Blocker? then [] else [items[n]], [])
  {
    assert items[n..n + 1] == [items[n]];
  }

  lemma ChainGrows(line: string, items: seq<Item>, n: nat, chain: seq<Item>, operators: seq<Operator>)
    requires n < |items| && Tracks(line, items, n, chain, operators) && items[n].Term? && chain != []
    requires IsJoiner(Gap(line, items, n))
    ensures !Closes(line, items, n)
    ensures Tracks(line, items, n + 1, chain + [items[n]], operators + [OperatorAt(line, items, n)])
  {
    OperatorsGrow(line, items, ChainStart(line, items, n).value, n);
  }

  lemma ChainEnds(line: string, items: seq<Item>, n: nat, chain: seq<Item>, operators: seq<Operator>)
    requires n < |items| && Tracks(line, items, n, chain, operators) && items[n].Term? && chain != []
    requires !IsJoiner(Gap(line, items, n))
    ensures Closes(line, items, n) <==> IsEquals(Gap(line, items, n)) && 2 <= |chain| <= MAX_TERMS
    ensures Tracks(line, items, n + 1, if IsEquals(Gap(line, items, n)) then [] else [items[n]], [])
  {
    assert items[n..n + 1] == [items[n]];
  }

  lemma NothingReported(a: Alphabet, line: string, original: string, items: seq<Item>, n: nat)
    requires n < |items| && !Closes(line, items, n)
    ensures ReportAt(a, line, original, items, n) == None
    ensures CharsRead(line, items, n + 1) == CharsRead(line, items, n)
  {
  }

  /** What meeting the total of a chain reports and costs, told by the chain itself. */
  lemma ClosedReport(a: Alphabet, line: string, original: string, items: seq<Item>, n: nat, chain: seq<Item>, operators: seq<Operator>)
    requires n < |items| && Tracks(line, items, n, chain, operators) && Closes(line, items, n)
    requires chain != [] && forall k | 0 <= k < |chain| :: chain[k].Term?
    ensures var shown := VerdictOn(chain, operators, items[n]);
      ReportAt(a, line, original, items, n)
      == if LeadAllowed(a, line, chain[0].start) && TailAllowed(a, line, items[n].end) && shown.Some?
         then Some(Reported(line, original, chain, operators, items[n], shown.value)) else None
    ensures CharsRead(line, items, n + 1) == CharsRead(line, items, n) + LeadRead(line, chain[0].start)
  {
  }

  lemma ChainOfTerms(line: string, items: seq<Item>, n: nat, chain: seq<Item>, operators: seq<Operator>)
    requires n <= |items| && Tracks(line, items, n, chain, operators) && chain != []
    ensures forall k | 0 <= k < |chain| :: chain[k].Term? && chain[k] in items
    ensures n > 0 && Last(chain) == items[n - 1]
  {
  }

  class LineReader {
    /** The module's counter. */
    var leadCharsRead: nat

    constructor ()
      ensures leadCharsRead == 0
    {
      leadCharsRead := 0;
    }

    /** `leadAllowed`, lines 183 to 190. */
    method CheckLead(a: Alphabet, line: string, start: nat, markerEnd: int) returns (ok: bool)
      requires start <= |line|
      requires markerEnd == -1 || MarkerEndsAt(line, markerEnd)
      requires markerEnd == -1 ==> forall k :: !MarkerEndsAt(line, k)
      modifies this
      ensures leadCharsRead == old(leadCharsRead) + LeadRead(line, start)
      ensures ok <==> LeadAllowed(a, line, start)
    {
      var end: nat := start;
      while end > 0 && IsLineSpace(line[end - 1])
        invariant 0 <= end <= start && SpacesBack(line, start) == SpacesBack(line, end)
      {
        end := end - 1;
      }
      leadCharsRead := leadCharsRead + start - end + 1;
      if end == 0 { return true; }
      var last := line[end - 1];
      ok := a.letter(last) || last in {':', '|'} || end == markerEnd;
      if markerEnd >= 0 && MarkerEndsAt(line, end) {
        var i: nat :| MarkerAt(line, i, end);
        var j: nat :| MarkerAt(line, j, markerEnd);
        MarkerIsUnique(line, i, end, j, markerEnd);
      }
    }

    /** Lines 225 to 245: a chain meets the total stated for it. */
    method CheckChain(a: Alphabet, line: string, original: string, chain: seq<Item>, operators: seq<Operator>, stated: Item, markerEnd: int)
      returns (m: Option<Mismatch>)
      requires (forall k | 0 <= k < |chain| :: chain[k].Term?) && chain != [] && stated.Term? && chain[0].start <= |line|
      requires markerEnd == -1 || MarkerEndsAt(line, markerEnd)
      requires markerEnd == -1 ==> forall k :: !MarkerEndsAt(line, k)
      modifies this
      ensures leadCharsRead == old(leadCharsRead) + LeadRead(line, chain[0].start)
      ensures var shown := VerdictOn(chain, operators, stated);
        m == if LeadAllowed(a, line, chain[0].start) && TailAllowed(a, line, stated.end) && shown.Some?
             then Some(Reported(line, original, chain, operators, stated, shown.value)) else None
    {
      m := None;
      var lead := CheckLead(a, line, chain[0].start, markerEnd);
      if lead && TailAllowed(a, line, stated.end) {
        var comma := Evaluate(Figures(chain), operators, stated.figure, Comma);
        var point := Evaluate(Figures(chain), operators, stated.figure, Point);
        var shown := Shown(comma, point, stated.commaTail);
        if shown.Some? { m := Some(Reported(line, original, chain, operators, stated, shown.value)); }
      }
    }

    /** The end of a chain, lines 225 to 249: at its total, or at anything else. */
    method EndChain(a: Alphabet, line: string, original: string, items: seq<Item>, n: nat, chain: seq<Item>, operators: seq<Operator>, markerEnd: int)
      returns (m: Option<Mismatch>)
      requires n < |items| && Tracks(line, items, n, chain, operators) && chain != [] && items[n].Term?
      requires (forall k | 0 <= k < |chain| :: chain[k].Term?) && chain[0].start <= |line| && items[n - 1].Term?
      requires !IsJoiner(Gap(line, items, n))
      requires markerEnd == -1 || MarkerEndsAt(line, markerEnd)
      requires markerEnd == -1 ==> forall k :: !MarkerEndsAt(line, k)
      modifies this
      ensures m == ReportAt(a, line, original, items, n)
      ensures leadCharsRead == old(leadCharsRead) + (CharsRead(line, items, n + 1) - CharsRead(line, items, n))
    {
      ChainEnds(line, items, n, chain, operators);
      if IsEquals(Gap(line, items, n)) && 2 <= |chain| <= MAX_TERMS {
        ClosedReport(a, line, original, items, n, chain, operators);
        m := CheckChain(a, line, original, chain, operators, items[n], markerEnd);
      } else {
        NothingReported(a, line, original, items, n);
        m := None;
      }
    }

    /** One round of the loop, lines 206 to 249. */
    method TakeItem(a: Alphabet, line: string, original: string, items: seq<Item>, n: nat, chain: seq<Item>, operators: seq<Operator>, markerEnd: int)
      returns (chain': seq<Item>, operators': seq<Operator>, m: Option<Mismatch>)
      requires n < |items| && Tracks(line, items, n, chain, operators)
      requires forall k | 0 <= k < |items| && items[k].Term? :: items[k].start <= |line|
      requires markerEnd == -1 || MarkerEndsAt(line, markerEnd)
      requires markerEnd == -1 ==> forall k :: !MarkerEndsAt(line, k)
      modifies this
      ensures Tracks(line, items, n + 1, chain', operators')
      ensures m == ReportAt(a, line, original, items, n)
      ensures leadCharsRead == old(leadCharsRead) + (CharsRead(line, items, n + 1) - CharsRead(line, items, n))
    {
      m := None;
      var item := items[n];
      if item.Blocker? || chain == [] {
        ChainBegins(line, items, n, chain, operators);
        NothingReported(a, line, original, items, n);
        return if item.Blocker? then [] else [item], [], None;
      }
      ChainOfTerms(line, items, n, chain, operators);
      assert chain[0] in items;
      var gap := Between(line, Last(chain).end, item.start);
      assert gap == Gap(line, items, n);
      if IsPlusJoiner(gap) || IsMinusJoiner(gap) {
        ChainGrows(line, items, n, chain, operators);
        NothingReported(a, line, original, items, n);
        return chain + [item], operators + [if IsPlusJoiner(gap) then Plus else Minus], None;
      }
      ChainEnds(line, items, n, chain, operators);
      m := EndChain(a, line, original, items, n, chain, operators, markerEnd);
      chain', operators' := if IsEquals(gap) then [] else [item], [];
    }

    /** `lineMismatches`, lines 200 to 252. */
    method LineMismatches(a: Alphabet, line: string, original: string, items: seq<Item>) returns (found: seq<Mismatch>)
      requires forall k | 0 <= k < |items| && items[k].Term? :: items[k].start <= |line|
      modifies this
      ensures found == Reports(a, line, original, items, |items|)
      ensures leadCharsRead == old(leadCharsRead) + CharsRead(line, items, |items|)
    {
      found := [];
      var markerEnd := LineMarkerEnd(line);
      var chain: seq<Item>, operators: seq<Operator> := [], [];
      for n := 0 to |items|
        invariant found == Reports(a, line, original, items, n)
        invariant leadCharsRead == old(leadCharsRead) + CharsRead(line, items, n)
        invariant Tracks(line, items, n, chain, operators)
      {
        var m;
        chain, operators, m := TakeItem(a, line, original, items, n, chain, operators, markerEnd);
        ReportsOneMore(a, line, original, items, n, m);
        if m.Some? { found := found + [m.value]; }
      }
    }
  }

  // ----- The cost of the lead checks.

  /** Figures stand where they are found: left to right, each on a character that is no space. */
  ghost predicate WellPlaced(line: string, items: seq<Item>) {
    && (forall k | 0 <= k < |items| && items[k].Term? :: items[k].start < |line| && !IsLineSpace(line[items[k].start]))
    && (forall j, k | 0 <= j < k < |items| && items[j].Term? && items[k].Term? :: items[j].start < items[k].start)
  }

  /** The first term of the last chain that was checked. */
  ghost function LastChecked(line: string, items: seq<Item>, n: nat): (i: Option<nat>)
    requires n <= |items|
    ensures i.Some? ==> i.value < n && items[i.value].Term?
    ensures i.Some? && ChainStart(line, items, n).Some? ==> i.value < ChainStart(line, items, n).value
  {
    if n == 0 then None
    else if Closes(line, items, n - 1) then ChainStart(line, items, n - 1)
    else LastChecked(line, items, n - 1)
  }

  /** The spaces stepped over before one chain lie after the chain checked before it. */
  lemma SpacesAreApart(line: string, items: seq<Item>, i: nat, b: nat)
    requires WellPlaced(line, items) && i < b < |items| && items[i].Term? && items[b].Term?
    ensures items[i].start < SpacesBack(line, items[b].start)
  {
    assert items[i].start < items[b].start;
    assert !IsLineSpace(line[items[i].start]);
  }

  lemma {:induction false} CharsReadUpTo(line: string, items: seq<Item>, n: nat)
    requires WellPlaced(line, items) && n <= |items|
    ensures var i := LastChecked(line, items, n);
      CharsRead(line, items, n) <= Checks(line, items, n) + (if i.Some? then items[i.value].start else 0)
  {
    if n > 0 {
      CharsReadUpTo(line, items, n - 1);
      if Closes(line, items, n - 1) {
        var b := ChainStart(line, items, n - 1).value;
        var i := LastChecked(line, items, n - 1);
        if i.Some? {
          SpacesAreApart(line, items, i.value, b);
        }
      }
    }
  }

  /** The lead checks of a line read at most its length and one character for each chain. */
  lemma LeadReadsAreFew(line: string, items: seq<Item>)
    requires WellPlaced(line, items)
    ensures CharsRead(line, items, |items|) <= |line| + Checks(line, items, |items|)
  {
    CharsReadUpTo(line, items, |items|);
  }

  // ----- What a report says.

  /** Every report comes from an item that closes a chain. */
  lemma ReportedBy(a: Alphabet, line: string, original: string, items: seq<Item>, n: nat, m: Mismatch) returns (k: nat)
    requires n <= |items| && m in Reports(a, line, original, items, n)
    ensures k < n && ReportAt(a, line, original, items, k) == Some(m)
  {
    TableAt(Reporter(a, line, original, items), n);
    k := SomesFrom(Table(Reporter(a, line, original, items), n), m);
  }

  /** The sum a report shows is written under a convention that reads the chain. */
  ghost predicate IsWrittenSum(terms: seq<Figure>, operators: seq<Operator>, stated: Figure, computed: string) {
    exists c :: WritesSum(terms, operators, stated, c, computed)
  }

  lemma TwoConventions(c: Convention)
    ensures c == Comma || c == Point
  {
  }

  /** One of two verdicts is shown exactly when neither skips, one checks, and none that checks matches. */
  lemma ShownOf(comma: Verdict, point: Verdict, commaTail: bool)
    ensures Shown(comma, point, commaTail).Some? <==>
      && !comma.Skip? && !point.Skip? && (comma.Checked? || point.Checked?)
      && (comma.Checked? ==> !comma.matches) && (point.Checked? ==> !point.matches)
    ensures Shown(comma, point, commaTail).Some? && comma.Checked? && point.Checked? ==>
      Shown(comma, point, commaTail).value == if commaTail then comma.computed else point.computed
    ensures Shown(comma, point, commaTail).Some? ==>
      || (comma.Checked? && Shown(comma, point, commaTail).value == comma.computed)
      || (point.Checked? && Shown(comma, point, commaTail).value == point.computed)
  {
  }

  /** A chain is shown exactly when it misses its total under all conventions. */
  lemma ShownIff(terms: seq<Figure>, operators: seq<Operator>, stated: Figure, commaTail: bool)
    ensures Shown(Verdicted(terms, operators, stated, Comma), Verdicted(terms, operators, stated, Point), commaTail).Some? <==>
            MissesUnderAll(terms, operators, stated)
  {
    VerdictTold(terms, operators, stated, Comma);
    VerdictTold(terms, operators, stated, Point);
    ShownOf(Verdicted(terms, operators, stated, Comma), Verdicted(terms, operators, stated, Point), commaTail);
    forall c: Convention ensures Skipped(terms, stated, c) ==> Skipped(terms, stated, Comma) || Skipped(terms, stated, Point) {
      TwoConventions(c);
    }
    forall c: Convention | ReadsFully(terms, stated, c) ensures
      (c == Comma && ReadsFully(terms, stated, Comma)) || (c == Point && ReadsFully(terms, stated, Point))
    {
      TwoConventions(c);
    }
  }

  /** What is shown is the sum, written out. */
  lemma ShownIsWritten(terms: seq<Figure>, operators: seq<Operator>, stated: Figure, commaTail: bool)
    ensures var shown := Shown(Verdicted(terms, operators, stated, Comma), Verdicted(terms, operators, stated, Point), commaTail);
      shown.Some? ==> IsWrittenSum(terms, operators, stated, shown.value)
  {
    var comma, point := Verdicted(terms, operators, stated, Comma), Verdicted(terms, operators, stated, Point);
    ShownOf(comma, point, commaTail);
    if comma.Checked? { ComputedIsWritten(terms, operators, stated, Comma); }
    if point.Checked? { ComputedIsWritten(terms, operators, stated, Point); }
  }

  /** Items b to n - 1 are joined by a plus or a spaced minus, and item n is the total an equals sign ties to them. */
  ghost predicate IsStatedSum(line: string, items: seq<Item>, b: nat, n: nat) {
    && b + 2 <= n < |items| && n - b <= 199
    && (forall k | b <= k <= n :: items[k].Term?)
    && (forall k | b < k < n :: JoinsByPlus(Gap(line, items, k)) || JoinsByMinus(Gap(line, items, k)))
    && Equates(Gap(line, items, n))
  }

  /** Item j is a total: an equals sign ties it to a figure that is none. */
  ghost predicate IsTotal(line: string, items: seq<Item>, j: nat) {
    0 < j < |items| && items[j - 1].Term? && items[j].Term? && Equates(Gap(line, items, j)) && !IsTotal(line, items, j - 1)
  }

  /** Item b begins a chain: nothing before it can be joined to it. */
  ghost predicate StartsChain(line: string, items: seq<Item>, b: nat) {
    && b < |items| && items[b].Term?
    && (b == 0 || items[b - 1].Blocker? || IsTotal(line, items, b - 1)
        || (!JoinsByPlus(Gap(line, items, b)) && !JoinsByMinus(Gap(line, items, b)) && !Equates(Gap(line, items, b))))
  }

  lemma {:induction false} NoChainIff(line: string, items: seq<Item>, n: nat)
    requires n <= |items|
    ensures ChainStart(line, items, n).None? <==> n == 0 || items[n - 1].Blocker? || IsTotal(line, items, n - 1)
  {
    if n > 0 {
      NoChainIff(line, items, n - 1);
      if n > 1 && items[n - 1].Term? && items[n - 2].Term? { GapTests(Gap(line, items, n - 1)); }
    }
  }

  lemma {:induction false} ChainStartIs(line: string, items: seq<Item>, b: nat, n: nat)
    requires StartsChain(line, items, b) && Terms(items, b, n)
    requires forall k | b < k < n :: IsJoiner(Gap(line, items, k))
    ensures ChainStart(line, items, n) == Some(b)
  {
    if b < n - 1 {
      ChainStartIs(line, items, b, n - 1);
    } else {
      NoChainIff(line, items, b);
      if b > 0 && items[b - 1].Term? { GapTests(Gap(line, items, b)); }
    }
  }

  lemma {:induction false} ChainStartStarts(line: string, items: seq<Item>, n: nat)
    requires n <= |items| && ChainStart(line, items, n).Some?
    ensures StartsChain(line, items, ChainStart(line, items, n).value)
  {
    if ChainStart(line, items, n) != Some(n - 1) {
      ChainStartStarts(line, items, n - 1);
    } else {
      NoChainIff(line, items, n - 1);
      if n > 1 && items[n - 2].Term? { GapTests(Gap(line, items, n - 1)); }
    }
  }

  /** The sum that closes at item n is the stated sum that begins where no earlier figure joins. */
  lemma ClosesIff(line: string, items: seq<Item>, b: nat, n: nat)
    requires n < |items|
    ensures (Closes(line, items, n) && ChainStart(line, items, n) == Some(b)) <==>
            (IsStatedSum(line, items, b, n) && StartsChain(line, items, b))
  {
    if Closes(line, items, n) && ChainStart(line, items, n) == Some(b) {
      ClosedIsStatedSum(line, items, n);
      ChainStartStarts(line, items, n);
    }
    if IsStatedSum(line, items, b, n) && StartsChain(line, items, b) {
      forall k | b < k < n ensures IsJoiner(Gap(line, items, k)) {
        GapTests(Gap(line, items, k));
      }
      ChainStartIs(line, items, b, n);
      GapTests(Gap(line, items, n));
    }
  }

  lemma ClosedIsStatedSum(line: string, items: seq<Item>, n: nat)
    requires n < |items| && Closes(line, items, n)
    ensures IsStatedSum(line, items, ChainStart(line, items, n).value, n)
  {
    var b := ChainStart(line, items, n).value;
    GapTests(Gap(line, items, n));
    forall k | b < k < n ensures JoinsByPlus(Gap(line, items, k)) || JoinsByMinus(Gap(line, items, k)) {
      ChainIsJoined(line, items, n, k);
      GapTests(Gap(line, items, k));
    }
  }

  /** The operator before each term after the first is the one its gap shows. */
  lemma OperatorsRead(line: string, items: seq<Item>, b: nat, n: nat)
    requires Terms(items, b, n)
    ensures |Operators(line, items, b, n)| == n - b - 1
    ensures forall i | 0 <= i < n - b - 1 :: (Operators(line, items, b, n)[i] == Plus) == JoinsByPlus(Gap(line, items, b + 1 + i))
  {
    forall i | 0 <= i < n - b - 1 ensures (Operators(line, items, b, n)[i] == Plus) == JoinsByPlus(Gap(line, items, b + 1 + i)) {
      assert Operators(line, items, b, n)[i] == OperatorAt(line, items, b + 1 + i);
      GapTests(Gap(line, items, b + 1 + i));
    }
  }

  /** What should be reported: a stated sum of 2 to 199 figures that begins where no earlier figure joins, with a lead
      and a tail that are allowed, which misses its total. */
  ghost predicate ShouldReport(a: Alphabet, line: string, items: seq<Item>, b: nat, n: nat) {
    && IsStatedSum(line, items, b, n) && StartsChain(line, items, b)
    && LeadAllowed(a, line, items[b].start) && TailAllowed(a, line, items[n].end)
    && MissesUnderAll(Figures(items[b..n]), Operators(line, items, b, n), items[n].figure)
  }

  /** The report of such a sum: its terms and operators as they stand, and the sum as it comes out. */
  ghost predicate IsReportOf(m: Mismatch, line: string, original: string, items: seq<Item>, b: nat, n: nat)
    requires IsStatedSum(line, items, b, n)
  {
    var chain, operators := items[b..n], Operators(line, items, b, n);
    IsWrittenSum(Figures(chain), operators, items[n].figure, m.computed) && m == Reported(line, original, chain, operators, items[n], m.computed)
  }

  /** An item makes a report exactly if it is the total of what should be reported. */
  lemma ReportAtIff(a: Alphabet, line: string, original: string, items: seq<Item>, b: nat, n: nat)
    requires n < |items|
    ensures ShouldReport(a, line, items, b, n) <==>
      ReportAt(a, line, original, items, n).Some? && ChainStart(line, items, n) == Some(b)
    ensures ShouldReport(a, line, items, b, n) ==>
      IsReportOf(ReportAt(a, line, original, items, n).value, line, original, items, b, n)
  {
    ClosesIff(line, items, b, n);
    if Closes(line, items, n) && ChainStart(line, items, n) == Some(b) {
      var terms, operators := Figures(items[b..n]), Operators(line, items, b, n);
      ShownIff(terms, operators, items[n].figure, items[n].commaTail);
      ShownIsWritten(terms, operators, items[n].figure, items[n].commaTail);
    }
  }

  /** Every report is the report of a sum that should be reported. */
  lemma ReportIsSound(a: Alphabet, line: string, original: string, items: seq<Item>, m: Mismatch) returns (b: nat, n: nat)
    requires m in Reports(a, line, original, items, |items|)
    ensures ShouldReport(a, line, items, b, n) && IsReportOf(m, line, original, items, b, n)
    ensures |m.terms| == n - b && |m.operators| == |m.terms| - 1
    ensures forall i | 0 <= i < n - b - 1 :: (m.operators[i] == Plus) == JoinsByPlus(Gap(line, items, b + 1 + i))
  {
    n := ReportedBy(a, line, original, items, |items|, m);
    b := ChainStart(line, items, n).value;
    ReportAtIff(a, line, original, items, b, n);
    OperatorsRead(line, items, b, n);
  }

  /** A report shows its terms and its total as they are written, and where they stand in the original. */
  lemma ReportShows(m: Mismatch, line: string, original: string, items: seq<Item>, b: nat, n: nat)
    requires IsStatedSum(line, items, b, n) && IsReportOf(m, line, original, items, b, n)
    ensures |m.terms| == n - b
    ensures forall i | 0 <= i < n - b :: m.terms[i] == Trim(Between(line, items[b + i].start, items[b + i].end))
    ensures m.stated == Trim(Between(line, items[n].start, items[n].end))
    ensures m.excerpt == Excerpt(original, items[b].start, items[n].end)
  {
    var chain := items[b..n];
    assert forall i | 0 <= i < |chain| :: chain[i] == items[b + i];
  }

  /** And every sum that should be reported is. */
  lemma MissIsReported(a: Alphabet, line: string, original: string, items: seq<Item>, b: nat, n: nat) returns (m: Mismatch)
    requires ShouldReport(a, line, items, b, n)
    ensures m in Reports(a, line, original, items, |items|) && IsReportOf(m, line, original, items, b, n)
  {
    ReportAtIff(a, line, original, items, b, n);
    m := ReportAt(a, line, original, items, n).value;
    TableAt(Reporter(a, line, original, items), |items|);
    SomesHold(Table(Reporter(a, line, original, items), |items|), n);
  }

  // ----- The whole text.

  /** A line without an equals sign reports nothing and costs nothing, so it need not be read. */
  lemma NoEqualsNoReport(a: Alphabet, line: string, original: string, items: seq<Item>)
    ensures '=' in line || Reports(a, line, original, items, |items|) == []
    ensures '=' in line || (CharsRead(line, items, |items|) == 0 && Checks(line, items, |items|) == 0)
  {
    var reports := Reports(a, line, original, items, |items|);
    if reports != [] {
      var k := ReportedBy(a, line, original, items, |items|, reports[0]);
      EqualsIsInLine(line, items, k);
    }
    NoEqualsNoCost(line, items, |items|);
  }

  lemma {:induction false} NoEqualsNoCost(line: string, items: seq<Item>, n: nat)
    requires n <= |items|
    ensures '=' in line || (CharsRead(line, items, n) == 0 && Checks(line, items, n) == 0)
  {
    if n > 0 {
      NoEqualsNoCost(line, items, n - 1);
      EqualsIsInLine(line, items, n - 1);
    }
  }

  lemma EqualsIsInLine(line: string, items: seq<Item>, n: nat)
    requires n < |items|
    ensures Closes(line, items, n) ==> '=' in line
  {
    if Closes(line, items, n) {
      var gap := Gap(line, items, n);
      GapTests(gap);
      var at: nat :| Joins(gap, '=', at);
      assert gap[at] in gap;
    }
  }

  datatype Line = Line(text: string, original: string, items: seq<Item>)

  ghost predicate Placed(lines: seq<Line>) {
    forall i | 0 <= i < |lines| :: WellPlaced(lines[i].text, lines[i].items)
  }

  /** The reports of every line, each line read. */
  ghost function AllReports(a: Alphabet, lines: seq<Line>): seq<Mismatch> {
    if lines == [] then []
    else AllReports(a, Init(lines)) + Reports(a, Last(lines).text, Last(lines).original, Last(lines).items, |Last(lines).items|)
  }

  /** They are the reports of its lines. */
  lemma {:induction false} AllReportsIff(a: Alphabet, lines: seq<Line>, m: Mismatch)
    ensures m in AllReports(a, lines) <==>
      exists i | 0 <= i < |lines| :: m in Reports(a, lines[i].text, lines[i].original, lines[i].items, |lines[i].items|)
  {
    if lines != [] {
      AllReportsIff(a, Init(lines), m);
      assert forall i | 0 <= i < |Init(lines)| :: Init(lines)[i] == lines[i];
      assert Last(lines) == lines[|lines| - 1];
    }
  }

  lemma FiguresAre(chain: seq<Item>, k: nat)
    requires (forall i | 0 <= i < |chain| :: chain[i].Term?) && k < |chain|
    ensures |Figures(chain)| == |chain| && Figures(chain)[k] == chain[k].figure
  {
  }

  ghost function AllChecks(lines: seq<Line>): nat {
    if lines == [] then 0 else AllChecks(Init(lines)) + Checks(Last(lines).text, Last(lines).items, |Last(lines).items|)
  }

  function Length(lines: seq<Line>): nat {
    if lines == [] then 0 else Length(Init(lines)) + |Last(lines).text|
  }

  /** `findArithmeticMismatches`, lines 258 to 270: nothing for a text over 200,000 characters; else every line's reports,
      at a cost bounded by the text and its chains. */
  method FindArithmeticMismatches(reader: LineReader, a: Alphabet, textLength: nat, lines: seq<Line>) returns (found: seq<Mismatch>)
    requires Placed(lines)
    modifies reader
    ensures found == if textLength == 0 || textLength > 200000 then [] else AllReports(a, lines)
    ensures reader.leadCharsRead <= Length(lines) + AllChecks(lines)
  {
    reader.leadCharsRead := 0;
    found := [];
    if textLength == 0 || textLength > MAX_TEXT_CHARS { return; }
    for i := 0 to |lines|
      invariant found == AllReports(a, lines[..i])
      invariant reader.leadCharsRead <= Length(lines[..i]) + AllChecks(lines[..i])
    {
      assert Init(lines[..i + 1]) == lines[..i];
      var line := lines[i];
      assert WellPlaced(line.text, line.items);
      if '=' in line.text {
        var more := reader.LineMismatches(a, line.text, line.original, line.items);
        found := found + more;
        LeadReadsAreFew(line.text, line.items);
      } else {
        NoEqualsNoReport(a, line.text, line.original, line.items);
      }
    }
    assert lines[..|lines|] == lines;
  }
}
