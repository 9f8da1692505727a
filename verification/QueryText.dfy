/** Search text to tokens, and the whole of `parse`
    (packages/mail-service/src/query-parser.ts, lines 29 to 120).

    Only ASCII letters have two cases. */
module QueryText {
  import opened Common
  import opened QueryParser
  import QueryLowering

  // ----- The scanner, over the text that is left.

  predicate EndsWord(c: char) {
    IsSpace(c) || c == '(' || c == ')' || c == '"'
  }

  function WordEnd(s: string): (n: nat)
    ensures n <= |s| && (forall i | 0 <= i < n :: !EndsWord(s[i])) && (n < |s| ==> EndsWord(s[n]))
  {
    if s == "" || EndsWord(s[0]) then 0 else 1 + WordEnd(s[1..])
  }

  datatype Quoted = Quoted(value: string, rest: string)

  /** The phrase a quotation mark opens; an unclosed one runs to the end. */
  function Phrase(s: string): (q: Quoted)
    requires s != "" && s[0] == '"'
    ensures |q.rest| < |s|
  {
    var i := FirstIndex(s[1..], '"');
    if i == |s| - 1 then Quoted(s[1..], "") else Quoted(s[1..i + 1], s[i + 2..])
  }

  datatype Scanned = Scanned(tokens: seq<Token>, rest: string)

  predicate IsOperatorWord(clean: string) {
    0 < FirstIndex(clean, ':') < |clean|
  }

  function Clean(word: string): string {
    if word != "" && word[0] == '-' then word[1..] else word
  }

  /** An operator's value: what follows its colon, or the phrase behind a word that ends in its colon. */
  function OperatorValue(clean: string, rest: string): (q: Quoted)
    requires IsOperatorWord(clean)
    ensures |q.rest| <= |rest|
  {
    var value := clean[FirstIndex(clean, ':') + 1..];
    if value == "" && rest != "" && rest[0] == '"' then Phrase(rest) else Quoted(value, rest)
  }

  function OperatorToken(clean: string, value: string, negated: bool): Token
    requires IsOperatorWord(clean)
  {
    TermToken(Term(Op(Lower(clean[..FirstIndex(clean, ':')])), value, negated))
  }

  /** A word and what follows it, lines 76 to 113. */
  function ScanWord(word: string, rest: string): (r: Scanned)
    ensures |r.rest| <= |rest|
  {
    var negated := word != "" && word[0] == '-';
    var clean := Clean(word);
    if Upper(word) == "OR" then Scanned([OrToken], rest)
    else if Upper(word) == "AND" then Scanned([], rest)
    else if !IsOperatorWord(clean) then Scanned([TermToken(Term(Body, clean, negated))], rest)
    else
      var q := OperatorValue(clean, rest);
      Scanned([OperatorToken(clean, q.value, negated)], q.rest)
  }

  /** One round of the scanner. */
  function ScanOne(s: string): (r: Scanned)
    requires s != ""
    ensures |r.rest| < |s|
  {
    if IsSpace(s[0]) then Scanned([], s[1..])
    else if s[0] == '(' then Scanned([Open], s[1..])
    else if s[0] == ')' then Scanned([Close], s[1..])
    else if s[0] == '"' then Scanned([TermToken(Term(Body, Phrase(s).value, false))], Phrase(s).rest)
    else ScanWord(s[..WordEnd(s)], s[WordEnd(s)..])
  }

  /** `tokenize`, lines 55 to 120. */
  function Tokenize(s: string): seq<Token>
    decreases |s|
  {
    if s == "" then [] else ScanOne(s).tokens + Tokenize(ScanOne(s).rest)
  }

  /** The scanner's loop over an index. */
  method RunTokenize(query: string) returns (tokens: seq<Token>)
    ensures tokens == Tokenize(query)
  {
    tokens := [];
    var index := 0;
    assert query[0..] == query;
    while index < |query|
      invariant 0 <= index <= |query|
      invariant tokens + Tokenize(query[index..]) == Tokenize(query)
      decreases |query| - index
    {
      var more, end := ReadOne(query, index);
      TokenizeOne(query[index..], more, query[end..]);
      Associates(tokens, more, Tokenize(query[end..]));
      tokens, index := tokens + more, end;
    }
    assert query[index..] == "";
  }

  lemma TokenizeOne(s: string, more: seq<Token>, rest: string)
    requires s != "" && ScanOne(s) == Scanned(more, rest)
    ensures Tokenize(s) == more + Tokenize(rest)
  {
  }

  /** One round, lines 59 to 116. */
  method ReadOne(query: string, index: nat) returns (tokens: seq<Token>, end: nat)
    requires index < |query|
    ensures index < end <= |query| && ScanOne(query[index..]) == Scanned(tokens, query[end..])
  {
    assert query[index..][0] == query[index] && query[index..][1..] == query[index + 1..];
    if IsSpace(query[index]) { return [], index + 1; }
    if query[index] == '(' || query[index] == ')' { return [if query[index] == '(' then Open else Close], index + 1; }
    if query[index] == '"' {
      var value;
      value, end := ReadPhrase(query, index);
      return [TermToken(Term(Body, value, false))], end;
    }
    tokens, end := ReadWord(query, index);
  }

  method ReadPhrase(query: string, index: nat) returns (value: string, end: nat)
    requires index < |query| && query[index] == '"'
    ensures index < end <= |query| && Phrase(query[index..]) == Quoted(value, query[end..])
  {
    var s := query[index..];
    var i := FirstIndex(s[1..], '"');
    assert s[1..] == query[index + 1..];
    if i == |s| - 1 {
      value, end := query[index + 1..], |query|;
    } else {
      value, end := query[index + 1..index + 1 + i], index + i + 2;
    }
  }

  /** The word at the index, lines 76 to 80. */
  method WordAt(query: string, index: nat) returns (word: string, end: nat)
    requires index < |query| && !EndsWord(query[index])
    ensures index < end <= |query| && WordEnd(query[index..]) == end - index
    ensures word == query[index..end] && word != "" && word[0] == query[index]
  {
    word, end := [query[index]], index + 1;
    while end < |query| && !EndsWord(query[end])
      invariant index < end <= |query| && word == query[index..end]
      invariant forall k | index <= k < end :: !EndsWord(query[k])
    {
      word := word + [query[end]];
      end := end + 1;
    }
    WordEndIs(query[index..], end - index);
  }

  lemma {:induction false} WordEndIs(s: string, n: nat)
    requires n <= |s| && (forall k | 0 <= k < n :: !EndsWord(s[k])) && (n < |s| ==> EndsWord(s[n]))
    ensures WordEnd(s) == n
  {
    if n > 0 {
      WordEndIs(s[1..], n - 1);
    }
  }

  /** What the word and the text behind it give, lines 82 to 116. */
  method ReadTerm(query: string, word: string, at: nat) returns (tokens: seq<Token>, end: nat)
    requires word != "" && at <= |query|
    ensures at <= end <= |query| && ScanWord(word, query[at..]) == Scanned(tokens, query[end..])
  {
    end := at;
    var upper := Upper(word);
    if upper == "OR" { return [OrToken], end; }
    if upper == "AND" { return [], end; }
    var negated := word[0] == '-';
    var clean := if negated then word[1..] else word;
    if IsOperatorWord(clean) {
      var value;
      value, end := ReadValue(query, clean, at);
      return [OperatorToken(clean, value, negated)], end;
    }
    tokens := [TermToken(Term(Body, clean, negated))];
  }

  method ReadValue(query: string, clean: string, at: nat) returns (value: string, end: nat)
    requires IsOperatorWord(clean) && at <= |query|
    ensures at <= end <= |query| && OperatorValue(clean, query[at..]) == Quoted(value, query[end..])
  {
    value, end := clean[FirstIndex(clean, ':') + 1..], at;
    if value == "" && end < |query| && query[end] == '"' {
      value, end := ReadPhrase(query, end);
    }
  }

  method ReadWord(query: string, index: nat) returns (tokens: seq<Token>, end: nat)
    requires index < |query| && !EndsWord(query[index])
    ensures index < end <= |query| && ScanOne(query[index..]) == Scanned(tokens, query[end..])
  {
    var word, at := WordAt(query, index);
    tokens, end := ReadTerm(query, word, at);
    ScanWordAt(query, index, word, at);
  }

  lemma ScanWordAt(query: string, index: nat, word: string, at: nat)
    requires index < at <= |query| && !EndsWord(query[index])
    requires WordEnd(query[index..]) == at - index && word == query[index..at]
    ensures ScanOne(query[index..]) == ScanWord(word, query[at..])
  {
    var s := query[index..];
    assert s[..at - index] == word && s[at - index..] == query[at..];
  }

  // ----- What each text scans to.

  /** White space, parentheses and quotation marks cut words. */
  ghost predicate Uncut(w: string) {
    forall c | c in w :: !IsSpace(c) && c != '(' && c != ')' && c != '"'
  }

  ghost predicate CutHere(tail: string) {
    tail == "" || IsSpace(tail[0]) || tail[0] == '(' || tail[0] == ')' || tail[0] == '"'
  }

  /** "or" and "and", in any case. */
  predicate IsOr(w: string) {
    |w| == 2 && (w[0] == 'o' || w[0] == 'O') && (w[1] == 'r' || w[1] == 'R')
  }

  predicate IsAnd(w: string) {
    |w| == 3 && (w[0] == 'a' || w[0] == 'A') && (w[1] == 'n' || w[1] == 'N') && (w[2] == 'd' || w[2] == 'D')
  }

  /** Without an operator's colon: no colon at all, or the first character is one. */
  ghost predicate NoOperator(w: string) {
    w == "" || w[0] == ':' || ':' !in w
  }

  ghost function BodyToken(value: string, negated: bool): Token {
    TermToken(Term(Body, value, negated))
  }

  ghost predicate ScansTo(text: string, tokens: seq<Token>, tail: string) {
    Tokenize(text + tail) == tokens + Tokenize(tail)
  }

  lemma UncutIsWord(w: string)
    ensures Uncut(w) <==> IsWord(w)
  {
    if IsWord(w) {
      forall c | c in w ensures !EndsWord(c) {
        var i :| 0 <= i < |w| && w[i] == c;
      }
    } else {
      var i :| 0 <= i < |w| && EndsWord(w[i]);
      assert w[i] in w;
    }
  }

  lemma ConnectivesInAnyCase(w: string)
    ensures Upper(w) == "OR" <==> IsOr(w)
    ensures Upper(w) == "AND" <==> IsAnd(w)
  {
    LastsOfConnectives();
    assert forall i | 0 <= i < |w| :: Upper(w)[i] == UpperChar(w[i]);
    if IsOr(w) { assert Upper(w) == "OR"; }
    if IsAnd(w) { assert "AND"[1] == 'N' && Upper(w) == "AND"; }
    if Upper(w) == "AND" { assert "AND"[1] == 'N'; }
  }

  lemma OperatorIff(w: string)
    ensures IsOperatorWord(w) <==> !NoOperator(w)
  {
    if ':' in w { var i :| 0 <= i < |w| && w[i] == ':'; }
  }

  lemma WordScansTo(w: string, tail: string, scanned: Scanned)
    requires w != "" && Uncut(w) && CutHere(tail) && ScanWord(w, tail) == scanned
    ensures Tokenize(w + tail) == scanned.tokens + Tokenize(scanned.rest)
  {
    UncutIsWord(w);
    ScanWordFirst(w, tail);
  }

  /** A word cut off by what follows is the connective OR, nothing for AND, and otherwise a term of the body, when it is no
      operator; behind a minus sign it is that term negated. */
  lemma WordScans(w: string, tail: string)
    requires w != "" && Uncut(w) && CutHere(tail)
    ensures IsOr(w) ==> ScansTo(w, [OrToken], tail)
    ensures IsAnd(w) ==> ScansTo(w, [], tail)
    ensures !IsOr(w) && !IsAnd(w) && w[0] != '-' && NoOperator(w) ==> ScansTo(w, [BodyToken(w, false)], tail)
    ensures w[0] == '-' && NoOperator(w[1..]) ==> ScansTo(w, [BodyToken(w[1..], true)], tail)
  {
    ConnectivesInAnyCase(w);
    OperatorIff(Clean(w));
    WordScansTo(w, tail, ScanWord(w, tail));
    assert [] + Tokenize(tail) == Tokenize(tail);
  }

  /** An operator's name reads alike in any case: without capitals, and otherwise as written. */
  ghost predicate InLowerCase(name: string, written: string) {
    |name| == |written| && forall i | 0 <= i < |name| ::
      && !('A' <= name[i] <= 'Z')
      && (name[i] == written[i] || ('A' <= written[i] <= 'Z' && name[i] as int - 'a' as int == written[i] as int - 'A' as int))
  }

  lemma LowerIsInLowerCase(written: string)
    ensures InLowerCase(Lower(written), written)
  {
  }

  ghost predicate IsName(op: string) {
    op != "" && ':' !in op && Uncut(op)
  }

  ghost function Signed(negated: bool, text: string): string {
    if negated then "-" + text else text
  }

  lemma OperatorParts(op: string, value: string, negated: bool, w: string)
    requires IsName(op) && Uncut(value) && (negated || op[0] != '-') && w == Signed(negated, op + ":" + value)
    ensures w != "" && Uncut(w) && !IsOr(w) && !IsAnd(w) && (w[0] == '-' <==> negated)
    ensures Clean(w) == op + ":" + value && IsOperatorWord(Clean(w)) && FirstIndex(Clean(w), ':') == |op|
    ensures Clean(w)[..|op|] == op && Clean(w)[|op| + 1..] == value
  {
    var clean := op + ":" + value;
    assert clean == op + ([':'] + value);
    FirstIndexAt(op, ':', value);
    assert clean[0] == op[0];
    if negated { assert w[1..] == clean; }
    var at := if negated then 1 + |op| else |op|;
    assert w[at] == ':';
  }

  /** An operator and a value behind its colon, of which the value is not empty. */
  lemma OperatorScans(op: string, value: string, negated: bool, tail: string)
    requires IsName(op) && value != "" && Uncut(value) && (negated || op[0] != '-') && CutHere(tail)
    ensures exists name | InLowerCase(name, op) ::
      ScansTo(Signed(negated, op + ":" + value), [TermToken(Term(Op(name), value, negated))], tail)
  {
    var w := Signed(negated, op + ":" + value);
    OperatorParts(op, value, negated, w);
    ConnectivesInAnyCase(w);
    LowerIsInLowerCase(op);
    WordScansTo(w, tail, Scanned([TermToken(Term(Op(Lower(op)), value, negated))], tail));
  }

  lemma BareOperator(op: string, negated: bool, rest: string, value: string, tail: string)
    requires IsName(op) && (negated || op[0] != '-') && CutHere(rest)
    requires if rest != "" && rest[0] == '"' then Phrase(rest) == Quoted(value, tail) else value == "" && tail == rest
    ensures Tokenize(Signed(negated, op + ":") + rest) == [TermToken(Term(Op(Lower(op)), value, negated))] + Tokenize(tail)
  {
    var w := Signed(negated, op + ":");
    assert op + ":" + "" == op + ":";
    OperatorParts(op, "", negated, w);
    ConnectivesInAnyCase(w);
    WordScansTo(w, rest, Scanned([TermToken(Term(Op(Lower(op)), value, negated))], tail));
  }

  /** With nothing behind the colon, a phrase there is the value, up to its closing mark or the end. */
  lemma OperatorTakesPhrase(op: string, negated: bool, phrase: string, tail: string)
    requires IsName(op) && (negated || op[0] != '-') && '"' !in phrase
    ensures exists name | InLowerCase(name, op) :: var w, token := Signed(negated, op + ":"), TermToken(Term(Op(name), phrase, negated));
      Tokenize(w + Quote(phrase, tail)) == [token] + Tokenize(tail) && Tokenize(w + OpenQuote(phrase)) == [token]
  {
    LowerIsInLowerCase(op);
    QuoteReadsBack(phrase, tail);
    BareOperator(op, negated, Quote(phrase, tail), phrase, tail);
    BareOperator(op, negated, OpenQuote(phrase), phrase, "");
  }

  /** With nothing behind the colon and no phrase, the value is empty. */
  lemma OperatorAlone(op: string, negated: bool, tail: string)
    requires IsName(op) && (negated || op[0] != '-') && CutHere(tail) && (tail == "" || tail[0] != '"')
    ensures exists name | InLowerCase(name, op) ::
      Tokenize(Signed(negated, op + ":") + tail) == [TermToken(Term(Op(name), "", negated))] + Tokenize(tail)
  {
    LowerIsInLowerCase(op);
    BareOperator(op, negated, tail, "", tail);
  }

  ghost function Quote(phrase: string, tail: string): string {
    ['"'] + phrase + ['"'] + tail
  }

  ghost function OpenQuote(phrase: string): string {
    ['"'] + phrase
  }

  lemma QuoteReadsBack(phrase: string, tail: string)
    requires '"' !in phrase
    ensures Quote(phrase, tail)[0] == '"' && Phrase(Quote(phrase, tail)) == Quoted(phrase, tail)
    ensures OpenQuote(phrase)[0] == '"' && Phrase(OpenQuote(phrase)) == Quoted(phrase, "")
  {
    PhraseReadsBack(phrase, tail);
    assert OpenQuote(phrase)[1..] == phrase;
  }

  /** White space scans to nothing and parentheses to themselves. */
  lemma MarksScan(c: char, tail: string)
    ensures Tokenize("") == []
    ensures IsSpace(c) ==> Tokenize([c] + tail) == Tokenize(tail)
    ensures c == '(' ==> Tokenize([c] + tail) == [Open] + Tokenize(tail)
    ensures c == ')' ==> Tokenize([c] + tail) == [Close] + Tokenize(tail)
  {
    assert ([c] + tail)[1..] == tail;
  }

  /** A phrase scans to a term of the body, up to its closing mark or the end. */
  lemma PhraseScans(phrase: string, tail: string)
    requires '"' !in phrase
    ensures Tokenize(Quote(phrase, tail)) == [BodyToken(phrase, false)] + Tokenize(tail)
    ensures Tokenize(OpenQuote(phrase)) == [BodyToken(phrase, false)]
  {
    QuoteReadsBack(phrase, tail);
  }

  // ----- Which tokens have a text, and what it is.

  predicate IsWord(s: string) {
    forall i | 0 <= i < |s| :: !EndsWord(s[i])
  }

  /** The tokens the scanner can give. */
  predicate Lexable(token: Token) {
    token.TermToken? ==>
      var t := token.term;
      match t.kind
      case Body => if t.negated then IsWord(t.value) && !IsOperatorWord(t.value) else '"' !in t.value
      case Op(op) => IsWord(op) && op != "" && ':' !in op && Lower(op) == op && (t.negated || op[0] != '-') && '"' !in t.value
  }

  function TokenText(token: Token): string {
    match token
    case OrToken => "OR"
    case Open => "("
    case Close => ")"
    case TermToken(Term(Body, value, negated)) => if negated then "-" + value else ['"'] + value + ['"']
    case TermToken(Term(Op(op), value, negated)) => (if negated then "-" else "") + op + ":" + (['"'] + value + ['"'])
  }

  /** Every token behind a space. */
  function Print(tokens: seq<Token>): string {
    if tokens == [] then "" else " " + TokenText(tokens[0]) + Print(tokens[1..])
  }

  predicate AllLexable(tokens: seq<Token>) {
    forall i | 0 <= i < |tokens| :: Lexable(tokens[i])
  }

  // ----- The scanner gives lexable tokens only.

  lemma WordPart(s: string, from: nat, upto: nat)
    requires IsWord(s) && from <= upto <= |s|
    ensures IsWord(s[from..upto])
  {
    forall i | 0 <= i < upto - from ensures !EndsWord(s[from..upto][i]) {
      assert s[from..upto][i] == s[from + i];
    }
  }

  lemma LowerWord(s: string)
    requires IsWord(s)
    ensures IsWord(Lower(s)) && Lower(Lower(s)) == Lower(s)
    ensures ':' !in s ==> ':' !in Lower(s)
  {
    forall i | 0 <= i < |s| ensures !EndsWord(Lower(s)[i]) && (s[i] != ':' ==> Lower(s)[i] != ':') {
      assert !EndsWord(s[i]);
    }
  }

  lemma PhraseHasNoQuote(s: string)
    requires s != "" && s[0] == '"'
    ensures '"' !in Phrase(s).value
  {
    var i := FirstIndex(s[1..], '"');
    assert s[1..][..i] == s[1..i + 1];
  }

  lemma WordHasNoQuote(s: string)
    requires IsWord(s)
    ensures '"' !in s
  {
  }

  lemma OperatorIsLexable(clean: string, value: string, negated: bool)
    requires IsWord(clean) && IsOperatorWord(clean) && '"' !in value && (negated || clean[0] != '-')
    ensures Lexable(OperatorToken(clean, value, negated))
  {
    var i := FirstIndex(clean, ':');
    WordPart(clean, 0, i);
    LowerWord(clean[..i]);
    assert clean[..i][0] == clean[0];
  }

  lemma ValueHasNoQuote(clean: string, rest: string)
    requires IsWord(clean) && IsOperatorWord(clean)
    ensures '"' !in OperatorValue(clean, rest).value
  {
    var i := FirstIndex(clean, ':');
    WordPart(clean, i + 1, |clean|);
    WordHasNoQuote(clean[i + 1..]);
    if rest != "" && rest[0] == '"' { PhraseHasNoQuote(rest); }
  }

  lemma CleanIsWord(word: string)
    requires IsWord(word)
    ensures IsWord(Clean(word)) && (Clean(word) != word ==> word[0] == '-')
    ensures Clean(word) != "" ==> word[0] == '-' || Clean(word)[0] != '-'
  {
    WordPart(word, |word| - |Clean(word)|, |word|);
  }

  lemma ScannedWordIsLexable(word: string, rest: string)
    requires word != "" && IsWord(word)
    ensures AllLexable(ScanWord(word, rest).tokens)
  {
    var clean := Clean(word);
    CleanIsWord(word);
    WordHasNoQuote(clean);
    if IsOperatorWord(clean) {
      ValueHasNoQuote(clean, rest);
      OperatorIsLexable(clean, OperatorValue(clean, rest).value, word[0] == '-');
    }
  }

  lemma {:induction false} TokensAreLexable(s: string)
    ensures AllLexable(Tokenize(s))
    decreases |s|
  {
    if s != "" {
      TokensAreLexable(ScanOne(s).rest);
      if s[0] == '"' {
        PhraseHasNoQuote(s);
      } else if !EndsWord(s[0]) {
        var word := s[..WordEnd(s)];
        assert word[0] == s[0];
        ScannedWordIsLexable(word, s[WordEnd(s)..]);
      }
    }
  }

  // ----- Scanning a print gives the tokens back.

  /** What stands behind a printed token. */
  predicate Behind(tail: string) {
    tail == "" || tail[0] == ' '
  }

  lemma PhraseReadsBack(value: string, tail: string)
    requires '"' !in value
    ensures var s := ['"'] + value + ['"'] + tail; Phrase(s) == Quoted(value, tail)
  {
    var s := ['"'] + value + ['"'] + tail;
    assert s[1..] == value + (['"'] + tail);
    FirstIndexAt(value, '"', tail);
    assert s[1..|value| + 1] == value && s[|value| + 2..] == tail;
  }

  lemma {:induction false} WordEndAt(word: string, tail: string)
    requires IsWord(word) && (tail == "" || EndsWord(tail[0]))
    ensures WordEnd(word + tail) == |word|
    ensures (word + tail)[..|word|] == word && (word + tail)[|word|..] == tail
  {
    if word != "" {
      WordPart(word, 1, |word|);
      assert word[1..|word|] == word[1..];
      assert (word + tail)[1..] == word[1..] + tail;
      WordEndAt(word[1..], tail);
    }
  }

  lemma NotConnective(word: string)
    requires word != "" && (word[0] == '-' || Last(word) == ':')
    ensures Upper(word) != "OR" && Upper(word) != "AND"
  {
    assert Upper(word)[0] == UpperChar(word[0]) && Upper(word)[|word| - 1] == UpperChar(word[|word| - 1]);
    assert Last(word) == ':' ==> UpperChar(Last(word)) == ':';
    LastsOfConnectives();
  }

  lemma LastsOfConnectives()
    ensures |"OR"| == 2 && "OR"[0] == 'O' && "OR"[1] == 'R'
    ensures |"AND"| == 3 && "AND"[0] == 'A' && "AND"[2] == 'D'
  {
  }

  lemma NegatedWordReadsBack(value: string, tail: string)
    requires IsWord(value) && !IsOperatorWord(value) && Behind(tail)
    ensures ScanOne("-" + value + tail) == Scanned([TermToken(Term(Body, value, true))], tail)
  {
    var word := "-" + value;
    assert word[0] == '-' && word[1..] == value;
    forall i | 0 <= i < |word| ensures !EndsWord(word[i]) {
      if i > 0 { assert word[i] == value[i - 1]; }
    }
    WordEndAt(word, tail);
    NotConnective(word);
    assert (word + tail)[0] == '-';
  }

  /** A word that is an operator and a colon takes the phrase behind it as its value. */
  lemma ScanOperator(word: string, op: string, value: string, negated: bool, tail: string)
    requires word != "" && Clean(word) == op + ":" && (word[0] == '-' <==> negated) && Last(word) == ':'
    requires op != "" && ':' !in op && Lower(op) == op && '"' !in value
    ensures ScanWord(word, ['"'] + value + ['"'] + tail) == Scanned([TermToken(Term(Op(op), value, negated))], tail)
  {
    var clean := op + ":";
    NotConnective(word);
    PhraseReadsBack(value, tail);
    assert clean == op + ([':'] + "");
    FirstIndexAt(op, ':', "");
    assert clean[..|op|] == op;
  }

  lemma OperatorReadsBack(op: string, value: string, negated: bool, tail: string)
    requires Lexable(TermToken(Term(Op(op), value, negated))) && Behind(tail)
    ensures ScanOne(TokenText(TermToken(Term(Op(op), value, negated))) + tail)
         == Scanned([TermToken(Term(Op(op), value, negated))], tail)
  {
    var word := (if negated then "-" else "") + (op + ":");
    var phrase := ['"'] + value + ['"'] + tail;
    OperatorWord(op, negated);
    WordEndAt(word, phrase);
    ScanOperator(word, op, value, negated, tail);
    SameText(if negated then "-" else "", op, value, tail);
    ScanWordFirst(word, phrase);
  }

  lemma SameText(sign: string, op: string, value: string, tail: string)
    ensures sign + op + ":" + (['"'] + value + ['"']) + tail == sign + (op + ":") + (['"'] + value + ['"'] + tail)
  {
  }

  lemma ScanWordFirst(word: string, rest: string)
    requires word != "" && IsWord(word) && (rest == "" || EndsWord(rest[0]))
    ensures ScanOne(word + rest) == ScanWord(word, rest)
  {
    WordEndAt(word, rest);
    assert (word + rest)[0] == word[0];
  }

  lemma OperatorWord(op: string, negated: bool)
    requires IsWord(op) && op != "" && (negated || op[0] != '-')
    ensures var word := (if negated then "-" else "") + (op + ":");
      IsWord(word) && word != "" && Last(word) == ':' && (word[0] == '-' <==> negated) && Clean(word) == op + ":"
  {
    var word := (if negated then "-" else "") + (op + ":");
    var k := if negated then 1 else 0;
    forall i | 0 <= i < |word| ensures !EndsWord(word[i]) {
      if k <= i < k + |op| { assert word[i] == op[i - k]; }
    }
    assert word[k] == op[0];
    if negated { assert word[1..] == op + ":"; }
  }

  lemma OrReadsBack(tail: string)
    requires Behind(tail)
    ensures ScanOne("OR" + tail) == Scanned([OrToken], tail)
  {
    LastsOfConnectives();
    WordEndAt("OR", tail);
    assert ("OR" + tail)[0] == 'O';
    assert Upper("OR") == "OR";
  }

  lemma TokenReadsBack(token: Token, tail: string)
    requires Lexable(token) && Behind(tail)
    ensures TokenText(token) != "" && ScanOne(TokenText(token) + tail) == Scanned([token], tail)
  {
    var s := TokenText(token) + tail;
    match token
    case OrToken => OrReadsBack(tail);
    case Open => assert s[0] == '(' && s[1..] == tail;
    case Close => assert s[0] == ')' && s[1..] == tail;
    case TermToken(Term(Body, value, negated)) =>
      if negated {
        NegatedWordReadsBack(value, tail);
      } else {
        assert s == ['"'] + value + ['"'] + tail;
        PhraseReadsBack(value, tail);
      }
    case TermToken(Term(Op(op), value, negated)) => OperatorReadsBack(op, value, negated, tail);
  }

  lemma SpaceFirst(s: string)
    requires s != "" && s[0] == ' '
    ensures Tokenize(s) == Tokenize(s[1..])
  {
    TokenizeOne(s, [], s[1..]);
  }

  lemma DropSpace(text: string, rest: string)
    ensures (" " + text + rest)[0] == ' ' && (" " + text + rest)[1..] == text + rest
  {
  }

  lemma TokenizeBehindSpace(s: string, token: Token, rest: string)
    requires |s| > 1 && s[0] == ' ' && ScanOne(s[1..]) == Scanned([token], rest)
    ensures Tokenize(s) == [token] + Tokenize(rest)
  {
    SpaceFirst(s);
    TokenizeOne(s[1..], [token], rest);
  }

  /** Scanning the print of any lexable tokens gives them back, and every text scans to such tokens. */
  lemma {:induction false} ScanUndoesPrint(tokens: seq<Token>)
    requires AllLexable(tokens)
    ensures Tokenize(Print(tokens)) == tokens
  {
    if tokens != [] {
      var first, rest := tokens[0], Print(tokens[1..]);
      TokenReadsBack(first, rest);
      DropSpace(TokenText(first), rest);
      TokenizeBehindSpace(Print(tokens), first, rest);
      ScanUndoesPrint(tokens[1..]);
    }
  }

  lemma LexableIffScanned(tokens: seq<Token>)
    ensures AllLexable(tokens) <==> exists s :: Tokenize(s) == tokens
  {
    if AllLexable(tokens) {
      ScanUndoesPrint(tokens);
    }
    forall s | Tokenize(s) == tokens ensures AllLexable(tokens) {
      TokensAreLexable(s);
    }
  }

  // ----- The whole of `parse`.

  /** Lines 34 to 37: the lines that are neither empty nor a lone OR. */
  function KeptLines(pieces: seq<string>): seq<string> {
    if pieces == [] then []
    else
      var line := Trim(pieces[0]);
      (if line == "" || Upper(line) == "OR" then [] else [line]) + KeptLines(pieces[1..])
  }

  function TokenLines(lines: seq<string>): seq<seq<Token>> {
    seq(|lines|, i requires 0 <= i < |lines| => Tokenize(lines[i]))
  }

  /** `GmailQueryParser.parse`, lines 29 to 53. */
  function ParseText(query: string): QueryLowering.ParsedQuery {
    if Trim(query) == "" then QueryLowering.ParsedQuery([QueryLowering.EVERYTHING], [])
    else QueryLowering.ParseLines(QueryLowering.Trees(TokenLines(KeptLines(SplitOn(query, '\n')))))
  }

  method TokenizeLines(lines: seq<string>) returns (tokenLines: seq<seq<Token>>)
    ensures tokenLines == TokenLines(lines)
  {
    tokenLines := [];
    for i := 0 to |lines|
      invariant tokenLines == TokenLines(lines[..i])
    {
      var tokens := RunTokenize(lines[i]);
      tokenLines := tokenLines + [tokens];
    }
    assert lines[..|lines|] == lines;
  }

  method Parse(query: string) returns (q: QueryLowering.ParsedQuery)
    ensures q == ParseText(query)
  {
    if Trim(query) == "" { return QueryLowering.ParsedQuery([QueryLowering.EVERYTHING], []); }
    var tokenLines := TokenizeLines(KeptLines(SplitOn(query, '\n')));
    q := QueryLowering.RunParse(tokenLines);
  }

  // ----- A tree written out as text means what the tree means.

  lemma TokenIsSolid(token: Token)
    requires Lexable(token)
    ensures Solid(TokenText(token))
  {
    var s := TokenText(token);
    LastsOfConnectives();
    match token
    case TermToken(Term(Body, value, negated)) =>
      assert s[0] == if negated then '-' else '"';
      if negated && value != "" { assert s[|s| - 1] == value[|value| - 1] && !EndsWord(value[|value| - 1]); }
      if !negated { assert s[|s| - 1] == '"'; }
    case TermToken(Term(Op(op), value, negated)) =>
      assert s[|s| - 1] == '"';
      assert !EndsWord(op[0]);
      assert s[0] == if negated then '-' else op[0];
    case _ =>
  }

  lemma {:induction false} PrintEndsSolid(tokens: seq<Token>)
    requires AllLexable(tokens) && tokens != []
    ensures Print(tokens) != "" && !IsSpace(Last(Print(tokens)))
  {
    TokenIsSolid(tokens[0]);
    if |tokens| > 1 {
      PrintEndsSolid(tokens[1..]);
    }
  }

  /** The print without its leading space. */
  lemma PrintBody(tokens: seq<Token>)
    requires AllLexable(tokens) && tokens != []
    ensures Print(tokens)[0] == ' ' && Solid(Print(tokens)[1..])
    ensures Print(tokens)[1..] == TokenText(tokens[0]) + Print(tokens[1..])
  {
    TokenIsSolid(tokens[0]);
    PrintEndsSolid(tokens);
    BehindSpace(TokenText(tokens[0]), Print(tokens[1..]));
  }

  lemma BehindSpace(text: string, rest: string)
    requires Solid(text)
    ensures var s := " " + text + rest;
      s[0] == ' ' && s[1..] == text + rest && (!IsSpace(Last(s)) ==> Solid(s[1..]))
  {
    var s := " " + text + rest;
    assert s[1..] == text + rest;
    assert s[1] == text[0] && Last(s[1..]) == Last(s);
  }

  lemma TrimOfSolid(s: string)
    requires s != "" && s[0] == ' ' && Solid(s[1..])
    ensures Trim(s) == s[1..] && Trim(s) != "" && Trim(s[1..]) == s[1..]
  {
    assert TrimStart(s) == TrimStart(s[1..]) == s[1..];
    assert TrimEnd(s[1..]) == s[1..];
  }

  /** A tree's print starts with a term or an opening parenthesis. */
  lemma {:induction false} FirstToken(ast: Ast)
    requires Normal(ast)
    ensures StartsAtom(PrintOr(ast)) && StartsAtom(PrintAnd(ast))
    decreases ast
  {
    match ast
    case Leaf(_) =>
    case And(cs) =>
      AtomReadsBack(cs[0], PrintAtoms(cs[1..]));
      assert PrintOr(ast) == PrintAnd(ast) == PrintAtom(cs[0]) + PrintAtoms(cs[1..]);
    case Or(cs) =>
      FirstToken(cs[0]);
      AtomReadsBack(ast, []);
      assert PrintAtom(ast) + [] == PrintAtom(ast);
  }

  /** Such a print is no lone OR. */
  lemma NotLoneOr(tokens: seq<Token>)
    requires AllLexable(tokens) && StartsAtom(tokens)
    ensures Upper(Print(tokens)[1..]) != "OR"
  {
    PrintBody(tokens);
    LastsOfConnectives();
    var text, body := TokenText(tokens[0]), Print(tokens)[1..];
    assert text <= body;
    assert Upper(body)[0] == UpperChar(body[0]);
    match tokens[0]
    case Open => assert body[0] == '(';
    case TermToken(Term(Body, value, negated)) => assert body[0] == if negated then '-' else '"';
    case TermToken(Term(Op(op), value, negated)) => assert |text| >= 4;
  }

  // ----- Lines.

  lemma {:induction false} KeptLinesOfBoth(a: seq<string>, b: seq<string>)
    ensures KeptLines(a + b) == KeptLines(a) + KeptLines(b)
  {
    if a == [] {
      assert a + b == b;
    } else {
      var line := Trim(a[0]);
      assert (a + b)[0] == a[0] && (a + b)[1..] == a[1..] + b;
      KeptLinesOfBoth(a[1..], b);
      Associates(if line == "" || Upper(line) == "OR" then [] else [line], KeptLines(a[1..]), KeptLines(b));
    }
  }

  /** A line counts without the white space around it, and not at all when it is blank or says just "or", in any case. */
  lemma KeptLineIs(a: string, s: string, b: string)
    requires AllSpace(a) && AllSpace(b) && (s == "" || Solid(s))
    ensures KeptLines([a + s + b]) == if s == "" || IsOr(s) then [] else [s]
  {
    TrimIs(a, s, b);
    ConnectivesInAnyCase(s);
    assert [a + s + b][1..] == [];
  }

  lemma {:induction false} TrimKeeps(s: string, i: nat)
    requires i < |s| && !IsSpace(s[i])
    ensures Trim(s) != ""
  {
    if IsSpace(s[0]) {
      TrimKeeps(s[1..], i - 1);
    } else {
      TrimEndKeeps(s);
    }
  }

  lemma {:induction false} TrimEndKeeps(s: string)
    requires s != "" && !IsSpace(s[0])
    ensures TrimEnd(s) != ""
  {
    if IsSpace(Last(s)) {
      TrimEndKeeps(Init(s));
    }
  }

  // ----- Queries written out on lines.

  function TextOf(ast: Ast): string {
    Print(PrintOr(ast))
  }

  /** A tree with its terms lexable, on one line, and without the key `all` among its own. */
  ghost predicate Writable(ast: Ast) {
    Normal(ast) && AllLexable(PrintOr(ast)) && '\n' !in TextOf(ast) && "all" !in QueryLowering.TopKeys(ast)
  }

  ghost predicate AllWritable(asts: seq<Ast>) {
    forall i | 0 <= i < |asts| :: Writable(asts[i])
  }

  function Texts(asts: seq<Ast>): seq<string> {
    seq(|asts|, i requires 0 <= i < |asts| => TextOf(asts[i]))
  }

  lemma TextIsKept(ast: Ast)
    requires Writable(ast)
    ensures |TextOf(ast)| > 1 && !IsSpace(TextOf(ast)[1])
    ensures KeptLines([TextOf(ast)]) == [TextOf(ast)[1..]] && Tokenize(TextOf(ast)[1..]) == PrintOr(ast)
  {
    FirstToken(ast);
    PrintIsKept(PrintOr(ast), TextOf(ast));
  }

  lemma PrintIsKept(tokens: seq<Token>, text: string)
    requires AllLexable(tokens) && StartsAtom(tokens) && text == Print(tokens)
    ensures |text| > 1 && !IsSpace(text[1])
    ensures KeptLines([text]) == [text[1..]] && Tokenize(text[1..]) == tokens
  {
    PrintBody(tokens);
    NotLoneOr(tokens);
    TrimOfSolid(text);
    ScanUndoesPrint(tokens);
    SpaceFirst(text);
    assert [text][1..] == [];
  }

  lemma {:induction false} EachIsKept(texts: seq<string>, lines: seq<string>)
    requires |texts| == |lines| && forall i | 0 <= i < |texts| :: KeptLines([texts[i]]) == [lines[i]]
    ensures KeptLines(texts) == lines
  {
    if texts != [] {
      var first, rest := texts[0], texts[1..];
      assert texts == [first] + rest && lines == [lines[0]] + lines[1..];
      KeptLinesOfBoth([first], rest);
      EachIsKept(rest, lines[1..]);
    }
  }

  lemma TextsAreKept(asts: seq<Ast>)
    requires AllWritable(asts)
    ensures TokenLines(KeptLines(Texts(asts))) == QueryLowering.PrintedLines(asts)
  {
    var lines := seq(|asts|, i requires 0 <= i < |asts| => if |TextOf(asts[i])| > 0 then TextOf(asts[i])[1..] else "");
    forall i | 0 <= i < |asts| ensures KeptLines([Texts(asts)[i]]) == [lines[i]] && Tokenize(lines[i]) == PrintOr(asts[i]) {
      TextIsKept(asts[i]);
    }
    EachIsKept(Texts(asts), lines);
  }

  /** Written out line by line and parsed, queries ask for exactly the messages that one of them means: for all normal
      trees with lexable terms, each on one line and without the key `all` among its own. */
  lemma LinesMeanQueries(w: QueryLowering.Setting, asts: seq<Ast>)
    requires asts != [] && AllWritable(asts)
    ensures QueryLowering.SatAny(w, ParseText(JoinedBy(Texts(asts), '\n')).imapQueries) <==>
      exists i | 0 <= i < |asts| :: QueryLowering.MeansNode(w, asts[i])
  {
    var text := JoinedBy(Texts(asts), '\n');
    TextIsKept(asts[0]);
    JoinedKeepsFirst(Texts(asts), '\n');
    assert text[1] == TextOf(asts[0])[1];
    TrimKeeps(text, 1);
    SplitOfJoinedBy(Texts(asts), '\n');
    TextsAreKept(asts);
    QueryLowering.SearchMeansQueries(w, asts);
  }

  /** On one line: the messages the tree means. */
  lemma TextMeansQuery(w: QueryLowering.Setting, ast: Ast)
    requires Writable(ast)
    ensures QueryLowering.SatAny(w, ParseText(TextOf(ast)).imapQueries) <==> QueryLowering.MeansNode(w, ast)
  {
    LinesMeanQueries(w, [ast]);
    assert Texts([ast]) == [TextOf(ast)];
    assert [ast][0] == ast;
  }
}
