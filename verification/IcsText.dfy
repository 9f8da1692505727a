/** Text escaping and line folding of iCalendar (packages/mail-service/src/dav-client.ts, lines 35 to 55).

    A character stands for one UTF-16 code unit, which it is in texts without characters beyond the basic plane;
    other texts are not part of this model. */
module IcsText {
  import opened Common

  const LF := '\n'
  const CR := '\r'
  const BACKSLASH := '\\'
  const CRLF := "\r\n"
  const FOLD_WIDTH := 75

  /** `s.replace(/a/g, put)` for a single character a. */
  function ReplaceChar(s: string, a: char, put: string): string {
    if s == [] then [] else (if s[0] == a then put else [s[0]]) + ReplaceChar(s[1..], a, put)
  }

  /** `s.replace(/ab/g, put)`: leftmost matches first, never overlapping. */
  function ReplacePair(s: string, a: char, b: char, put: char): string {
    if s == [] then []
    else if |s| >= 2 && s[0] == a && s[1] == b then [put] + ReplacePair(s[2..], a, b, put)
    else [s[0]] + ReplacePair(s[1..], a, b, put)
  }

  function EscapeIcs(s: string): string {
    ReplaceChar(ReplaceChar(ReplaceChar(ReplaceChar(s, BACKSLASH, "\\\\"), ';', "\\;"), ',', "\\,"), LF, "\\n")
  }

  function UnescapeIcs(s: string): string {
    ReplacePair(ReplacePair(ReplacePair(ReplacePair(s, BACKSLASH, 'n', LF), BACKSLASH, ';', ';'), BACKSLASH, ',', ','),
                BACKSLASH, BACKSLASH, BACKSLASH)
  }

  // ---- Escaping, character by character ----

  function Escaped(c: char): string {
    if c == BACKSLASH then "\\\\" else if c == ';' then "\\;" else if c == ',' then "\\," else if c == LF then "\\n" else [c]
  }

  lemma {:induction false} ReplaceCharConcat(s: string, t: string, a: char, put: string)
    ensures ReplaceChar(s + t, a, put) == ReplaceChar(s, a, put) + ReplaceChar(t, a, put)
  {
    if s == [] {
      assert s + t == t;
    } else {
      ReplaceCharConcat(s[1..], t, a, put);
      assert (s + t)[1..] == s[1..] + t && (s + t)[0] == s[0];
      Associates(if s[0] == a then put else [s[0]], ReplaceChar(s[1..], a, put), ReplaceChar(t, a, put));
    }
  }

  lemma ReplaceOne(c: char, a: char, put: string)
    ensures ReplaceChar([c], a, put) == if c == a then put else [c]
  {
    assert ReplaceChar([], a, put) == [];
  }

  lemma ReplaceTwo(c: char, d: char, a: char, put: string)
    requires c != a && d != a
    ensures ReplaceChar([c, d], a, put) == [c, d]
  {
    assert [c, d][1..] == [d];
    ReplaceOne(d, a, put);
  }

  lemma EscapeOne(c: char)
    ensures EscapeIcs([c]) == Escaped(c)
  {
    ReplaceOne(c, BACKSLASH, "\\\\");
    if c == BACKSLASH {
      ReplaceTwo(BACKSLASH, BACKSLASH, ';', "\\;");
      ReplaceTwo(BACKSLASH, BACKSLASH, ',', "\\,");
      ReplaceTwo(BACKSLASH, BACKSLASH, LF, "\\n");
    } else {
      ReplaceOne(c, ';', "\\;");
      if c == ';' {
        ReplaceTwo(BACKSLASH, ';', ',', "\\,");
        ReplaceTwo(BACKSLASH, ';', LF, "\\n");
      } else {
        ReplaceOne(c, ',', "\\,");
        if c == ',' {
          ReplaceTwo(BACKSLASH, ',', LF, "\\n");
        } else {
          ReplaceOne(c, LF, "\\n");
        }
      }
    }
  }

  lemma EscapeCons(t: string)
    requires t != []
    ensures EscapeIcs(t) == Escaped(t[0]) + EscapeIcs(t[1..])
  {
    var h, r := [t[0]], t[1..];
    assert t == h + r;
    EscapeOne(t[0]);
    ReplaceCharConcat(h, r, BACKSLASH, "\\\\");
    var h1, r1 := ReplaceChar(h, BACKSLASH, "\\\\"), ReplaceChar(r, BACKSLASH, "\\\\");
    ReplaceCharConcat(h1, r1, ';', "\\;");
    var h2, r2 := ReplaceChar(h1, ';', "\\;"), ReplaceChar(r1, ';', "\\;");
    ReplaceCharConcat(h2, r2, ',', "\\,");
    ReplaceCharConcat(ReplaceChar(h2, ',', "\\,"), ReplaceChar(r2, ',', "\\,"), LF, "\\n");
  }

  /** Escaped text holds no line feed, so it stays on one line. */
  lemma {:induction false} EscapedHasNoLf(t: string)
    ensures LF !in EscapeIcs(t)
  {
    if t != [] {
      EscapedHasNoLf(t[1..]);
      EscapeCons(t);
    }
  }

  // ---- What unescaping gives back ----

  /** The text with every `n` that follows a backslash turned into a line feed. */
  function Slip(t: string): string {
    Stage(t, 4)
  }

  /** Escaped text after the first `done` of the four replacements of `unescapeIcs`. */
  function Stage(t: string, done: int): string {
    if t == [] then []
    else if t[0] == BACKSLASH && |t| > 1 && t[1] == 'n' then [BACKSLASH, LF] + Stage(t[2..], done)
    else StageOne(t[0], done) + Stage(t[1..], done)
  }

  function StageOne(c: char, done: int): string {
    if c == BACKSLASH then (if done >= 4 then "\\" else "\\\\")
    else if c == ';' && done < 2 then "\\;"
    else if c == ',' && done < 3 then "\\,"
    else [c]
  }

  lemma PairMiss(c: char, s: string, a: char, b: char, put: char)
    requires !(c == a && s != [] && s[0] == b)
    ensures ReplacePair([c] + s, a, b, put) == [c] + ReplacePair(s, a, b, put)
  {
    assert ([c] + s)[1..] == s;
  }

  lemma PairHit(s: string, a: char, b: char, put: char)
    ensures ReplacePair([a, b] + s, a, b, put) == [put] + ReplacePair(s, a, b, put)
  {
    assert ([a, b] + s)[2..] == s;
  }

  predicate Slips(t: string) {
    |t| > 1 && t[0] == BACKSLASH && t[1] == 'n'
  }

  lemma StageSlips(t: string, done: int)
    requires Slips(t)
    ensures Stage(t, done) == [BACKSLASH] + ([LF] + Stage(t[2..], done))
  {
  }

  lemma StageStays(t: string, done: int)
    requires t != [] && !Slips(t)
    ensures Stage(t, done) == StageOne(t[0], done) + Stage(t[1..], done)
  {
  }

  /** The first replacement on one escaped character, when what follows does not complete a pair. */
  lemma FirstStageOne(x: char, rest: string)
    requires x == BACKSLASH ==> rest == [] || rest[0] != 'n'
    ensures ReplacePair(Escaped(x) + rest, BACKSLASH, 'n', LF) == StageOne(x, 1) + ReplacePair(rest, BACKSLASH, 'n', LF)
  {
    if x == LF {
      assert Escaped(x) == [BACKSLASH, 'n'];
      PairHit(rest, BACKSLASH, 'n', LF);
    } else if x == BACKSLASH || x == ';' || x == ',' {
      assert Escaped(x) == [BACKSLASH, x] == StageOne(x, 1);
      TwoMisses(x, rest, 'n', LF);
    } else {
      PairMiss(x, rest, BACKSLASH, 'n', LF);
    }
  }

  /** An escape sequence that a replacement of another one passes over. */
  lemma TwoMisses(x: char, rest: string, b: char, put: char)
    requires x != b && !(x == BACKSLASH && rest != [] && rest[0] == b)
    ensures ReplacePair([BACKSLASH, x] + rest, BACKSLASH, b, put) == [BACKSLASH, x] + ReplacePair(rest, BACKSLASH, b, put)
  {
    assert [BACKSLASH, x] + rest == [BACKSLASH] + ([x] + rest);
    PairMiss(BACKSLASH, [x] + rest, BACKSLASH, b, put);
    PairMiss(x, rest, BACKSLASH, b, put);
    assert [BACKSLASH] + ([x] + ReplacePair(rest, BACKSLASH, b, put)) == [BACKSLASH, x] + ReplacePair(rest, BACKSLASH, b, put);
  }

  /** An escaped backslash and an `n`. */
  lemma FirstStageSlip(rest: string)
    ensures ReplacePair("\\\\" + (['n'] + rest), BACKSLASH, 'n', LF) == [BACKSLASH] + ([LF] + ReplacePair(rest, BACKSLASH, 'n', LF))
  {
    assert "\\\\" + (['n'] + rest) == [BACKSLASH] + ([BACKSLASH, 'n'] + rest);
    PairMiss(BACKSLASH, [BACKSLASH, 'n'] + rest, BACKSLASH, 'n', LF);
    PairHit(rest, BACKSLASH, 'n', LF);
  }

  /** Only an `n` is escaped to a text that starts with `n`. */
  lemma EscapedHead(t: string)
    requires t != []
    ensures EscapeIcs(t) != [] && (EscapeIcs(t)[0] == 'n' <==> t[0] == 'n')
  {
    EscapeCons(t);
  }

  lemma {:induction false} FirstStage(t: string)
    ensures ReplacePair(EscapeIcs(t), BACKSLASH, 'n', LF) == Stage(t, 1)
    decreases |t|
  {
    if t == [] {
    } else if Slips(t) {
      FirstStage(t[2..]);
      EscapeCons(t);
      EscapeCons(t[1..]);
      assert t[1..][1..] == t[2..];
      FirstStageSlip(EscapeIcs(t[2..]));
      StageSlips(t, 1);
    } else {
      FirstStage(t[1..]);
      EscapeCons(t);
      if |t| > 1 { EscapedHead(t[1..]); }
      FirstStageOne(t[0], EscapeIcs(t[1..]));
      StageStays(t, 1);
    }
  }

  lemma MiddleStageOne(x: char, rest: string, done: int, c: char)
    requires (done == 1 && c == ';') || (done == 2 && c == ',')
    requires rest == [] || rest[0] != c
    ensures ReplacePair(StageOne(x, done) + rest, BACKSLASH, c, c) == StageOne(x, done + 1) + ReplacePair(rest, BACKSLASH, c, c)
  {
    if x == c {
      PairHit(rest, BACKSLASH, c, c);
    } else if |StageOne(x, done)| == 2 {
      var y := StageOne(x, done)[1];
      assert StageOne(x, done) == [BACKSLASH, y] == StageOne(x, done + 1);
      TwoMisses(y, rest, c, c);
    } else {
      PairMiss(x, rest, BACKSLASH, c, c);
    }
  }

  /** A slipped pair passes the later replacements. */
  lemma SlipPasses(rest: string, c: char)
    requires c != LF
    ensures ReplacePair([BACKSLASH] + ([LF] + rest), BACKSLASH, c, c) == [BACKSLASH] + ([LF] + ReplacePair(rest, BACKSLASH, c, c))
  {
    PairMiss(BACKSLASH, [LF] + rest, BACKSLASH, c, c);
    PairMiss(LF, rest, BACKSLASH, c, c);
  }

  lemma StageHead(t: string, done: int, c: char)
    requires (done == 1 && c == ';') || (done == 2 && c == ',')
    ensures Stage(t, done) == [] || Stage(t, done)[0] != c
  {
    if t != [] {
      if Slips(t) { StageSlips(t, done); } else { StageStays(t, done); }
    }
  }

  /** The second and the third replacement: `;`, then `,`. */
  lemma {:induction false} MiddleStage(t: string, done: int, c: char)
    requires (done == 1 && c == ';') || (done == 2 && c == ',')
    ensures ReplacePair(Stage(t, done), BACKSLASH, c, c) == Stage(t, done + 1)
    decreases |t|
  {
    if t == [] {
    } else if Slips(t) {
      MiddleStage(t[2..], done, c);
      StageSlips(t, done);
      StageSlips(t, done + 1);
      SlipPasses(Stage(t[2..], done), c);
    } else {
      MiddleStage(t[1..], done, c);
      StageStays(t, done);
      StageStays(t, done + 1);
      StageHead(t[1..], done, c);
      MiddleStageOne(t[0], Stage(t[1..], done), done, c);
    }
  }

  lemma LastStageOne(x: char, rest: string)
    ensures ReplacePair(StageOne(x, 3) + rest, BACKSLASH, BACKSLASH, BACKSLASH)
         == StageOne(x, 4) + ReplacePair(rest, BACKSLASH, BACKSLASH, BACKSLASH)
  {
    if x == BACKSLASH {
      PairHit(rest, BACKSLASH, BACKSLASH, BACKSLASH);
    } else {
      PairMiss(x, rest, BACKSLASH, BACKSLASH, BACKSLASH);
    }
  }

  lemma {:induction false} LastStage(t: string)
    ensures ReplacePair(Stage(t, 3), BACKSLASH, BACKSLASH, BACKSLASH) == Stage(t, 4)
    decreases |t|
  {
    if t == [] {
    } else if Slips(t) {
      LastStage(t[2..]);
      StageSlips(t, 3);
      StageSlips(t, 4);
      SlipPasses(Stage(t[2..], 3), BACKSLASH);
    } else {
      LastStage(t[1..]);
      StageStays(t, 3);
      StageStays(t, 4);
      LastStageOne(t[0], Stage(t[1..], 3));
    }
  }

  /** For every text, escaping and unescaping gives the text with each backslash-n slipped to a line feed. */
  lemma UnescapeEscape(t: string)
    ensures UnescapeIcs(EscapeIcs(t)) == Slip(t)
  {
    FirstStage(t);
    MiddleStage(t, 1, ';');
    MiddleStage(t, 2, ',');
    LastStage(t);
  }

  lemma {:induction false} SlipLength(t: string)
    ensures |Slip(t)| == |t|
    decreases |t|
  {
    if t == [] {
    } else if Slips(t) {
      StageSlips(t, 4);
      SlipLength(t[2..]);
    } else {
      StageStays(t, 4);
      SlipLength(t[1..]);
    }
  }

  /** The character at i. */
  lemma {:induction false} SlipAt(t: string, i: nat)
    requires i < |t|
    ensures |Slip(t)| == |t|
    ensures Slip(t)[i] == if i > 0 && t[i - 1] == BACKSLASH && t[i] == 'n' then LF else t[i]
    decreases |t|
  {
    SlipLength(t);
    if Slips(t) {
      StageSlips(t, 4);
      if i > 1 {
        SlipAt(t[2..], i - 2);
        assert t[2..][i - 2] == t[i];
        assert i > 2 ==> t[2..][i - 3] == t[i - 1];
      }
    } else {
      StageStays(t, 4);
      if i > 0 {
        SlipAt(t[1..], i - 1);
        assert t[1..][i - 1] == t[i];
        assert i > 1 ==> t[1..][i - 2] == t[i - 1];
      }
    }
  }

  predicate HasBackslashN(t: string) {
    exists i :: 0 < i < |t| && t[i - 1] == BACKSLASH && t[i] == 'n'
  }

  /** The escape round-trips exactly the texts without a backslash followed by `n`. */
  lemma EscapeRoundTripsIff(t: string)
    ensures UnescapeIcs(EscapeIcs(t)) == t <==> !HasBackslashN(t)
  {
    UnescapeEscape(t);
    SlipLength(t);
    if HasBackslashN(t) {
      var i :| 0 < i < |t| && t[i - 1] == BACKSLASH && t[i] == 'n';
      SlipAt(t, i);
    } else {
      forall i | 0 <= i < |t| ensures Slip(t)[i] == t[i] {
        SlipAt(t, i);
        assert i > 0 && t[i - 1] == BACKSLASH ==> t[i] != 'n';
      }
    }
  }

  // ---- Folding ----

  function Fold(line: string): string {
    if |line| <= FOLD_WIDTH then line else line[..FOLD_WIDTH] + CRLF + " " + Fold(line[FOLD_WIDTH..])
  }

  lemma FoldStep(line: string, head: string, tail: string)
    requires |line| > FOLD_WIDTH && head == line[..FOLD_WIDTH] && tail == line[FOLD_WIDTH..]
    ensures Fold(line) == (head + CRLF + " ") + Fold(tail)
  {
  }

  /** `foldIcsLine`, lines 39 to 47 */
  method FoldIcsLine(line: string) returns (result: string)
    ensures result == Fold(line)
  {
    if |line| <= FOLD_WIDTH { return line; }
    result := "";
    var rest := line;
    while |rest| > FOLD_WIDTH
      invariant result + Fold(rest) == Fold(line)
    {
      var head, tail := rest[..FOLD_WIDTH], rest[FOLD_WIDTH..];
      FoldStep(rest, head, tail);
      Associates(result, head + CRLF + " ", Fold(tail));
      result, rest := result + (head + CRLF + " "), tail;
    }
    result := result + rest;
  }

  function Pieces(line: string): (ps: seq<string>)
    ensures ps != []
  {
    if |line| <= 75 then [line] else [line[..75]] + Pieces(line[75..])
  }

  function Concatenated(ps: seq<string>): string {
    if ps == [] then "" else ps[0] + Concatenated(ps[1..])
  }

  /** The pieces on lines of their own, each but the first behind a space. */
  function OnLines(ps: seq<string>): string {
    if ps == [] then "" else if |ps| == 1 then ps[0] else ps[0] + "\r\n" + " " + OnLines(ps[1..])
  }

  /** The pieces are the line, cut into stretches of 75 characters and a last one of at most 75; */
  lemma {:induction false} PiecesAre(line: string)
    ensures var ps := Pieces(line);
      && Concatenated(ps) == line
      && (forall i | 0 <= i < |ps| - 1 :: |ps[i]| == 75)
      && |Last(ps)| <= 75 && (line != "" ==> Last(ps) != "")
  {
    if |line| > 75 {
      PiecesAre(line[75..]);
      PiecesCons(line[..75], Pieces(line[75..]));
      assert line == line[..75] + line[75..];
    } else {
      assert [line][1..] == [] && line + "" == line;
    }
  }

  lemma PiecesCons(first: string, rest: seq<string>)
    requires rest != []
    ensures ([first] + rest)[1..] == rest && Last([first] + rest) == Last(rest)
    ensures forall i | 0 < i < |[first] + rest| :: ([first] + rest)[i] == rest[i - 1]
  {
  }

  /** and a folded line holds them one below the other, so no line of it has more than 76 characters, the space counted. */
  lemma {:induction false} FoldIsPieces(line: string)
    ensures Fold(line) == OnLines(Pieces(line))
  {
    if |line| > 75 {
      FoldIsPieces(line[75..]);
      PiecesCons(line[..75], Pieces(line[75..]));
    }
  }

  /** `raw.replace(/\r\n[ \t]/g, "")` */
  function DropCrlfBlank(s: string): string {
    if s == [] then []
    else if |s| >= 3 && s[0] == CR && s[1] == LF && IsBlank(s[2]) then DropCrlfBlank(s[3..])
    else [s[0]] + DropCrlfBlank(s[1..])
  }

  /** `raw.replace(/\n[ \t]/g, "")` */
  function DropLfBlank(s: string): string {
    if s == [] then []
    else if |s| >= 2 && s[0] == LF && IsBlank(s[1]) then DropLfBlank(s[2..])
    else [s[0]] + DropLfBlank(s[1..])
  }

  function UnfoldIcs(raw: string): string {
    DropLfBlank(DropCrlfBlank(raw))
  }

  /** A character that begins no break with a blank behind it stays. */
  lemma CharStays(s: string, tail: string)
    requires s != "" && tail == s[1..] && (s[0] != CR || tail == "" || tail[0] != LF)
    ensures DropCrlfBlank(s) == [s[0]] + DropCrlfBlank(tail)
  {
  }

  lemma {:induction false} CrlfPasses(line: string, rest: string)
    requires LF !in line && (rest == [] || rest[0] != LF)
    ensures DropCrlfBlank(line + rest) == line + DropCrlfBlank(rest)
  {
    if line == [] {
      assert line + rest == rest;
    } else {
      var s, tail := line + rest, line[1..] + rest;
      assert s[1..] == tail && s[0] == line[0] && line == [line[0]] + line[1..];
      assert tail != "" && |line| > 1 ==> tail[0] == line[1];
      CharStays(s, tail);
      CrlfPasses(line[1..], rest);
      Associates([line[0]], line[1..], DropCrlfBlank(rest));
    }
  }

  lemma {:induction false} LfPasses(line: string, rest: string)
    requires LF !in line
    ensures DropLfBlank(line + rest) == line + DropLfBlank(rest)
  {
    if line == [] {
      assert line + rest == rest;
    } else {
      assert (line + rest)[1..] == line[1..] + rest;
      LfPasses(line[1..], rest);
    }
  }

  lemma CrlfBlankDrops(rest: string)
    ensures DropCrlfBlank(CRLF + " " + rest) == DropCrlfBlank(rest)
  {
    assert (CRLF + " " + rest)[3..] == rest;
  }

  lemma FoldPassesOnce(head: string, folded: string, tail: string, rest: string)
    requires LF !in head
    requires DropCrlfBlank(folded + rest) == tail + DropCrlfBlank(rest)
    ensures DropCrlfBlank((head + CRLF + " " + folded) + rest) == (head + tail) + DropCrlfBlank(rest)
  {
    assert (head + CRLF + " " + folded) + rest == head + (CRLF + " " + (folded + rest));
    CrlfPasses(head, CRLF + " " + (folded + rest));
    CrlfBlankDrops(folded + rest);
    assert head + (tail + DropCrlfBlank(rest)) == (head + tail) + DropCrlfBlank(rest);
  }

  /** A folded line unfolds in front of any text that does not start with a line feed. */
  lemma {:induction false} FoldPasses(line: string, rest: string)
    requires LF !in line && (rest == [] || rest[0] != LF)
    ensures DropCrlfBlank(Fold(line) + rest) == line + DropCrlfBlank(rest)
    decreases |line|
  {
    if |line| <= FOLD_WIDTH {
      CrlfPasses(line, rest);
    } else {
      var head, tail := line[..FOLD_WIDTH], line[FOLD_WIDTH..];
      FoldPasses(tail, rest);
      FoldPassesOnce(head, Fold(tail), tail, rest);
      assert head + tail == line;
    }
  }

  /** Unfolding undoes folding on every line without a line feed. */
  lemma UnfoldFold(line: string)
    requires LF !in line
    ensures UnfoldIcs(Fold(line)) == line
  {
    FoldPasses(line, []);
    LfPasses(line, []);
    assert Fold(line) + [] == Fold(line);
    assert line + [] == line;
  }

  lemma {:induction false} LfStays(line: string, rest: string)
    requires LF !in line && (line == "" || Last(line) != CR)
    ensures DropCrlfBlank(line + rest) == line + DropCrlfBlank(rest)
  {
    if line == [] {
      assert line + rest == rest;
    } else {
      var s, tail := line + rest, line[1..] + rest;
      assert s[1..] == tail && s[0] == line[0] && line == [line[0]] + line[1..];
      if |line| > 1 { assert tail[0] == line[1] && Last(line[1..]) == Last(line); }
      CharStays(s, tail);
      LfStays(line[1..], rest);
      Associates([line[0]], line[1..], DropCrlfBlank(rest));
    }
  }

  lemma NothingDropped(s: string)
    requires LF !in s
    ensures DropCrlfBlank(s) == s && DropLfBlank(s) == s
  {
    CrlfPasses(s, []);
    LfPasses(s, []);
    assert s + [] == s;
  }

  lemma DropsCrlf(blank: char, second: string)
    requires LF !in second && IsBlank(blank)
    ensures DropCrlfBlank(CRLF + ([blank] + second)) == second
  {
    NothingDropped(second);
    assert (CRLF + ([blank] + second))[3..] == second;
  }

  lemma DropsLf(blank: char, second: string)
    requires LF !in second && IsBlank(blank)
    ensures var s := [LF] + ([blank] + second); DropCrlfBlank(s) == s && DropLfBlank(s) == second
  {
    var s := [LF] + ([blank] + second);
    NothingDropped(second);
    NothingDropped([blank] + second);
    assert s[1..] == [blank] + second && s[2..] == second;
  }

  /** Unfolding joins two lines when the second begins with a space or a tab, whichever way the first ends. */
  lemma UnfoldJoins(first: string, blank: char, second: string)
    requires LF !in first && LF !in second && IsBlank(blank) && (first == "" || Last(first) != CR)
    ensures UnfoldIcs(first + (CRLF + ([blank] + second))) == first + second
    ensures UnfoldIcs(first + ([LF] + ([blank] + second))) == first + second
  {
    DropsCrlf(blank, second);
    CrlfPasses(first, CRLF + ([blank] + second));
    NothingDropped(first + second);
    DropsLf(blank, second);
    LfStays(first, [LF] + ([blank] + second));
    LfPasses(first, [LF] + ([blank] + second));
  }
}
