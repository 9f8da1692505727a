/** Which stretches of a text are path tokens (`PATH_TOKEN`, packages/core/src/agent/artifact-path-repair.ts,
    lines 30 to 36), and which tokens a text has once its tokens were rewritten.

    Two matches from one position differ in the dot before the extension, and the expression tries the later dot
    first, since it takes as many characters and segments as it can; so the match it takes is the longest. */
module PathTokens {
  import opened Common

  // ----- The expression.

  predicate IsAlnum(c: char) {
    'a' <= c <= 'z' || 'A' <= c <= 'Z' || '0' <= c <= '9'
  }

  /** `[\w.-]` */
  predicate IsNameChar(c: char) {
    IsAlnum(c) || c == '_' || c == '.' || c == '-'
  }

  /** `[\w./-]` */
  predicate IsPathChar(c: char) {
    IsNameChar(c) || c == '/'
  }

  /** `[\w.-]+(?:\/[\w.-]+)*` */
  predicate IsJoinedNames(s: string) {
    && s != "" && s[0] != '/' && Last(s) != '/'
    && (forall i | 0 <= i < |s| :: IsPathChar(s[i]))
    && (forall i, j | 0 <= i < |s| && 0 <= j < |s| && j == i + 1 :: s[i] != '/' || s[j] != '/')
  }

  /** Joined names, the dot at `d`, and an extension of one to five characters. */
  predicate HasExtensionAt(s: string, d: nat) {
    && 0 < d < |s| && s[d] == '.' && IsJoinedNames(s[..d])
    && 2 <= |s| - d <= 6 && (forall i | d < i < |s| :: IsAlnum(s[i]))
  }

  predicate HasShape(s: string) {
    exists d | 0 <= d < |s| :: HasExtensionAt(s, d)
  }

  /** A text with a dot, the last of it, has the shape exactly if names are in front and one to five letters or digits behind. */
  lemma ShapeIff(base: string, extension: string)
    requires '.' !in extension
    ensures HasShape(base + ['.'] + extension) <==>
      IsJoinedNames(base) && 1 <= |extension| <= 5 && forall i | 0 <= i < |extension| :: IsAlnum(extension[i])
  {
    var s := base + ['.'] + extension;
    assert s[..|base|] == base && s[|base|] == '.';
    assert forall i | 0 <= i < |extension| :: s[|base| + 1 + i] == extension[i] && extension[i] in extension;
    if HasShape(s) {
      var d :| 0 <= d < |s| && HasExtensionAt(s, d);
      assert d <= |base| && !IsAlnum('.');
      assert d == |base|;
      forall i | 0 <= i < |extension| ensures IsAlnum(extension[i]) {
        assert IsAlnum(s[|base| + 1 + i]);
      }
    } else {
      if IsJoinedNames(base) && 1 <= |extension| <= 5 {
        assert !HasExtensionAt(s, |base|);
        var j :| |base| < j < |s| && !IsAlnum(s[j]);
        assert s[j] == extension[j - |base| - 1];
      }
    }
  }

  /** `(?<![\w./:-])` */
  predicate MayStart(text: string, p: nat)
    requires p <= |text|
  {
    p == 0 || !(IsPathChar(text[p - 1]) || text[p - 1] == ':')
  }

  /** `(?![\w/-])` */
  predicate MayEnd(text: string, q: nat)
    requires q <= |text|
  {
    q == |text| || text[q] == '.' || !IsPathChar(text[q])
  }

  predicate MatchesAt(text: string, p: nat, q: nat)
    requires p <= q <= |text|
  {
    MayStart(text, p) && MayEnd(text, q) && HasShape(text[p..q])
  }

  /** The end of the longest match from p that ends by `upto`. */
  function LongestMatch(text: string, p: nat, upto: nat): (r: Option<nat>)
    requires p <= upto <= |text|
    ensures r.Some? ==> p < r.value <= upto
  {
    if upto == p then None
    else if MatchesAt(text, p, upto) then Some(upto)
    else LongestMatch(text, p, upto - 1)
  }

  lemma {:induction false} LongestIsLongest(text: string, p: nat, upto: nat, q: nat)
    requires p <= upto <= |text| && p < q <= upto
    ensures LongestMatch(text, p, upto) == Some(q) ==> MatchesAt(text, p, q)
    ensures MatchesAt(text, p, q) ==> LongestMatch(text, p, upto).Some? && q <= LongestMatch(text, p, upto).value
  {
    if q < upto {
      LongestIsLongest(text, p, upto - 1, q);
    }
  }

  /** The end of the token that starts at p, if one does. */
  function TokenEnd(text: string, p: nat): (r: Option<nat>)
    requires p <= |text|
    ensures r.Some? ==> p < r.value <= |text|
  {
    LongestMatch(text, p, |text|)
  }

  // ----- The global replace: at each position the token there, else the one character.

  /** The tokens it meets from p on. */
  function TokensFrom(text: string, p: nat): seq<string>
    requires p <= |text|
    decreases |text| - p
  {
    if p == |text| then []
    else
      match TokenEnd(text, p)
      case None => TokensFrom(text, p + 1)
      case Some(q) => [text[p..q]] + TokensFrom(text, q)
  }

  /** What it writes from p on. */
  function RewrittenFrom(text: string, p: nat, f: string -> string): string
    requires p <= |text|
    decreases |text| - p
  {
    if p == |text| then ""
    else
      match TokenEnd(text, p)
      case None => [text[p]] + RewrittenFrom(text, p + 1, f)
      case Some(q) => f(text[p..q]) + RewrittenFrom(text, q, f)
  }

  function Tokens(text: string): seq<string> {
    TokensFrom(text, 0)
  }

  function Rewritten(text: string, f: string -> string): string {
    RewrittenFrom(text, 0, f)
  }

  // ----- Where tokens are.

  lemma ShapeIsPath(s: string)
    requires HasShape(s)
    ensures forall i | 0 <= i < |s| :: IsPathChar(s[i])
  {
    var d :| 0 <= d < |s| && HasExtensionAt(s, d);
    forall i | 0 <= i < |s| ensures IsPathChar(s[i]) {
      if i < d {
        assert s[i] == s[..d][i];
      }
    }
  }

  /** A match is made of path characters. */
  lemma MatchIsPath(text: string, p: nat, q: nat)
    requires p <= q <= |text|
    ensures MatchesAt(text, p, q) ==> p < q && forall i | p <= i < q :: IsPathChar(text[i])
  {
    if MatchesAt(text, p, q) {
      ShapeIsPath(text[p..q]);
      forall i | p <= i < q ensures IsPathChar(text[i]) {
        assert text[i] == text[p..q][i - p];
      }
    }
  }

  lemma TokenIsMatch(text: string, p: nat, q: nat)
    requires p <= |text| && TokenEnd(text, p) == Some(q)
    ensures p < q <= |text| && MatchesAt(text, p, q)
  {
    LongestIsLongest(text, p, |text|, q);
  }

  lemma NoTokenAt(text: string, p: nat)
    requires p < |text| && (!MayStart(text, p) || !IsPathChar(text[p]))
    ensures TokenEnd(text, p).None?
  {
    forall q | p < q <= |text| ensures TokenEnd(text, p) != Some(q) {
      LongestIsLongest(text, p, |text|, q);
      MatchIsPath(text, p, q);
    }
  }

  /** All tokens of s are in P; when s is not `free`, none starts with it. */
  ghost predicate AllTokens(s: string, free: bool, P: string -> bool) {
    forall i | 0 <= i < |s| && (free || i > 0) :: TokenEnd(s, i).Some? ==> P(s[i..TokenEnd(s, i).value])
  }

  lemma FirstOfSlice(text: string, p: nat, e: nat)
    requires p < e <= |text|
    ensures text[p..e] == [text[p]] + text[p + 1..e]
  {
  }

  /** Behind a path character or a colon there is no token till the run ends. */
  lemma {:induction false} NoTokenInside(text: string, p: nat, e: nat, f: string -> string)
    requires p <= e <= |text|
    requires p < e ==> !MayStart(text, p)
    requires forall i | p <= i < e :: IsPathChar(text[i])
    ensures TokensFrom(text, p) == TokensFrom(text, e)
    ensures RewrittenFrom(text, p, f) == text[p..e] + RewrittenFrom(text, e, f)
    decreases e - p
  {
    if p < e {
      NoTokenAt(text, p);
      NoTokenInside(text, p + 1, e, f);
      FirstOfSlice(text, p, e);
      Associates([text[p]], text[p + 1..e], RewrittenFrom(text, e, f));
    }
  }

  // ----- Tokens do not reach across the end of a run.

  /** Whether a token may start behind s, when it may start with s. */
  predicate FreeAfter(s: string, free: bool) {
    if s == "" then free else !IsPathChar(Last(s)) && Last(s) != ':'
  }

  predicate RunsPart(a: string, b: string) {
    a == "" || b == "" || !IsPathChar(Last(a)) || !IsPathChar(b[0])
  }

  lemma MatchInFirst(a: string, b: string, i: nat, k: nat)
    requires RunsPart(a, b) && i <= |a| && i <= k <= |a| + |b|
    ensures i < |a| ==> (MatchesAt(a + b, i, k) <==> k <= |a| && MatchesAt(a, i, k))
  {
    if i < |a| {
      if k <= |a| {
        assert (a + b)[i..k] == a[i..k];
      } else {
        MatchIsPath(a + b, i, k);
        assert (a + b)[|a| - 1] == Last(a) && (a + b)[|a|] == b[0];
      }
    }
  }

  lemma {:induction false} LongestInFirst(a: string, b: string, i: nat, k: nat)
    requires RunsPart(a, b) && i < |a| && i <= k <= |a| + |b|
    ensures LongestMatch(a + b, i, k) == LongestMatch(a, i, Min(k, |a|))
  {
    if i < k {
      MatchInFirst(a, b, i, k);
      LongestInFirst(a, b, i, k - 1);
    }
  }

  lemma SliceOfSecond(a: string, b: string, i: nat, k: nat)
    requires i <= k <= |b|
    ensures (a + b)[|a| + i..|a| + k] == b[i..k]
  {
  }

  lemma MatchInSecond(a: string, b: string, i: nat, k: nat)
    requires i <= k <= |b| && (a != "" && i == 0 ==> FreeAfter(a, true))
    ensures MatchesAt(a + b, |a| + i, |a| + k) <==> MatchesAt(b, i, k)
  {
    SliceOfSecond(a, b, i, k);
  }

  function Shift(m: Option<nat>, n: nat): Option<nat> {
    if m.None? then None else Some(n + m.value)
  }

  lemma {:induction false} LongestInSecond(a: string, b: string, i: nat, k: nat)
    requires i <= k <= |b| && (a != "" && i == 0 ==> FreeAfter(a, true))
    ensures LongestMatch(a + b, |a| + i, |a| + k) == Shift(LongestMatch(b, i, k), |a|)
  {
    if i < k {
      LongestInSecond(a, b, i, k - 1);
      LongestOneMore(a + b, |a| + i, |a| + k, b, i, k, a);
    }
  }

  lemma LongestOneMore(s: string, p: nat, q: nat, b: string, i: nat, k: nat, a: string)
    requires s == a + b && p == |a| + i && q == |a| + k && i < k <= |b| && (a != "" && i == 0 ==> FreeAfter(a, true))
    requires LongestMatch(s, p, q - 1) == Shift(LongestMatch(b, i, k - 1), |a|)
    ensures LongestMatch(s, p, q) == Shift(LongestMatch(b, i, k), |a|)
  {
    MatchInSecond(a, b, i, k);
  }

  lemma TokensInFirst(a: string, b: string, i: nat)
    requires RunsPart(a, b) && i < |a|
    ensures TokenEnd(a + b, i) == TokenEnd(a, i)
    ensures TokenEnd(a, i).Some? ==> (a + b)[i..TokenEnd(a, i).value] == a[i..TokenEnd(a, i).value]
  {
    LongestInFirst(a, b, i, |a| + |b|);
  }

  lemma TokensInSecond(a: string, b: string, i: nat)
    requires i < |b| && (a != "" && i == 0 ==> FreeAfter(a, true))
    ensures TokenEnd(a + b, |a| + i) == Shift(TokenEnd(b, i), |a|)
    ensures TokenEnd(b, i).Some? ==> (a + b)[|a| + i..|a| + TokenEnd(b, i).value] == b[i..TokenEnd(b, i).value]
  {
    LongestInSecond(a, b, i, |b|);
    if TokenEnd(b, i).Some? {
      SliceOfSecond(a, b, i, TokenEnd(b, i).value);
    }
  }

  lemma BothHaveAll(a: string, b: string, free: bool, P: string -> bool)
    requires RunsPart(a, b) && AllTokens(a, free, P) && AllTokens(b, FreeAfter(a, free), P)
    ensures AllTokens(a + b, free, P)
  {
    var s := a + b;
    forall i | 0 <= i < |s| && (free || i > 0)
      ensures TokenEnd(s, i).Some? ==> P(s[i..TokenEnd(s, i).value])
    {
      if i < |a| {
        TokensInFirst(a, b, i);
      } else if i > |a| || FreeAfter(a, free) {
        TokensInSecond(a, b, i - |a|);
      } else {
        NoTokenAt(s, i);
      }
    }
  }

  lemma AllHasBoth(a: string, b: string, free: bool, P: string -> bool)
    requires RunsPart(a, b) && AllTokens(a + b, free, P)
    ensures AllTokens(a, free, P) && AllTokens(b, FreeAfter(a, free), P)
  {
    var s := a + b;
    forall i | 0 <= i < |a| && (free || i > 0)
      ensures TokenEnd(a, i).Some? ==> P(a[i..TokenEnd(a, i).value])
    {
      TokensInFirst(a, b, i);
    }
    forall i | 0 <= i < |b| && (FreeAfter(a, free) || i > 0)
      ensures TokenEnd(b, i).Some? ==> P(b[i..TokenEnd(b, i).value])
    {
      TokensInSecond(a, b, i);
    }
  }

  // ----- What stands behind a token in its run adds none, whatever replaces the token.

  /** `t` is the longest match at the start of its run, and `rest` the rest of the run. */
  ghost predicate IsCutRun(t: string, rest: string) {
    && HasShape(t) && (rest != "" ==> rest[0] == '.') && (forall i | 0 <= i < |rest| :: IsPathChar(rest[i]))
    && (forall k | |t| < k <= |t + rest| :: !MatchesAt(t + rest, 0, k))
  }

  lemma ShapeIsJoined(s: string)
    requires HasShape(s)
    ensures IsJoinedNames(s)
  {
    var d :| 0 <= d < |s| && HasExtensionAt(s, d);
    var names := s[..d];
    assert forall i | 0 <= i < d :: s[i] == names[i];
  }

  lemma JoinedLonger(t: string, x: string, u: string)
    requires IsJoinedNames(t) && IsJoinedNames(x + u) && (u != "" ==> u[0] == '.')
    ensures IsJoinedNames(t + u)
  {
    var s, w := t + u, x + u;
    assert forall i | |t| <= i < |s| :: s[i] == w[i - |t| + |x|];
  }

  lemma ExtensionInRest(t: string, x: string, u: string, d: nat)
    requires IsJoinedNames(t) && u != "" && u[0] == '.' && HasExtensionAt(x + u, d)
    ensures HasShape(t + u)
  {
    var w := x + u;
    assert w[|x|] == '.';
    assert d >= |x|;
    var e := d - |x| + |t|;
    assert w[..d] == x + u[..d - |x|] && (t + u)[..e] == t + u[..d - |x|];
    JoinedLonger(t, x, u[..d - |x|]);
    assert forall i | |t| <= i < |t + u| :: (t + u)[i] == w[i - |t| + |x|];
    assert HasExtensionAt(t + u, e);
  }

  lemma NoneReachesIntoRest(t: string, rest: string, x: string, j: nat)
    requires IsCutRun(t, rest) && 0 < j <= |rest| && MayEnd(rest, j)
    ensures !HasShape(x + rest[..j])
  {
    var u := rest[..j];
    if HasShape(x + u) {
      var d :| 0 <= d < |x + u| && HasExtensionAt(x + u, d);
      ShapeIsJoined(t);
      ExtensionInRest(t, x, u, d);
      assert (t + rest)[0..|t| + j] == t + u;
      assert MatchesAt(t + rest, 0, |t| + j);
      assert false;
    }
  }

  lemma MatchBeforeRest(t: string, rest: string, to: string, i: nat, k: nat)
    requires IsCutRun(t, rest) && i <= |to| && i <= k <= |to| + |rest|
    ensures MatchesAt(to + rest, i, k) <==> k <= |to| && MatchesAt(to, i, k)
  {
    if k <= |to| {
      assert (to + rest)[i..k] == to[i..k];
    } else {
      assert (to + rest)[i..k] == to[i..] + rest[..k - |to|];
      if MayEnd(rest, k - |to|) {
        NoneReachesIntoRest(t, rest, to[i..], k - |to|);
      }
    }
  }

  lemma {:induction false} LongestBeforeRest(t: string, rest: string, to: string, i: nat, k: nat)
    requires IsCutRun(t, rest) && i <= |to| && i <= k <= |to| + |rest|
    ensures LongestMatch(to + rest, i, k) == LongestMatch(to, i, Min(k, |to|))
  {
    if i < k {
      MatchBeforeRest(t, rest, to, i, k);
      LongestBeforeRest(t, rest, to, i, k - 1);
    }
  }

  lemma TokensBeforeRest(t: string, rest: string, to: string, i: nat)
    requires IsCutRun(t, rest) && i < |to| + |rest|
    ensures TokenEnd(to + rest, i) == if i < |to| then TokenEnd(to, i) else None
  {
    if i <= |to| {
      LongestBeforeRest(t, rest, to, i, |to| + |rest|);
    } else {
      NoTokenAt(to + rest, i);
    }
  }

  lemma RestAddsNothing(t: string, rest: string, to: string, P: string -> bool)
    requires IsCutRun(t, rest)
    ensures AllTokens(to + rest, true, P) <==> AllTokens(to, true, P)
  {
    var s := to + rest;
    forall i | 0 <= i < |s|
      ensures TokenEnd(s, i) == if i < |to| then TokenEnd(to, i) else None
      ensures i < |to| && TokenEnd(to, i).Some? ==> s[i..TokenEnd(s, i).value] == to[i..TokenEnd(to, i).value]
    {
      TokensBeforeRest(t, rest, to, i);
    }
  }

  // ----- The tokens of the rewritten text.

  /** The path characters from p to e are a whole run. */
  predicate IsRun(text: string, p: nat, e: nat) {
    && p < e <= |text| && (p == 0 || !IsPathChar(text[p - 1]))
    && (forall i | p <= i < e :: IsPathChar(text[i]))
    && (e < |text| ==> !IsPathChar(text[e]))
  }

  function RunEnd(text: string, p: nat): (e: nat)
    requires p <= |text|
    ensures p <= e <= |text| && (forall i | p <= i < e :: IsPathChar(text[i])) && (e < |text| ==> !IsPathChar(text[e]))
    decreases |text| - p
  {
    if p == |text| || !IsPathChar(text[p]) then p else RunEnd(text, p + 1)
  }

  lemma TokenInRun(text: string, p: nat, e: nat)
    requires IsRun(text, p, e) && MayStart(text, p)
    ensures TokenEnd(text, p) == Shift(TokenEnd(text[p..e], 0), p)
  {
    var before, run, after := text[..p], text[p..e], text[e..];
    assert text == before + (run + after);
    assert p > 0 ==> Last(before) == text[p - 1];
    TokensInSecond(before, run + after, 0);
    TokensInFirst(run, after, 0);
  }

  lemma CutsItsRun(text: string, p: nat, e: nat, q: nat)
    requires IsRun(text, p, e) && MayStart(text, p) && TokenEnd(text, p) == Some(q)
    ensures p < q <= e && IsCutRun(text[p..q], text[q..e])
  {
    TokenInRun(text, p, e);
    TokenIsMatch(text, p, q);
    var run := text[p..e];
    assert run == text[p..q] + text[q..e];
    forall k | q - p < k <= |run| ensures !MatchesAt(run, 0, k) {
      LongestIsLongest(run, 0, |run|, k);
    }
  }

  /** Where a run ends the rewritten text goes on with the character that ended it. */
  lemma RewrittenStarts(text: string, p: nat, f: string -> string)
    requires p <= |text| && (p < |text| ==> !IsPathChar(text[p]))
    ensures var r := RewrittenFrom(text, p, f); if p == |text| then r == "" else r != "" && r[0] == text[p]
  {
    if p < |text| {
      NoTokenAt(text, p);
    }
  }

  lemma StartIsFree(s: string, free: bool, free': bool, P: string -> bool)
    requires s != "" ==> !IsPathChar(s[0])
    ensures AllTokens(s, free, P) <==> AllTokens(s, free', P)
  {
    if s != "" {
      NoTokenAt(s, 0);
    }
  }

  lemma PartsHaveAll(a: string, b: string, free: bool, P: string -> bool)
    requires RunsPart(a, b)
    ensures AllTokens(a + b, free, P) <==> AllTokens(a, free, P) && AllTokens(b, FreeAfter(a, free), P)
  {
    if AllTokens(a + b, free, P) {
      AllHasBoth(a, b, free, P);
    } else if AllTokens(a, free, P) && AllTokens(b, FreeAfter(a, free), P) {
      BothHaveAll(a, b, free, P);
    }
  }

  /** The tokens of the text rewritten from p on are those of what replaced its tokens. */
  ghost predicate RewritesInPlace(text: string, p: nat, f: string -> string, P: string -> bool)
    requires p <= |text|
  {
    AllTokens(RewrittenFrom(text, p, f), MayStart(text, p), P) <==>
    (forall t | t in TokensFrom(text, p) :: AllTokens(f(t), true, P))
  }

  lemma RewritesGap(text: string, p: nat, f: string -> string, P: string -> bool)
    requires p < |text| && !IsPathChar(text[p]) && RewritesInPlace(text, p + 1, f, P)
    ensures RewritesInPlace(text, p, f, P)
  {
    NoTokenAt(text, p);
    var c, rest := [text[p]], RewrittenFrom(text, p + 1, f);
    PartsHaveAll(c, rest, MayStart(text, p), P);
    NoTokenAt(c, 0);
  }

  lemma RewritesRunWithToken(text: string, p: nat, e: nat, q: nat, f: string -> string, P: string -> bool)
    requires IsRun(text, p, e) && MayStart(text, p) && TokenEnd(text, p) == Some(q) && RewritesInPlace(text, e, f, P)
    ensures RewritesInPlace(text, p, f, P)
  {
    CutsItsRun(text, p, e, q);
    var t, rest, more := text[p..q], text[q..e], RewrittenFrom(text, e, f);
    TokenIsMatch(text, p, q);
    MatchIsPath(text, p, q);
    NoTokenInside(text, q, e, f);
    Associates(f(t), rest, more);
    RewrittenStarts(text, e, f);
    PartsHaveAll(f(t) + rest, more, true, P);
    StartIsFree(more, FreeAfter(f(t) + rest, true), MayStart(text, e), P);
    RestAddsNothing(t, rest, f(t), P);
  }

  /** A run without a token in the text has none of its own. */
  lemma BareRun(text: string, p: nat, e: nat, run: string, P: string -> bool)
    requires IsRun(text, p, e) && run == text[p..e] && (MayStart(text, p) ==> TokenEnd(text, p).None?)
    ensures AllTokens(run, MayStart(text, p), P)
  {
    if MayStart(text, p) {
      TokenInRun(text, p, e);
    }
    forall i | 0 < i < |run| ensures TokenEnd(run, i).None? {
      NoTokenAt(run, i);
    }
  }

  lemma RewritesBareRun(text: string, p: nat, e: nat, f: string -> string, P: string -> bool)
    requires IsRun(text, p, e) && TokenEnd(text, p).None? && RewritesInPlace(text, e, f, P)
    ensures RewritesInPlace(text, p, f, P)
  {
    var run, more := text[p..e], RewrittenFrom(text, e, f);
    NoTokenInside(text, p + 1, e, f);
    FirstOfSlice(text, p, e);
    Associates([text[p]], text[p + 1..e], more);
    RewrittenStarts(text, e, f);
    PartsHaveAll(run, more, MayStart(text, p), P);
    StartIsFree(more, FreeAfter(run, MayStart(text, p)), MayStart(text, e), P);
    BareRun(text, p, e, run, P);
  }

  lemma {:induction false} RewritesFrom(text: string, p: nat, f: string -> string, P: string -> bool)
    requires p <= |text|
    requires p == 0 || p == |text| || !IsPathChar(text[p - 1]) || !IsPathChar(text[p])
    ensures RewritesInPlace(text, p, f, P)
    decreases |text| - p
  {
    if p < |text| {
      if !IsPathChar(text[p]) {
        RewritesFrom(text, p + 1, f, P);
        RewritesGap(text, p, f, P);
      } else {
        var e := RunEnd(text, p);
        RewritesFrom(text, e, f, P);
        var m := TokenEnd(text, p);
        if m.None? {
          RewritesBareRun(text, p, e, f, P);
        } else {
          if !MayStart(text, p) { NoTokenAt(text, p); }
          RewritesRunWithToken(text, p, e, m.value, f, P);
        }
      }
    }
  }

  /** Whatever tokens are replaced by, the tokens of the rewritten text are those of the replacements: none
      arises where a replacement meets its surroundings, and none of a replacement's own gets lost. */
  lemma TokensOfRewritten(text: string, f: string -> string, P: string -> bool)
    ensures AllTokens(Rewritten(text, f), true, P) <==> (forall t | t in Tokens(text) :: AllTokens(f(t), true, P))
  {
    RewritesFrom(text, 0, f, P);
  }

  // ----- The list of tokens.

  ghost predicate AllFrom(text: string, p: nat, P: string -> bool) {
    forall i | p <= i < |text| :: TokenEnd(text, i).Some? ==> P(text[i..TokenEnd(text, i).value])
  }

  /** The replace meets every token. */
  lemma {:induction false} TokensAreMet(text: string, p: nat, P: string -> bool)
    requires p <= |text|
    ensures AllFrom(text, p, P) <==> forall t | t in TokensFrom(text, p) :: P(t)
    decreases |text| - p
  {
    if p < |text| {
      var m := TokenEnd(text, p);
      if m.None? {
        TokensAreMet(text, p + 1, P);
      } else {
        TokensAreMet(text, m.value, P);
        TokenIsMatch(text, p, m.value);
        MatchIsPath(text, p, m.value);
        forall i | p < i < m.value ensures TokenEnd(text, i).None? {
          NoTokenAt(text, i);
        }
      }
    }
  }

  lemma TokensAreAll(text: string, P: string -> bool)
    ensures AllTokens(text, true, P) <==> forall t | t in Tokens(text) :: P(t)
  {
    TokensAreMet(text, 0, P);
  }

  /** A token by itself is one token. */
  lemma TokenOfToken(t: string)
    requires HasShape(t)
    ensures Tokens(t) == [t]
  {
    assert t[0..|t|] == t;
    LongestIsLongest(t, 0, |t|, |t|);
    assert TokensFrom(t, |t|) == [];
  }

  lemma {:induction false} TokensHaveShape(text: string, p: nat, t: string)
    requires p <= |text| && t in TokensFrom(text, p)
    ensures HasShape(t)
    decreases |text| - p
  {
    var m := TokenEnd(text, p);
    if m.None? {
      TokensHaveShape(text, p + 1, t);
    } else {
      TokenIsMatch(text, p, m.value);
      if t != text[p..m.value] { TokensHaveShape(text, m.value, t); }
    }
  }
}
