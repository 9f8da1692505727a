/** When one file name is a mis-copy of another (packages/core/src/agent/artifact-path-repair.ts, lines 101 to 143).

    A character stands for one UTF-16 code unit, which it is in names without characters beyond the basic plane;
    other names are not part of this model. */
module NearCopy {
  import opened Common

  // ----- Dropped characters: the shorter name is a subsequence of the longer.

  ghost predicate Increasing(f: seq<int>) {
    forall i, j | 0 <= i < j < |f| :: f[i] < f[j]
  }

  /** f places every character of s in l, left to right. */
  ghost predicate Places(f: seq<int>, s: string, l: string) {
    && |f| == |s|
    && Increasing(f)
    && forall k | 0 <= k < |f| :: 0 <= f[k] < |l| && l[f[k]] == s[k]
  }

  ghost predicate Embeds(s: string, l: string) {
    exists f :: Places(f, s, l)
  }

  lemma EmbedsInLonger(s: string, l: string, tail: string)
    requires Embeds(s, l)
    ensures Embeds(s, l + tail)
  {
    var f :| Places(f, s, l);
    assert Places(f, s, l + tail);
  }

  lemma EmbedsOneMore(s: string, l: string, c: char)
    requires Embeds(s, l)
    ensures Embeds(s + [c], l + [c])
  {
    var f :| Places(f, s, l);
    assert Places(f + [|l|], s + [c], l + [c]);
  }

  /** What embeds with its last character added embeds without both last characters. */
  lemma EmbedsOneLess(s: string, c: char, l: string, d: char)
    requires Embeds(s + [c], l + [d])
    ensures Embeds(s, l)
    ensures c != d ==> Embeds(s + [c], l)
  {
    var f :| Places(f, s + [c], l + [d]);
    assert f[|s|] <= |l| && (s + [c])[|s|] == c;
    assert Places(f[..|s|], s, l) by {
      forall k | 0 <= k < |s| ensures 0 <= f[k] < |l| && l[f[k]] == s[k] {
        assert f[k] < f[|s|] && (l + [d])[f[k]] == (s + [c])[k];
      }
    }
    if c != d {
      assert f[|s|] < |l|;
      assert Places(f, s + [c], l);
    }
  }

  lemma OnlyNothingEmbedsInNothing(s: string)
    ensures Embeds(s, []) <==> s == []
  {
    if s == [] {
      assert Places([], s, []);
    } else {
      forall f: seq<int> | |f| == |s| ensures !Places(f, s, []) {
        assert f[0] < 0 || f[0] >= 0;
      }
    }
  }

  /** `isSubsequence`, lines 101 to 107: taking each character at its first chance misses no placement. */
  method IsSubsequence(shorter: string, longer: string) returns (r: bool)
    ensures r <==> Embeds(shorter, longer)
  {
    var i, j := 0, 0;
    OnlyNothingEmbedsInNothing(shorter[..0]);
    if shorter != [] { OnlyNothingEmbedsInNothing(shorter[..1]); }
    assert longer[..0] == [];
    while j < |longer| && i < |shorter|
      invariant 0 <= i <= |shorter| && 0 <= j <= |longer|
      invariant Embeds(shorter[..i], longer[..j])
      invariant i < |shorter| ==> !Embeds(shorter[..i + 1], longer[..j])
    {
      GreedyStep(shorter, longer, i, j);
      if shorter[i] == longer[j] { i := i + 1; }
      j := j + 1;
    }
    r := i == |shorter|;
    if r {
      assert shorter[..i] == shorter && longer[..j] + longer[j..] == longer;
      EmbedsInLonger(shorter, longer[..j], longer[j..]);
    } else {
      assert longer[..j] == longer;
      if Embeds(shorter, longer) { PrefixEmbeds(shorter, i + 1, longer); }
    }
  }

  lemma PrefixEmbeds(s: string, i: nat, l: string)
    requires Embeds(s, l) && i <= |s|
    ensures Embeds(s[..i], l)
  {
    var f :| Places(f, s, l);
    assert Places(f[..i], s[..i], l);
  }

  lemma GreedyStep(s: string, l: string, i: nat, j: nat)
    requires i < |s| && j < |l|
    requires Embeds(s[..i], l[..j]) && !Embeds(s[..i + 1], l[..j])
    ensures s[i] == l[j] ==> Embeds(s[..i + 1], l[..j + 1]) && (i + 1 < |s| ==> !Embeds(s[..i + 2], l[..j + 1]))
    ensures s[i] != l[j] ==> Embeds(s[..i], l[..j + 1]) && !Embeds(s[..i + 1], l[..j + 1])
  {
    assert l[..j + 1] == l[..j] + [l[j]];
    assert s[..i + 1] == s[..i] + [s[i]];
    EmbedsInLonger(s[..i], l[..j], [l[j]]);
    if s[i] == l[j] {
      EmbedsOneMore(s[..i], l[..j], s[i]);
      if i + 1 < |s| && Embeds(s[..i + 2], l[..j + 1]) {
        assert s[..i + 2] == s[..i + 1] + [s[i + 1]];
        EmbedsOneLess(s[..i + 1], s[i + 1], l[..j], l[j]);
      }
    } else if Embeds(s[..i + 1], l[..j + 1]) {
      EmbedsOneLess(s[..i], s[i], l[..j], l[j]);
    }
  }

  // ----- Duplicated characters: the same runs, some of them longer.

  datatype Run = Run(ch: char, size: nat)

  /** The runs of equal characters of a string. */
  function Runs(s: string): (r: seq<Run>)
    ensures (s == [] <==> r == []) && (s != [] ==> r[0].ch == s[0])
    ensures forall k | 0 <= k < |r| :: r[k].size >= 1
  {
    if s == [] then [] else Push(s[0], Runs(s[1..]))
  }

  function Push(c: char, rest: seq<Run>): seq<Run> {
    if rest != [] && rest[0].ch == c then [Run(c, rest[0].size + 1)] + rest[1..]
    else [Run(c, 1)] + rest
  }

  /** One character less in run j. */
  function Shorten(r: seq<Run>, j: nat): seq<Run>
    requires j < |r| && r[j].size >= 2
  {
    r[j := Run(r[j].ch, r[j].size - 1)]
  }

  /** Where run k is once c stands in front. */
  function Behind(c: char, rest: seq<Run>, k: nat): nat {
    if rest != [] && rest[0].ch == c then k else k + 1
  }

  lemma PushOnShortened(c: char, rest: seq<Run>, k: nat)
    requires k < |rest| && rest[k].size >= 2
    ensures var j := Behind(c, rest, k);
      && j < |Push(c, rest)| && Push(c, rest)[j].size >= 2
      && Push(c, Shorten(rest, k)) == Shorten(Push(c, rest), j)
  {
    if rest[0].ch != c {
      ConsOnShortened(Run(c, 1), rest, k);
    } else if k == 0 {
      assert Shorten(rest, 0)[1..] == rest[1..];
    } else {
      ConsOnShortened(Run(c, rest[0].size + 1), rest[1..], k - 1);
      assert Shorten(rest, k)[1..] == Shorten(rest[1..], k - 1);
    }
  }

  lemma ConsOnShortened(first: Run, rest: seq<Run>, k: nat)
    requires k < |rest| && rest[k].size >= 2
    ensures ([first] + rest)[k + 1] == rest[k]
    ensures [first] + Shorten(rest, k) == Shorten([first] + rest, k + 1)
  {
  }

  /** The same characters run after run, each run at least as long. */
  ghost predicate Stretches(a: seq<Run>, b: seq<Run>) {
    |a| == |b| && forall k | 0 <= k < |a| :: a[k].ch == b[k].ch && a[k].size >= b[k].size
  }

  function Total(r: seq<Run>): nat {
    if r == [] then 0 else r[0].size + Total(r[1..])
  }

  lemma {:induction false} RunsTotal(s: string)
    ensures Total(Runs(s)) == |s|
  {
    if s != [] {
      RunsTotal(s[1..]);
      var rest := Runs(s[1..]);
      assert Runs(s)[1..] == if rest != [] && rest[0].ch == s[0] then rest[1..] else rest;
    }
  }

  lemma {:induction false} RunsAreInjective(s: string, t: string)
    requires Runs(s) == Runs(t)
    ensures s == t
  {
    if s != [] {
      assert s[0] == Runs(s)[0].ch == Runs(t)[0].ch == t[0];
      RunsOfTail(s);
      RunsOfTail(t);
      RunsAreInjective(s[1..], t[1..]);
      assert s == [s[0]] + s[1..] && t == [t[0]] + t[1..];
    }
  }

  /** The runs without the first character. */
  function Pop(r: seq<Run>): seq<Run>
    requires r != [] && r[0].size >= 1
  {
    if r[0].size == 1 then r[1..] else [Run(r[0].ch, r[0].size - 1)] + r[1..]
  }

  lemma PopUndoesPush(c: char, rest: seq<Run>)
    requires rest != [] ==> rest[0].size >= 1
    ensures Pop(Push(c, rest)) == rest
  {
    if rest != [] && rest[0].ch == c {
      var pushed := [Run(c, rest[0].size + 1)] + rest[1..];
      assert pushed[1..] == rest[1..];
      assert rest == [Run(c, rest[0].size)] + rest[1..];
    } else {
      assert ([Run(c, 1)] + rest)[1..] == rest;
    }
  }

  lemma RunsOfTail(s: string)
    requires s != []
    ensures Runs(s[1..]) == Pop(Runs(s))
  {
    PopUndoesPush(s[0], Runs(s[1..]));
  }

  function Without(s: string, i: nat): string
    requires i < |s|
  {
    s[..i] + s[i + 1..]
  }

  lemma ShortenUndoesPush(c: char, rest: seq<Run>)
    requires rest != [] && rest[0].ch == c && rest[0].size >= 1
    ensures Push(c, rest)[0].size >= 2 && Shorten(Push(c, rest), 0) == rest
  {
  }

  /** Removing the second of two equal leading characters. */
  lemma RemoveSecond(s: string)
    requires |s| >= 2 && s[1] == s[0]
    ensures Without(s, 1) == s[1..]
    ensures Runs(s)[0].size >= 2 && Runs(s[1..]) == Shorten(Runs(s), 0)
  {
    assert s[1..][0] == s[0];
    ShortenUndoesPush(s[0], Runs(s[1..]));
    WithoutSecond(s);
  }

  lemma WithoutSecond(s: string)
    requires |s| >= 2 && s[1] == s[0]
    ensures Without(s, 1) == s[1..]
  {
  }

  lemma RemoveLater(s: string, i: nat)
    requires 1 <= i < |s| - 1
    ensures Without(s, i + 1) != [] && Without(s, i + 1)[0] == s[0] && Without(s, i + 1)[1..] == Without(s[1..], i)
  {
  }

  /** Removing a character that repeats its neighbour shortens exactly one run, which keeps a character. */
  lemma {:induction false} RemovalShortensOneRun(s: string, i: nat) returns (j: nat)
    requires 1 <= i < |s| && s[i] == s[i - 1]
    ensures j < |Runs(s)| && Runs(s)[j].size >= 2
    ensures Runs(Without(s, i)) == Shorten(Runs(s), j)
  {
    if i == 1 {
      j := 0;
      RemoveSecond(s);
    } else {
      var k := RemovalShortensOneRun(s[1..], i - 1);
      j := Behind(s[0], Runs(s[1..]), k);
      RemoveLater(s, i - 1);
      PushOnShortened(s[0], Runs(s[1..]), k);
    }
  }

  /** Every run of two or more can be shortened by such a removal. */
  lemma {:induction false} RepeatInRun(s: string, j: nat) returns (i: nat)
    requires j < |Runs(s)| && Runs(s)[j].size >= 2
    ensures 1 <= i < |s| && s[i] == s[i - 1]
    ensures Runs(Without(s, i)) == Shorten(Runs(s), j)
  {
    var rest := Runs(s[1..]);
    if rest != [] && rest[0].ch == s[0] && j == 0 {
      i := 1;
      assert s[1..][0] == s[1];
      RemoveSecond(s);
    } else {
      var k := if rest != [] && rest[0].ch == s[0] then j else j - 1;
      var i' := RepeatInRun(s[1..], k);
      i := i' + 1;
      RemoveLater(s, i');
      PushOnShortened(s[0], rest, k);
    }
  }

  /** Stretched runs with more characters in all have a run that is strictly longer. */
  lemma {:induction false} SomeRunIsLonger(a: seq<Run>, b: seq<Run>) returns (j: nat)
    requires Stretches(a, b) && Total(a) > Total(b)
    ensures j < |a| && a[j].size > b[j].size
  {
    if a[0].size > b[0].size {
      j := 0;
    } else {
      var k := SomeRunIsLonger(a[1..], b[1..]);
      j := k + 1;
    }
  }

  lemma {:induction false} SameTotalIsSameRuns(a: seq<Run>, b: seq<Run>)
    requires Stretches(a, b)
    ensures Total(a) >= Total(b) && (Total(a) == Total(b) ==> a == b)
  {
    if a != [] {
      SameTotalIsSameRuns(a[1..], b[1..]);
      assert a == [a[0]] + a[1..] && b == [b[0]] + b[1..];
    }
  }

  /** The name with `count` characters more, all of them repeats. */
  ghost predicate Duplicates(longer: string, target: string, count: nat) {
    |longer| == |target| + count && Stretches(Runs(longer), Runs(target))
  }

  lemma NoDuplicates(longer: string, target: string)
    ensures Duplicates(longer, target, 0) <==> longer == target
  {
    if Duplicates(longer, target, 0) {
      RunsTotal(longer);
      RunsTotal(target);
      SameTotalIsSameRuns(Runs(longer), Runs(target));
      RunsAreInjective(longer, target);
    }
  }

  lemma RemovalStillDuplicates(longer: string, target: string, count: nat, i: nat)
    requires count > 0 && 1 <= i < |longer| && longer[i] == longer[i - 1]
    requires Duplicates(Without(longer, i), target, count - 1)
    ensures Duplicates(longer, target, count)
  {
    var j := RemovalShortensOneRun(longer, i);
    var a, b := Runs(longer), Runs(Without(longer, i));
    forall k | 0 <= k < |a| ensures a[k].ch == b[k].ch && a[k].size >= b[k].size {
    }
  }

  lemma SomeRemovalDuplicates(longer: string, target: string, count: nat) returns (i: nat)
    requires count > 0 && Duplicates(longer, target, count)
    ensures 1 <= i < |longer| && longer[i] == longer[i - 1]
    ensures Duplicates(Without(longer, i), target, count - 1)
  {
    RunsTotal(longer);
    RunsTotal(target);
    var j := SomeRunIsLonger(Runs(longer), Runs(target));
    i := RepeatInRun(longer, j);
  }

  /** `isDuplicationOf`, lines 110 to 117: the search over single removals finds every duplication. */
  method IsDuplicationOf(longer: string, target: string, count: nat) returns (r: bool)
    ensures r <==> Duplicates(longer, target, count)
    decreases count
  {
    if count == 0 {
      NoDuplicates(longer, target);
      return longer == target;
    }
    var i := 1;
    while i < |longer|
      invariant 1 <= i
      invariant forall k {:trigger Without(longer, k)} | 1 <= k < i && k < |longer| && longer[k] == longer[k - 1] ::
        !Duplicates(Without(longer, k), target, count - 1)
    {
      if longer[i] == longer[i - 1] {
        var found := IsDuplicationOf(longer[..i] + longer[i + 1..], target, count - 1);
        assert longer[..i] + longer[i + 1..] == Without(longer, i);
        if found {
          RemovalStillDuplicates(longer, target, count, i);
          return true;
        }
      }
      i := i + 1;
    }
    if Duplicates(longer, target, count) {
      ghost var k := SomeRemovalDuplicates(longer, target, count);
      assert false;
    }
    return false;
  }

  /** A duplication, too, keeps every character of the shorter name in place and order. */
  lemma {:induction false} DuplicationEmbeds(longer: string, target: string, count: nat)
    requires Duplicates(longer, target, count)
    ensures Embeds(target, longer)
    decreases count
  {
    if count == 0 {
      NoDuplicates(longer, target);
      assert Places(seq(|target|, k => k), target, longer);
    } else {
      var i := SomeRemovalDuplicates(longer, target, count);
      DuplicationEmbeds(Without(longer, i), target, count - 1);
      EmbedsAroundGap(longer, target, i);
    }
  }

  lemma EmbedsAroundGap(l: string, s: string, i: nat)
    requires i < |l| && Embeds(s, Without(l, i))
    ensures Embeds(s, l)
  {
    var f :| Places(f, s, Without(l, i));
    var g := seq(|f|, k requires 0 <= k < |f| => if f[k] < i then f[k] else f[k] + 1);
    assert Places(g, s, l);
  }

  // ----- Numbers in names.

  const MIN_ID_DIGITS := 6

  /** The maximal digit runs, left to right. */
  function DigitRuns(s: string): (r: seq<string>)
    ensures forall k | 0 <= k < |r| :: r[k] != []
  {
    if s == [] then []
    else if !IsDigit(s[0]) then DigitRuns(s[1..])
    else
      var rest := DigitRuns(s[1..]);
      if |s| > 1 && IsDigit(s[1]) && rest != [] then [[s[0]] + rest[0]] + rest[1..] else [[s[0]]] + rest
  }

  /** A stretch of digits between others than digits is one of them, whole; */
  lemma {:induction false} DigitRunsAt(front: string, digits: string, rest: string)
    requires (forall i | 0 <= i < |front| :: !IsDigit(front[i])) && digits != "" && AllDigits(digits) && (rest == "" || !IsDigit(rest[0]))
    ensures DigitRuns(front + (digits + rest)) == [digits] + DigitRuns(rest)
    decreases |front|, |digits|
  {
    var s := front + (digits + rest);
    if front != "" {
      assert s[0] == front[0] && s[1..] == front[1..] + (digits + rest);
      DigitRunsAt(front[1..], digits, rest);
    } else {
      assert IsDigit(digits[0]) && s == digits + rest && s[1..] == digits[1..] + rest;
      if |digits| == 1 {
        assert s[1..] == rest && digits == [digits[0]];
      } else {
        assert IsDigit(digits[1]) && s[1] == digits[1] && forall i | 0 <= i < |digits[1..]| :: digits[1..][i] == digits[i + 1];
        DigitRunsAt("", digits[1..], rest);
        assert "" + (digits[1..] + rest) == digits[1..] + rest;
        RunGrows(digits, DigitRuns(rest));
      }
    }
  }

  lemma RunGrows(digits: string, rest: seq<string>)
    requires digits != ""
    ensures var runs := [digits[1..]] + rest; [[digits[0]] + runs[0]] + runs[1..] == [digits] + rest
  {
    assert [digits[0]] + digits[1..] == digits;
  }

  /** and where there are no digits there are none. */
  lemma {:induction false} NoDigitRuns(s: string)
    requires forall i | 0 <= i < |s| :: !IsDigit(s[i])
    ensures DigitRuns(s) == []
  {
    if s != "" {
      NoDigitRuns(s[1..]);
    }
  }

  predicate NumbersAgree(written: string, real_: string) {
    var a, b := DigitRuns(written), DigitRuns(real_);
    |a| == |b| && forall k | 0 <= k < |a| :: a[k] == b[k] || (|a[k]| >= MIN_ID_DIGITS && |b[k]| >= MIN_ID_DIGITS)
  }

  // ----- The near-copy test.

  const MAX_EDITS := 2
  const CHARS_PER_EDIT := 12

  function Distance(a: string, b: string): nat {
    if |a| < |b| then |b| - |a| else |a| - |b|
  }

  /** One or two characters dropped, or one or two repeated: at most one per twelve characters of name, and no
      number changed but inside long digit runs. */
  ghost predicate IsCopy(written: string, real_: string) {
    && 1 <= Distance(written, real_) <= MAX_EDITS
    && Distance(written, real_) * CHARS_PER_EDIT <= Min(|written|, |real_|)
    && NumbersAgree(written, real_)
    && (if |written| < |real_| then Embeds(written, real_) else Stretches(Runs(written), Runs(real_)))
  }

  /** `isDropOrDuplicationCopy`, lines 135 to 143. */
  method IsDropOrDuplicationCopy(written: string, real_: string) returns (r: bool)
    ensures r <==> IsCopy(written, real_)
  {
    var edits := Distance(written, real_);
    var limit := Min(MAX_EDITS, Min(|written|, |real_|) / CHARS_PER_EDIT);
    if edits < 1 || edits > limit { return false; }
    if !NumbersAgree(written, real_) { return false; }
    if |written| < |real_| {
      r := IsSubsequence(written, real_);
    } else {
      r := IsDuplicationOf(written, real_, edits);
    }
  }

  /** The limits in figures: one character off needs names of twelve, two off of twenty-four, more is none; numbers may differ
      only where both have six digits. */
  lemma CopyIff(written: string, real_: string)
    ensures IsCopy(written, real_) <==>
      && (|written| < |real_| ==> |real_| <= |written| + 2 && 12 * (|real_| - |written|) <= |written| && Embeds(written, real_))
      && (|written| >= |real_| ==>
            1 <= |written| - |real_| <= 2 && 12 * (|written| - |real_|) <= |real_| && Stretches(Runs(written), Runs(real_)))
      && |DigitRuns(written)| == |DigitRuns(real_)|
      && forall k | 0 <= k < |DigitRuns(written)| ::
           DigitRuns(written)[k] == DigitRuns(real_)[k] || (|DigitRuns(written)[k]| >= 6 && |DigitRuns(real_)[k]| >= 6)
  {
  }

  /** What a copy has in common with the name: nothing is replaced, the shorter name lies inside the longer,
      twelve characters at least, and every number under six digits is the same. */
  lemma CopyReplacesNothing(written: string, real_: string)
    requires IsCopy(written, real_)
    ensures if |written| < |real_| then Embeds(written, real_) else Embeds(real_, written)
    ensures 12 <= |written| && 12 <= |real_|
    ensures |DigitRuns(written)| == |DigitRuns(real_)|
    ensures forall k | 0 <= k < |DigitRuns(real_)| && |DigitRuns(real_)[k]| < 6 :: DigitRuns(written)[k] == DigitRuns(real_)[k]
  {
    if |written| > |real_| {
      DuplicationEmbeds(written, real_, |written| - |real_|);
    }
  }
}
