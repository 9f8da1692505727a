/** When a second pass of path repair changes nothing, told by the known paths alone
    (packages/core/src/agent/artifact-path-repair.ts, line 17).

    No file exists, as when there is no workspace: the pass then goes by the known paths only. */
module SecondPass {
  import opened Common
  import opened NearCopy
  import opened PathTokens
  import opened PathRepair

  function NameOf(path: string): string {
    SplitPath(path).name
  }

  function FolderOf(path: string): string {
    SplitPath(path).folder
  }

  /** A pass over what a pass wrote repairs nothing. */
  ghost predicate KeepsThePromise(text: string, known: seq<string>, exists_: string -> bool) {
    Idle(Repaired(text, known, exists_), known, exists_)
  }

  // ----- Folders.

  /** No folder, the folder itself, or a trailing part of it. */
  predicate IsTailOf(g: string, folder: string) {
    g == "" || g == folder || EndsWith(folder, "/" + g)
  }

  lemma EndsBoth(s: string, a: string, b: string)
    requires EndsWith(s, a) && EndsWith(s, b) && |a| <= |b|
    ensures EndsWith(b, a)
  {
    assert s[|s| - |a|..] == s[|s| - |b|..][|b| - |a|..];
  }

  lemma EndsThrough(s: string, a: string, b: string)
    requires EndsWith(s, a) && EndsWith(a, b)
    ensures EndsWith(s, b)
  {
    assert s[|s| - |b|..] == s[|s| - |a|..][|a| - |b|..];
  }

  lemma SlashedEnds(a: string, b: string)
    requires EndsWith("/" + a, "/" + b)
    ensures a == b || EndsWith(a, "/" + b)
  {
    if |a| == |b| {
      assert ("/" + a)[1..] == a && ("/" + b)[1..] == b;
    } else {
      assert ("/" + a)[|a| - |b|..] == a[|a| - |b| - 1..];
    }
  }

  /** What is compatible with a folder is compatible with its trailing parts. */
  lemma CompatibleWithTail(f: string, folder: string, g: string)
    requires FoldersCompatible(f, folder) && IsTailOf(g, folder)
    ensures FoldersCompatible(f, g)
  {
    if f != "" && g != "" && g != folder {
      if EndsWith(f, "/" + folder) {
        assert EndsWith("/" + folder, "/" + g) by {
          assert ("/" + folder)[|folder| - |g|..] == folder[|folder| - |g| - 1..];
        }
        EndsThrough(f, "/" + folder, "/" + g);
      } else if EndsWith(folder, "/" + f) {
        TwoTails(folder, f, g);
      }
    }
  }

  lemma TwoTails(folder: string, f: string, g: string)
    requires EndsWith(folder, "/" + f) && EndsWith(folder, "/" + g)
    ensures f == g || EndsWith(f, "/" + g) || EndsWith(g, "/" + f)
  {
    if |f| <= |g| {
      EndsBoth(folder, "/" + f, "/" + g);
      SlashedEnds(g, f);
    } else {
      EndsBoth(folder, "/" + g, "/" + f);
      SlashedEnds(f, g);
    }
  }

  /** A folder behind a long segment. */
  function Behind(front: string, pad: string, folder: string): string {
    front + pad + if folder == "" then "" else "/" + folder
  }

  lemma EndsBehind(front: string, pad: string, folder: string, g: string, all: string)
    requires '/' !in pad && |pad| > |g| && all == Behind(front, pad, folder)
    requires EndsWith(all, "/" + g)
    ensures g == folder || EndsWith(folder, "/" + g)
  {
    var p := |all| - |g| - 1;
    assert all[p..][0] == '/';
    forall i | |front| <= i < |front| + |pad| ensures all[i] != '/' {
      assert all[i] == pad[i - |front|] && pad[i - |front|] in pad;
    }
    assert p >= |front| + |pad|;
    var rest := if folder == "" then "" else "/" + folder;
    assert all[p..] == rest[p - |front| - |pad|..];
    SlashedEnds(folder, g);
  }

  lemma TailEndsBehind(front: string, pad: string, folder: string, g: string, all: string)
    requires g != "" && (g == folder || EndsWith(folder, "/" + g)) && all == Behind(front, pad, folder)
    ensures EndsWith(all, "/" + g)
  {
    assert EndsWith(all, "/" + folder) by {
      assert all[|all| - |folder| - 1..] == "/" + folder;
    }
    if g != folder {
      assert EndsWith("/" + folder, "/" + g) by {
        assert ("/" + folder)[|folder| - |g|..] == folder[|folder| - |g| - 1..];
      }
      EndsThrough(all, "/" + folder, "/" + g);
    }
  }

  /** Behind a segment longer than any known folder, a folder is compatible with its trailing parts only. */
  lemma CompatibleBehind(front: string, pad: string, folder: string, g: string)
    requires '/' !in pad && |pad| > |g|
    ensures FoldersCompatible(Behind(front, pad, folder), g) <==> IsTailOf(g, folder)
  {
    var all := Behind(front, pad, folder);
    if g != "" && EndsWith(all, "/" + g) {
      EndsBehind(front, pad, folder, g, all);
    }
    if g != "" && IsTailOf(g, folder) {
      TailEndsBehind(front, pad, folder, g, all);
    }
  }

  // ----- What a token becomes depends on its name and on the folders it is compatible with.

  ghost predicate Near(written: string, name: string) {
    ExtensionOf(name) == ExtensionOf(written) && IsCopy(written, name)
  }

  lemma OnlyName(token: string, known: seq<string>, i: nat)
    requires i < |known| && Matches(token, known[i])
    requires forall j | 0 <= j < |known| && Matches(token, known[j]) :: NameOf(known[j]) == NameOf(known[i])
    ensures MatchingNames(token, known) == {NameOf(known[i])}
  {
    NamesIt(token, known, i);
    forall name | name in MatchingNames(token, known) ensures name == NameOf(known[i]) {
      var j := NamedBy(token, known, name);
    }
  }

  /** No known folder tells the two apart. */
  ghost predicate AlikeFolders(f: string, f': string, known: seq<string>) {
    forall j | 0 <= j < |known| :: FoldersCompatible(f, FolderOf(known[j])) <==> FoldersCompatible(f', FolderOf(known[j]))
  }

  lemma {:induction false} SameMatches(t: string, t': string, known: seq<string>)
    requires NameOf(t) == NameOf(t') && AlikeFolders(FolderOf(t), FolderOf(t'), known)
    ensures MatchingNames(t, known) == MatchingNames(t', known)
  {
    if known != [] {
      assert forall j | 0 <= j < |Init(known)| :: Init(known)[j] == known[j];
      SameMatches(t, t', Init(known));
    }
  }

  ghost predicate Never(exists_: string -> bool) {
    forall t :: !exists_(t)
  }

  /** Two tokens of one name that no known folder tells apart are repaired alike. */
  lemma SameRepair(t: string, t': string, known: seq<string>, exists_: string -> bool)
    requires NameOf(t) == NameOf(t') && t !in known && t' !in known && Never(exists_)
    requires AlikeFolders(FolderOf(t), FolderOf(t'), known)
    ensures Stays(t, known, exists_) <==> Stays(t', known, exists_)
  {
    SameMatches(t, t', known);
  }

  // ----- Which names can be put in.

  /** The name m is put right to the name of known path i behind that path's own folder. */
  ghost predicate PutsIn(known: seq<string>, i: nat, m: string) {
    && i < |known| && !PlainName(NameOf(known[i]))
    && HasShape(m) && PlainName(m) && Near(m, NameOf(known[i])) && !KnowsName(known, m)
    && forall j | 0 <= j < |known| && IsTailOf(FolderOf(known[j]), FolderOf(known[i])) && Near(m, NameOf(known[j])) ::
         NameOf(known[j]) == NameOf(known[i])
  }

  lemma NameHasShape(token: string)
    requires HasShape(token) && 12 <= |NameOf(token)|
    ensures HasShape(NameOf(token)) && PlainName(NameOf(token))
  {
    var d :| 0 <= d < |token| && HasExtensionAt(token, d);
    NameOfToken(token, d);
    ShapeIsPath(token);
    NameShape(token, d, AfterLast(token, '/'), NameOf(token));
  }

  lemma NameShape(token: string, d: nat, at: nat, name: string)
    requires HasExtensionAt(token, d) && at <= d && name == token[at..] && 12 <= |name|
    requires forall i | at <= i < |token| :: token[i] != '/' && IsPathChar(token[i])
    ensures HasShape(name) && PlainName(name)
  {
    assert forall i | 0 <= i < |name| :: name[i] == token[at + i];
    var e := d - at;
    var base := name[..e];
    assert forall i | 0 <= i < |base| :: base[i] == token[..d][at + i] && base[i] != '/';
    assert forall i | e < i < |name| :: name[i] == token[at + i];
    assert HasExtensionAt(name, e);
  }

  /** A token that is repaired to a name with an outside character puts it in. */
  lemma RepairedPutsIn(t: string, known: seq<string>, exists_: string -> bool, i: nat)
    requires HasShape(t) && !Stays(t, known, exists_) && i < |known| && Matches(t, known[i]) && !PlainName(NameOf(known[i]))
    ensures PutsIn(known, i, NameOf(t))
  {
    FixedIsTheOneMatch(t, known, exists_, i);
    CopyReplacesNothing(NameOf(t), NameOf(known[i]));
    NameHasShape(t);
    forall j | 0 <= j < |known| && IsTailOf(FolderOf(known[j]), FolderOf(known[i])) && Near(NameOf(t), NameOf(known[j]))
      ensures NameOf(known[j]) == NameOf(known[i])
    {
      CompatibleWithTail(FolderOf(t), FolderOf(known[i]), FolderOf(known[j]));
      assert Matches(t, known[j]);
    }
  }

  lemma OnlyNameIsPutIn(t: string, known: seq<string>, exists_: string -> bool, i: nat)
    requires i < |known| && Matches(t, known[i]) && t !in known && !KnowsName(known, NameOf(t)) && Never(exists_)
    requires forall j | 0 <= j < |known| && Matches(t, known[j]) :: NameOf(known[j]) == NameOf(known[i])
    ensures !Stays(t, known, exists_) && Fixed(t, known, exists_) == Renamed(t, NameOf(known[i]))
  {
    OnlyName(t, known, i);
    FixedByName(t, known, exists_, NameOf(known[i]));
  }

  lemma PutInMatches(known: seq<string>, i: nat, m: string, folder: string, t: string)
    requires PutsIn(known, i, m) && SplitPath(t) == Split(folder, m)
    requires forall j | 0 <= j < |known| :: FoldersCompatible(folder, FolderOf(known[j])) <==> IsTailOf(FolderOf(known[j]), FolderOf(known[i]))
    ensures Matches(t, known[i])
    ensures forall j | 0 <= j < |known| && Matches(t, known[j]) :: NameOf(known[j]) == NameOf(known[i])
  {
    assert FoldersCompatible(folder, FolderOf(known[i]));
    forall j | 0 <= j < |known| && Matches(t, known[j]) ensures NameOf(known[j]) == NameOf(known[i]) {
      assert Near(m, NameOf(known[j]));
    }
  }

  /** Behind a folder that is compatible with just the trailing parts of the known path's, it is put in. */
  lemma PutInIsRepaired(known: seq<string>, exists_: string -> bool, i: nat, m: string, folder: string, t: string)
    requires PutsIn(known, i, m) && Never(exists_) && folder != "" && t == folder + "/" + m && t !in known
    requires forall j | 0 <= j < |known| :: FoldersCompatible(folder, FolderOf(known[j])) <==> IsTailOf(FolderOf(known[j]), FolderOf(known[i]))
    ensures !Stays(t, known, exists_) && Fixed(t, known, exists_) == folder + "/" + NameOf(known[i])
  {
    PlainHasNoSlash(m);
    SplitOfJoined(folder, m);
    PutInMatches(known, i, m, folder, t);
    OnlyNameIsPutIn(t, known, exists_, i);
  }

  lemma PlainHasNoSlash(m: string)
    requires PlainName(m)
    ensures !HasSlash(m)
  {
  }

  // ----- Where a token may end in what a known path puts in.

  /** The first character of a name that is outside the pattern. */
  function FirstOutside(name: string): (c: nat)
    ensures c <= |name| && PlainName(name[..c]) && (c < |name| ==> !IsNameChar(name[c]))
    ensures PlainName(name) <==> c == |name|
  {
    if name == "" || !IsNameChar(name[0]) then 0
    else
      var c := 1 + FirstOutside(name[1..]);
      assert forall i | 0 < i < c :: name[..c][i] == name[1..][..c - 1][i - 1];
      assert forall i | 0 < i < |name| :: name[i] == name[1..][i - 1];
      c
  }

  /** The known path up to that character. */
  function HeadOf(path: string): string {
    (if FolderOf(path) == "" then "" else FolderOf(path) + "/") + NameOf(path)[..FirstOutside(NameOf(path))]
  }

  /** A dot at d inside a segment, and an extension that a token may end with at k. */
  predicate EndsToken(h: string, d: nat, k: nat) {
    && 0 < d < k <= |h| && h[d] == '.' && h[d - 1] != '/'
    && 2 <= k - d <= 6 && (forall i | d < i < k :: IsAlnum(h[i])) && MayEnd(h, k)
  }

  /** The folder is one a token can have, and no token ends before the outside character. */
  ghost predicate Open(path: string) {
    (FolderOf(path) == "" || IsJoinedNames(FolderOf(path))) && forall d, k :: !EndsToken(HeadOf(path), d, k)
  }

  // ----- Joining names.

  lemma JoinedSlash(a: string, b: string)
    requires IsJoinedNames(a) && IsJoinedNames(b)
    ensures IsJoinedNames(a + "/" + b)
  {
    var s := a + "/" + b;
    assert s[|a|] == '/';
    assert forall i | 0 <= i < |a| :: s[i] == a[i];
    assert forall i | |a| < i < |s| :: s[i] == b[i - |a| - 1];
  }

  lemma JoinedDot(a: string, pad: string)
    requires IsJoinedNames(a) && pad != "" && PlainName(pad)
    ensures IsJoinedNames(a + "." + pad)
  {
    var s := a + "." + pad;
    assert forall i | 0 <= i < |a| :: s[i] == a[i];
    assert forall i | |a| < i < |s| :: s[i] == pad[i - |a| - 1];
  }

  lemma PlainIsJoined(name: string)
    requires name != "" && PlainName(name)
    ensures IsJoinedNames(name)
  {
  }

  lemma ShapeInFolder(folder: string, m: string, t: string)
    requires IsJoinedNames(folder) && HasShape(m) && PlainName(m) && t == folder + "/" + m
    ensures HasShape(t)
  {
    var d :| 0 <= d < |m| && HasExtensionAt(m, d);
    JoinedSlash(folder, m[..d]);
    var e := |folder| + 1 + d;
    assert t[..e] == folder + "/" + m[..d];
    assert forall i | e <= i < |t| :: t[i] == m[i - |folder| - 1];
    assert HasExtensionAt(t, e);
  }

  // ----- A token planted in front of a long segment is met alone.

  predicate IsPad(pad: string) {
    |pad| >= 6 && forall i | 0 <= i < |pad| :: pad[i] == 'x'
  }

  function Xs(n: nat): (pad: string)
    ensures |pad| == n && forall i | 0 <= i < n :: pad[i] == 'x'
  {
    seq(n, _ => 'x')
  }

  lemma PlantedChars(t0: string, pad: string, h: string, run: string)
    requires IsPad(pad) && run == t0 + "." + pad + "/" + h
    ensures |run| == |t0| + 2 + |pad| + |h|
    ensures run[|t0|] == '.' && run[|t0| + 1 + |pad|] == '/'
    ensures forall i | |t0| < i <= |t0| + |pad| :: run[i] == 'x'
    ensures run[|t0| + 2 + |pad|..] == h
  {
    assert forall i | |t0| < i <= |t0| + |pad| :: run[i] == pad[i - |t0| - 1];
  }

  /** Behind the planted token no dot comes before the head. */
  lemma DotIsInHead(b: nat, n: nat, run: string, d: nat, k: nat)
    requires n >= 6 && b + 1 + n < |run| && run[b] == '.' && run[b + 1 + n] == '/' && forall i | b < i <= b + n :: run[i] == 'x'
    requires b < k <= |run| && d < k && run[d] == '.' && 2 <= k - d <= 6 && (forall i | d < i < k :: IsAlnum(run[i])) && MayEnd(run, k)
    ensures d >= b + 2 + n
  {
    assert !IsAlnum(run[b]);
    assert d >= b;
    NoEndInPad(b, n, run);
  }

  lemma NoEndInPad(b: nat, n: nat, run: string)
    requires b + 1 + n < |run| && forall i | b < i <= b + n :: run[i] == 'x'
    ensures forall i | b < i <= b + n :: !MayEnd(run, i)
  {
  }

  lemma EndsBehindSlash(run: string, b: nat, h: string, d: nat, k: nat)
    requires 0 < b <= d < k <= |run| && run[b..] == h && run[b - 1] == '/' && run[d - 1] != '/' && run[d] == '.'
    requires 2 <= k - d <= 6 && (forall i | d < i < k :: IsAlnum(run[i])) && MayEnd(run, k)
    ensures EndsToken(h, d - b, k - b)
  {
    assert d > b && h[d - b] == run[d] && h[d - b - 1] == run[d - 1];
    assert forall i | d - b < i < k - b :: h[i] == run[b + i];
    assert k < |run| ==> h[k - b] == run[k];
  }

  lemma EndsInHead(t0: string, pad: string, h: string, run: string, d: nat, k: nat)
    requires IsPad(pad) && run == t0 + "." + pad + "/" + h && |t0| < k <= |run|
    requires HasExtensionAt(run[..k], d) && MayEnd(run, k)
    ensures var b := |t0| + 2 + |pad|; d >= b && k >= b && EndsToken(h, d - b, k - b)
  {
    PlantedChars(t0, pad, h, run);
    ExtensionOfCut(run, k, d);
    DotIsInHead(|t0|, |pad|, run, d, k);
    EndsBehindSlash(run, |t0| + 2 + |pad|, h, d, k);
  }

  lemma ExtensionOfCut(run: string, k: nat, d: nat)
    requires k <= |run| && HasExtensionAt(run[..k], d)
    ensures 0 < d < k && run[d] == '.' && run[d - 1] != '/' && 2 <= k - d <= 6 && forall i | d < i < k :: IsAlnum(run[i])
  {
    var u := run[..k];
    assert u[d] == run[d] && Last(u[..d]) == run[d - 1];
    assert forall i | d < i < k :: u[i] == run[i];
  }

  lemma PlantedIsMet(t0: string, pad: string, h: string, run: string)
    requires HasShape(t0) && IsPad(pad) && run == t0 + "." + pad + "/" + h
    requires forall d, k :: !EndsToken(h, d, k)
    ensures TokenEnd(run, 0) == Some(|t0|)
  {
    assert run[0..|t0|] == t0 && run[|t0|] == '.';
    LongestIsLongest(run, 0, |run|, |t0|);
    var q := TokenEnd(run, 0).value;
    TokenIsMatch(run, 0, q);
    if q > |t0| {
      assert run[0..q] == run[..q];
      var d :| 0 <= d < |run[..q]| && HasExtensionAt(run[..q], d);
      EndsInHead(t0, pad, h, run, d, q);
    }
  }

  // ----- An open path into which a name can be put breaks the promise.

  function LongestOf(known: seq<string>): (n: nat)
    ensures forall j | 0 <= j < |known| :: |known[j]| <= n
  {
    if known == [] then 0 else Max(LongestOf(Init(known)), |Last(known)|)
  }

  lemma FolderIsShort(path: string)
    ensures |FolderOf(path)| <= |path| && |NameOf(path)| <= |path|
  {
  }

  lemma BehindIsSpecific(known: seq<string>, front: string, pad: string, folder: string)
    requires IsPad(pad) && |pad| > LongestOf(known)
    ensures forall j | 0 <= j < |known| ::
      FoldersCompatible(Behind(front, pad, folder), FolderOf(known[j])) <==> IsTailOf(FolderOf(known[j]), folder)
  {
    forall j | 0 <= j < |known|
      ensures FoldersCompatible(Behind(front, pad, folder), FolderOf(known[j])) <==> IsTailOf(FolderOf(known[j]), folder)
    {
      FolderIsShort(known[j]);
      CompatibleBehind(front, pad, folder, FolderOf(known[j]));
    }
  }

  lemma BehindIsJoined(front: string, pad: string, folder: string)
    requires IsPad(pad) && (folder == "" || IsJoinedNames(folder))
    requires front == "" || (Last(front) == '.' && IsJoinedNames(Init(front)))
    ensures IsJoinedNames(Behind(front, pad, folder))
  {
    PlainIsJoined(pad);
    var first := front + pad;
    if front != "" {
      JoinedDot(Init(front), pad);
      assert first == Init(front) + "." + pad;
    } else {
      assert first == pad;
    }
    if folder != "" {
      JoinedSlash(first, folder);
      assert Behind(front, pad, folder) == first + "/" + folder;
    }
  }

  /** The token m behind a long segment and the known path's folder: repaired to the known name. */
  lemma PaddedIsRepaired(known: seq<string>, exists_: string -> bool, i: nat, m: string, front: string, pad: string, t: string)
    requires PutsIn(known, i, m) && Never(exists_) && Open(known[i]) && IsPad(pad) && |pad| > LongestOf(known)
    requires front == "" || (Last(front) == '.' && IsJoinedNames(Init(front)))
    requires t == Behind(front, pad, FolderOf(known[i])) + "/" + m
    ensures HasShape(t) && !Stays(t, known, exists_)
    ensures Fixed(t, known, exists_) == Behind(front, pad, FolderOf(known[i])) + "/" + NameOf(known[i])
  {
    var folder := FolderOf(known[i]);
    BehindIsJoined(front, pad, folder);
    ShapeInFolder(Behind(front, pad, folder), m, t);
    BehindIsSpecific(known, front, pad, folder);
    assert t !in known by {
      assert |t| > |pad|;
    }
    PutInIsRepaired(known, exists_, i, m, Behind(front, pad, folder), t);
  }

  lemma BehindAsRun(front: string, pad: string, folder: string, n: string, c: nat)
    requires c <= |n|
    ensures Behind(front, pad, folder) + "/" + n
         == (front + pad + "/" + ((if folder == "" then "" else folder + "/") + n[..c])) + n[c..]
  {
    assert n == n[..c] + n[c..];
    if folder == "" {
      assert front + pad + "" == front + pad && "" + n[..c] == n[..c];
      Associates(front + pad + "/", n[..c], n[c..]);
    } else {
      Associates(Behind(front, pad, folder) + "/", n[..c], n[c..]);
      SlashFolder(front + pad, folder, n[..c]);
    }
  }

  lemma SlashFolder(a: string, folder: string, b: string)
    ensures a + ("/" + folder) + "/" + b == a + "/" + (folder + "/" + b)
  {
  }

  /** The planted token is met again in the repaired text. */
  lemma PlantedIsFound(t0: string, pad: string, path: string, written: string)
    requires HasShape(t0) && IsPad(pad) && Open(path) && !PlainName(NameOf(path))
    requires written == Behind(t0 + ".", pad, FolderOf(path)) + "/" + NameOf(path)
    ensures t0 in Tokens(written)
  {
    var n, c := NameOf(path), FirstOutside(NameOf(path));
    var run := t0 + "." + pad + "/" + HeadOf(path);
    BehindAsRun(t0 + ".", pad, FolderOf(path), n, c);
    PlantedIsMet(t0, pad, HeadOf(path), run);
    assert n[c] != '/';
    TokensInFirst(run, n[c..], 0);
    assert run[0..|t0|] == t0;
  }

  lemma PlantedBreaks(known: seq<string>, exists_: string -> bool, i: nat, m: string, pad: string, t0: string, text: string)
    requires PutsIn(known, i, m) && Never(exists_) && Open(known[i]) && IsPad(pad) && |pad| > LongestOf(known)
    requires HasShape(t0) && !Stays(t0, known, exists_) && text == Behind(t0 + ".", pad, FolderOf(known[i])) + "/" + m
    ensures !KeepsThePromise(text, known, exists_)
  {
    ShapeIsJoined(t0);
    assert Init(t0 + ".") == t0;
    PaddedIsRepaired(known, exists_, i, m, t0 + ".", pad, text);
    PlantedIsFound(t0, pad, known[i], Fixed(text, known, exists_));
    MetAgain(known, exists_, text, t0);
  }

  /** Two copies of the token with a long segment between: the first pass reads them as one token, the second meets
      the first copy alone. */
  lemma OpenPathBreaks(known: seq<string>, exists_: string -> bool, i: nat, m: string) returns (text: string)
    requires PutsIn(known, i, m) && Never(exists_) && Open(known[i])
    ensures !KeepsThePromise(text, known, exists_)
  {
    var pad := Xs(LongestOf(known) + 6);
    var t0 := Behind("", pad, FolderOf(known[i])) + "/" + m;
    PaddedIsRepaired(known, exists_, i, m, "", pad, t0);
    text := Behind(t0 + ".", pad, FolderOf(known[i])) + "/" + m;
    PlantedBreaks(known, exists_, i, m, pad, t0, text);
  }

  lemma MetAgain(known: seq<string>, exists_: string -> bool, text: string, t0: string)
    requires HasShape(text) && t0 in Tokens(Fixed(text, known, exists_)) && !Stays(t0, known, exists_)
    ensures !KeepsThePromise(text, known, exists_)
  {
    WholeToken(text, Fixer(known, exists_));
  }

  // ----- Long folders can be clipped.

  /** Path characters without an empty segment; the last may be cut off at its slash. */
  predicate IsSane(run: string) {
    && run != "" && run[0] != '/' && (forall i | 0 <= i < |run| :: IsPathChar(run[i]))
    && (forall i, j | 0 <= i < |run| && 0 <= j < |run| && j == i + 1 :: run[i] != '/' || run[j] != '/')
  }

  lemma SaneUpTo(run: string, d: nat)
    requires IsSane(run) && 0 < d <= |run|
    ensures IsJoinedNames(run[..d]) <==> run[d - 1] != '/'
  {
    var front := run[..d];
    assert forall i | 0 <= i < d :: front[i] == run[i];
  }

  /** Whether a token may end at a place shows in the seven characters before it. */
  lemma MatchInWindow(a: string, ka: nat, b: string, kb: nat)
    requires IsSane(a) && IsSane(b) && 7 <= ka <= |a| && 7 <= kb <= |b| && a[ka - 7..ka] == b[kb - 7..kb]
    requires MayEnd(a, ka) <==> MayEnd(b, kb)
    requires MatchesAt(a, 0, ka)
    ensures MatchesAt(b, 0, kb)
  {
    assert a[0..ka] == a[..ka] && b[0..kb] == b[..kb];
    var d :| 0 <= d < ka && HasExtensionAt(a[..ka], d);
    var e := kb - ka + d;
    SaneUpTo(a, d);
    assert a[..ka][..d] == a[..d] && a[..ka][d] == a[d];
    InWindow(a, ka, b, kb, d);
    InWindow(a, ka, b, kb, d - 1);
    forall i | e < i < kb ensures IsAlnum(b[i]) {
      InWindow(a, ka, b, kb, i - kb + ka);
      assert a[..ka][i - kb + ka] == a[i - kb + ka];
    }
    ExtensionInWindow(b, e, kb);
  }

  lemma InWindow(a: string, ka: nat, b: string, kb: nat, i: nat)
    requires 7 <= ka <= |a| && 7 <= kb <= |b| && a[ka - 7..ka] == b[kb - 7..kb] && ka - 7 <= i < ka
    ensures a[i] == b[kb - ka + i]
  {
    assert a[ka - 7..ka][i - ka + 7] == a[i];
  }

  lemma ExtensionInWindow(b: string, e: nat, kb: nat)
    requires IsSane(b) && 0 < e < kb <= |b| && b[e] == '.' && b[e - 1] != '/' && 2 <= kb - e <= 6
    requires forall i | e < i < kb :: IsAlnum(b[i])
    ensures HasShape(b[..kb])
  {
    SaneUpTo(b, e);
    assert b[..kb][..e] == b[..e];
    assert HasExtensionAt(b[..kb], e);
  }

  /** Two runs that agree from s on, shift places apart. */
  predicate AgreeFrom(a: string, b: string, s: nat, shift: nat) {
    && IsSane(a) && IsSane(b) && |a| == |b| + shift && shift <= s <= |a|
    && forall i | s <= i < |a| :: a[i] == b[i - shift]
  }

  lemma AgreeInWindow(a: string, b: string, s: nat, shift: nat, k: nat)
    requires AgreeFrom(a, b, s, shift) && s + 7 <= k <= |a| && shift + 7 <= k
    ensures MatchesAt(a, 0, k) <==> MatchesAt(b, 0, k - shift)
  {
    assert a[k - 7..k] == b[k - shift - 7..k - shift];
    assert MayEnd(a, k) <==> MayEnd(b, k - shift);
    if MatchesAt(a, 0, k) { MatchInWindow(a, k, b, k - shift); }
    if MatchesAt(b, 0, k - shift) { MatchInWindow(b, k - shift, a, k); }
  }

  lemma TokenShifts(a: string, b: string, s: nat, shift: nat, q: nat)
    requires AgreeFrom(a, b, s, shift) && TokenEnd(a, 0) == Some(q) && s + 7 <= q && shift + 7 <= q
    ensures TokenEnd(b, 0) == Some(q - shift)
  {
    TokenIsMatch(a, 0, q);
    AgreeInWindow(a, b, s, shift, q);
    LongestIsLongest(b, 0, |b|, q - shift);
    var r := TokenEnd(b, 0).value;
    TokenIsMatch(b, 0, r);
    AgreeInWindow(a, b, s, shift, r + shift);
    LongestIsLongest(a, 0, |a|, r + shift);
  }

  /** What a run of path characters holds is at most the token at its start. */
  lemma RunHolds(run: string, P: string -> bool)
    requires forall i | 0 <= i < |run| :: IsPathChar(run[i])
    ensures AllTokens(run, true, P) <==> (run != "" && TokenEnd(run, 0).Some? ==> P(run[..TokenEnd(run, 0).value]))
  {
    forall i | 0 < i < |run| ensures TokenEnd(run, i).None? {
      NoTokenAt(run, i);
    }
    if run != "" && TokenEnd(run, 0).Some? {
      assert run[0..TokenEnd(run, 0).value] == run[..TokenEnd(run, 0).value];
    }
  }

  /** The head and the rest of what is written. */
  lemma HeadAndRest(run: string, rest: string, P: string -> bool)
    requires rest != "" && !IsPathChar(rest[0])
    ensures AllTokens(run + rest, true, P) <==> AllTokens(run, true, P) && AllTokens(rest, true, P)
  {
    PartsHaveAll(run, rest, true, P);
    StartIsFree(rest, FreeAfter(run, true), true, P);
  }

  // ----- Two tokens cut alike are repaired alike.

  lemma LongIsCompatible(f: string, f': string, g: string)
    requires |f| > |g| && |f'| > |g| && f[|f| - |g| - 1..] == f'[|f'| - |g| - 1..]
    ensures FoldersCompatible(f, g) <==> FoldersCompatible(f', g)
  {
  }

  lemma SplitAt(u: string, at: nat)
    requires 0 < at <= |u| && u[at - 1] == '/' && forall i | at <= i < |u| :: u[i] != '/'
    ensures SplitPath(u) == Split(u[..at - 1], u[at..])
  {
    AfterLastIs(u, '/', at);
  }

  lemma CutSplitsAt(a: string, at: nat, q: nat, u: string)
    requires 0 < at <= q <= |a| && u == a[..q] && a[at - 1] == '/' && forall i | at <= i < q :: a[i] != '/'
    ensures SplitPath(u) == Split(a[..at - 1], a[at..q])
  {
    assert u[at - 1] == '/';
    assert forall i | at <= i < q :: u[i] == a[i];
    SplitAt(u, at);
    assert u[..at - 1] == a[..at - 1] && u[at..] == a[at..q];
  }

  lemma LastSlash(a: string, p: nat, q: nat) returns (at: nat)
    requires p < q <= |a| && a[p] == '/'
    ensures p < at <= q && a[at - 1] == '/' && forall i | at <= i < q :: a[i] != '/'
  {
    var u := a[..q];
    assert u[p] == '/';
    at := AfterLast(u, '/');
    assert forall i | 0 <= i < q :: u[i] == a[i];
  }

  lemma SliceAgrees(a: string, b: string, s: nat, shift: nat, i: nat, j: nat)
    requires AgreeFrom(a, b, s, shift) && s <= i <= j <= |a| && shift <= i
    ensures b[i - shift..j - shift] == a[i..j]
  {
  }

  lemma ShiftedSlash(a: string, b: string, s: nat, shift: nat, at: nat, q: nat)
    requires AgreeFrom(a, b, s, shift) && s < at <= q <= |a| && shift < at
    requires a[at - 1] == '/' && forall i | at <= i < q :: a[i] != '/'
    ensures b[at - shift - 1] == '/' && forall i | at - shift <= i < q - shift :: b[i] != '/'
  {
    assert b[at - 1 - shift] == a[at - 1];
    forall i | at - shift <= i < q - shift ensures b[i] != '/' {
      assert b[i] == a[i + shift];
    }
  }

  /** Beginnings of two runs that agree from s on split alike, at a slash behind s. */
  lemma CutsSplitAlike(a: string, b: string, s: nat, shift: nat, p: nat, q: nat, u: string, v: string) returns (e: nat)
    requires AgreeFrom(a, b, s, shift) && s <= p < q <= |a| && shift <= p && a[p] == '/' && u == a[..q] && v == b[..q - shift]
    ensures p <= e < q
    ensures SplitPath(u) == Split(a[..e], a[e + 1..q]) && SplitPath(v) == Split(b[..e - shift], a[e + 1..q])
  {
    var at := LastSlash(a, p, q);
    e := at - 1;
    CutSplitsAt(a, at, q, u);
    ShiftedSlash(a, b, s, shift, at, q);
    CutSplitsAt(b, at - shift, q - shift, v);
    SliceAgrees(a, b, s, shift, at, q);
    assert at - shift - 1 == e - shift;
  }

  lemma TooLong(u: string, known: seq<string>)
    requires |u| > LongestOf(known)
    ensures u !in known
  {
  }

  lemma FoldersAlike(a: string, b: string, s: nat, shift: nat, e: nat, g: string)
    requires AgreeFrom(a, b, s, shift) && s + |g| + 1 <= e <= |a| && shift + |g| + 1 <= e
    ensures FoldersCompatible(a[..e], g) <==> FoldersCompatible(b[..e - shift], g)
  {
    var f, f' := a[..e], b[..e - shift];
    assert f[e - |g| - 1..] == f'[e - shift - |g| - 1..];
    LongIsCompatible(f, f', g);
  }

  lemma KnownFoldersAlike(a: string, b: string, s: nat, shift: nat, e: nat, known: seq<string>)
    requires AgreeFrom(a, b, s, shift) && s + LongestOf(known) + 1 <= e <= |a| && shift + LongestOf(known) + 1 <= e
    ensures AlikeFolders(a[..e], b[..e - shift], known)
  {
    forall j | 0 <= j < |known|
      ensures FoldersCompatible(a[..e], FolderOf(known[j])) <==> FoldersCompatible(b[..e - shift], FolderOf(known[j]))
    {
      FolderIsShort(known[j]);
      FoldersAlike(a, b, s, shift, e, FolderOf(known[j]));
    }
  }

  lemma SplitAlikeStayAlike(u: string, v: string, f: string, f': string, name: string, known: seq<string>, exists_: string -> bool)
    requires SplitPath(u) == Split(f, name) && SplitPath(v) == Split(f', name) && Never(exists_)
    requires |u| > LongestOf(known) && |v| > LongestOf(known) && AlikeFolders(f, f', known)
    ensures Stays(u, known, exists_) <==> Stays(v, known, exists_)
  {
    TooLong(u, known);
    TooLong(v, known);
    SameRepair(u, v, known, exists_);
  }

  lemma CutsAlike(a: string, b: string, s: nat, shift: nat, p: nat, q: nat, u: string, v: string, known: seq<string>)
    returns (f: string, f': string, name: string)
    requires AgreeFrom(a, b, s, shift) && p < q <= |a| && a[p] == '/'
    requires s + LongestOf(known) + 2 <= p && shift + LongestOf(known) + 2 <= p
    requires u == a[..q] && v == b[..q - shift]
    ensures SplitPath(u) == Split(f, name) && SplitPath(v) == Split(f', name) && AlikeFolders(f, f', known)
  {
    var e := CutsSplitAlike(a, b, s, shift, p, q, u, v);
    KnownFoldersAlike(a, b, s, shift, e, known);
    f, f', name := a[..e], b[..e - shift], a[e + 1..q];
  }

  /** And so they are repaired alike, when the slash is well behind s. */
  lemma CutsStayAlike(a: string, b: string, s: nat, shift: nat, p: nat, q: nat, u: string, v: string,
                      known: seq<string>, exists_: string -> bool)
    requires AgreeFrom(a, b, s, shift) && Never(exists_) && p < q <= |a| && a[p] == '/'
    requires s + LongestOf(known) + 2 <= p && shift + LongestOf(known) + 2 <= p
    requires u == a[..q] && v == b[..q - shift]
    ensures Stays(u, known, exists_) <==> Stays(v, known, exists_)
  {
    var f, f', name := CutsAlike(a, b, s, shift, p, q, u, v, known);
    assert |u| == q && |v| == q - shift;
    SplitAlikeStayAlike(u, v, f, f', name, known, exists_);
  }

  // ----- Clipping a token that breaks the promise.

  /** Longer than any known path, with room for a dot and an extension. */
  function Margin(known: seq<string>): nat {
    LongestOf(known) + 10
  }

  /** The end of a folder behind a segment that begins with an "x". */
  function Clip(folder: string, margin: nat): string
    requires |folder| > 3 * margin
  {
    "x" + folder[|folder| - 2 * margin..]
  }

  lemma ClipIsJoined(folder: string, margin: nat)
    requires |folder| > 3 * margin && margin > 0 && IsJoinedNames(folder)
    ensures IsJoinedNames(Clip(folder, margin))
  {
    var s, f := |folder| - 2 * margin, Clip(folder, margin);
    assert forall i | 0 < i < |f| :: f[i] == folder[s + i - 1];
  }

  lemma RunIsSane(folder: string, w: string)
    requires IsJoinedNames(folder) && PlainName(w)
    ensures IsSane(folder + "/" + w)
  {
    var run := folder + "/" + w;
    assert run[|folder|] == '/';
    assert forall i | 0 <= i < |folder| :: run[i] == folder[i];
    assert forall i | |folder| < i < |run| :: run[i] == w[i - |folder| - 1];
  }

  lemma ClipAgrees(folder: string, margin: nat, w: string, a: string, b: string, s: nat)
    requires |folder| > 3 * margin && margin > 0 && IsJoinedNames(folder) && PlainName(w)
    requires a == folder + "/" + w && b == Clip(folder, margin) + "/" + w && s == |folder| - 2 * margin
    ensures s >= 1 && AgreeFrom(a, b, s, s - 1)
  {
    ClipIsJoined(folder, margin);
    RunIsSane(folder, w);
    RunIsSane(Clip(folder, margin), w);
    forall i | s <= i < |a| ensures a[i] == b[i - s + 1] {
      if i < |folder| {
        assert Clip(folder, margin)[i - s + 1] == folder[i];
      }
    }
  }

  lemma ClipIsAlike(folder: string, known: seq<string>)
    requires |folder| > 3 * Margin(known)
    ensures AlikeFolders(folder, Clip(folder, Margin(known)), known)
  {
    var f := Clip(folder, Margin(known));
    forall j | 0 <= j < |known|
      ensures FoldersCompatible(folder, FolderOf(known[j])) <==> FoldersCompatible(f, FolderOf(known[j]))
    {
      FolderIsShort(known[j]);
      var g := FolderOf(known[j]);
      assert folder[|folder| - |g| - 1..] == f[|f| - |g| - 1..];
      LongIsCompatible(folder, f, g);
    }
  }

  lemma TailIsJoined(folder: string, g: string)
    requires IsJoinedNames(folder) && EndsWith(folder, "/" + g)
    ensures IsJoinedNames(g)
  {
    var s := |folder| - |g|;
    assert folder[s - 1..] == "/" + g;
    assert folder[s - 1] == '/' && forall i | 0 <= i < |g| :: g[i] == folder[s + i];
  }

  lemma EndInRun(run: string, p: nat, h: string, d: nat, k: nat, q: nat)
    requires IsSane(run) && p < |run| && run[p + 1..] == h && EndsToken(h, d, k) && q == p + 1 + k
    ensures q <= |run| && MatchesAt(run, 0, q)
  {
    assert forall i | 0 <= i < |h| :: run[p + 1 + i] == h[i];
    ExtensionInWindow(run, p + 1 + d, q);
    assert run[0..q] == run[..q];
  }

  lemma HeadBehind(folder: string, g: string, w: string, run: string, head: string) returns (p: nat)
    requires IsJoinedNames(folder) && |folder| > |g| && FoldersCompatible(folder, g)
    requires run == folder + "/" + w && head == (if g == "" then "" else g + "/") + w
    ensures p < |run| && run[p] == '/' && run[p + 1..] == head && p + |g| + 1 >= |folder|
    ensures g == "" || IsJoinedNames(g)
  {
    if g == "" {
      p := |folder|;
      assert head == w;
    } else {
      TailIsJoined(folder, g);
      p := |folder| - |g| - 1;
      assert folder == folder[..p] + ("/" + g);
      SlashFolder(folder[..p], g, w);
      assert run == folder[..p] + "/" + head;
    }
  }

  /** The token a run begins with, if it does, is left alone. */
  ghost predicate IsQuiet(run: string, known: seq<string>, exists_: string -> bool) {
    run != "" && TokenEnd(run, 0).Some? ==> Stays(run[..TokenEnd(run, 0).value], known, exists_)
  }

  lemma QuietRun(run: string, known: seq<string>, exists_: string -> bool)
    requires IsSane(run)
    ensures AllTokens(run, true, Stayer(known, exists_)) <==> IsQuiet(run, known, exists_)
  {
    RunHolds(run, Stayer(known, exists_));
  }

  lemma ClippedToken(a: string, b: string, s: nat, shift: nat, q: nat) returns (e: nat)
    requires AgreeFrom(a, b, s, shift) && q <= |a| && MatchesAt(a, 0, q) && s + 7 <= q && shift + 7 <= q
    ensures q <= e <= |a| && TokenEnd(a, 0) == Some(e) && TokenEnd(b, 0) == Some(e - shift)
  {
    e := TokenReaches(a, q);
    TokenShifts(a, b, s, shift, e);
  }

  /** The beginnings up to e and e' of two runs, left alone alike. */
  ghost predicate StayAlike(a: string, e: nat, b: string, e': nat, known: seq<string>, exists_: string -> bool)
    requires e <= |a| && e' <= |b|
  {
    Stays(a[..e], known, exists_) <==> Stays(b[..e'], known, exists_)
  }

  lemma TokensStayAlike(a: string, b: string, s: nat, shift: nat, p: nat, e: nat, e': nat, known: seq<string>, exists_: string -> bool)
    requires AgreeFrom(a, b, s, shift) && Never(exists_) && p < e <= |a| && a[p] == '/' && e' + shift == e
    requires s + LongestOf(known) + 2 <= p && shift + LongestOf(known) + 2 <= p
    ensures StayAlike(a, e, b, e', known, exists_)
  {
    var u, v := a[..e], b[..e'];
    assert e' == e - shift;
    CutsStayAlike(a, b, s, shift, p, e, u, v, known, exists_);
  }

  lemma QuietAlike(a: string, b: string, e: nat, e': nat, known: seq<string>, exists_: string -> bool)
    requires a != "" && b != "" && e <= |a| && e' <= |b| && TokenEnd(a, 0) == Some(e) && TokenEnd(b, 0) == Some(e')
    requires StayAlike(a, e, b, e', known, exists_)
    ensures IsQuiet(a, known, exists_) <==> IsQuiet(b, known, exists_)
  {
  }

  lemma QuietWithTokens(a: string, b: string, s: nat, shift: nat, p: nat, e: nat, e': nat, known: seq<string>, exists_: string -> bool)
    requires AgreeFrom(a, b, s, shift) && Never(exists_) && p < e <= |a| && a[p] == '/' && e' + shift == e
    requires s + LongestOf(known) + 2 <= p && shift + LongestOf(known) + 2 <= p
    requires TokenEnd(a, 0) == Some(e) && TokenEnd(b, 0) == Some(e')
    ensures IsQuiet(a, known, exists_) <==> IsQuiet(b, known, exists_)
  {
    TokensStayAlike(a, b, s, shift, p, e, e', known, exists_);
    QuietAlike(a, b, e, e', known, exists_);
  }

  lemma TokenReaches(a: string, q: nat) returns (e: nat)
    requires 0 < q <= |a| && MatchesAt(a, 0, q)
    ensures q <= e <= |a| && TokenEnd(a, 0) == Some(e)
  {
    LongestIsLongest(a, 0, |a|, q);
    e := TokenEnd(a, 0).value;
  }

  lemma NotOpenEnds(path: string) returns (d: nat, k: nat)
    requires !Open(path) && (FolderOf(path) == "" || IsJoinedNames(FolderOf(path)))
    ensures EndsToken(HeadOf(path), d, k)
  {
    d, k :| EndsToken(HeadOf(path), d, k);
  }

  lemma EndBehind(folder: string, g: string, w: string, head: string, d: nat, k: nat, a: string) returns (p: nat, q: nat)
    requires IsJoinedNames(folder) && |folder| > |g| && FoldersCompatible(folder, g) && PlainName(w)
    requires head == (if g == "" then "" else g + "/") + w && EndsToken(head, d, k) && a == folder + "/" + w
    ensures p < q <= |a| && a[p] == '/' && MatchesAt(a, 0, q) && p + |g| + 1 >= |folder|
  {
    p := HeadBehind(folder, g, w, a, head);
    q := p + 1 + k;
    RunIsSane(folder, w);
    EndInRun(a, p, head, d, k, q);
  }

  /** A run that agrees with one in which a token ends well behind s is as quiet. */
  lemma ClippedIsQuiet(a: string, b: string, s: nat, p: nat, q: nat, known: seq<string>, exists_: string -> bool)
    requires Never(exists_) && s >= 1 && AgreeFrom(a, b, s, s - 1) && p < q <= |a| && a[p] == '/' && MatchesAt(a, 0, q)
    requires s + Margin(known) <= p
    ensures IsQuiet(a, known, exists_) <==> IsQuiet(b, known, exists_)
  {
    var e := ClippedToken(a, b, s, s - 1, q);
    QuietWithTokens(a, b, s, s - 1, p, e, e - (s - 1), known, exists_);
  }

  /** Where a token ends in a head behind a long folder. */
  lemma ClipEnds(folder: string, g: string, w: string, head: string, d: nat, k: nat, known: seq<string>, a: string, b: string, s: nat)
    returns (p: nat, q: nat)
    requires |g| <= LongestOf(known) && IsJoinedNames(folder) && |folder| > 3 * Margin(known)
    requires FoldersCompatible(folder, g) && PlainName(w) && head == (if g == "" then "" else g + "/") + w && EndsToken(head, d, k)
    requires a == folder + "/" + w && b == Clip(folder, Margin(known)) + "/" + w && s == |folder| - 2 * Margin(known)
    ensures s >= 1 && AgreeFrom(a, b, s, s - 1) && p < q <= |a| && a[p] == '/' && MatchesAt(a, 0, q)
    ensures s + Margin(known) <= p
  {
    p, q := EndBehind(folder, g, w, head, d, k, a);
    FarEnough(|folder|, LongestOf(known), |g|, p, s);
    ClipAgrees(folder, Margin(known), w, a, b, s);
  }

  lemma FarEnough(f: nat, longest: nat, g: nat, p: nat, s: nat)
    requires g <= longest && p + g + 1 >= f && f > 3 * (longest + 10) && s == f - 2 * (longest + 10)
    ensures s + longest + 10 <= p
  {
  }

  // ----- The small model.

  lemma CopyOfOutsideIsShorter(m: string, n: string)
    requires IsCopy(m, n) && PlainName(m) && !PlainName(n)
    ensures |m| < |n| <= |m| + 2 && Embeds(m, n)
  {
    CopyReplacesNothing(m, n);
    if |m| >= |n| {
      var f :| Places(f, n, m);
      forall i | 0 <= i < |n| ensures IsNameChar(n[i]) {
        assert m[f[i]] == n[i];
      }
    }
  }

  lemma PartsOfWritten(folder: string, n: string, c: nat)
    requires c < |n|
    ensures folder + "/" + n == folder + "/" + n[..c] + n[c..] && n[c..] != "" && n[c..][0] == n[c]
  {
    assert n == n[..c] + n[c..];
    Associates(folder + "/", n[..c], n[c..]);
  }

  lemma OutsideIsNoPath(n: string, c: nat)
    requires !HasSlash(n) && c < |n| && !IsNameChar(n[c])
    ensures !IsPathChar(n[c])
  {
  }

  /** A name with an outside character, written behind a folder: its head, and the rest from that character on. */
  lemma WrittenParts(folder: string, n: string, known: seq<string>, exists_: string -> bool)
    requires IsJoinedNames(folder) && !PlainName(n) && !HasSlash(n)
    ensures var c := FirstOutside(n);
      Idle(folder + "/" + n, known, exists_) <==>
        IsQuiet(folder + "/" + n[..c], known, exists_) && AllTokens(n[c..], true, Stayer(known, exists_))
  {
    var c := FirstOutside(n);
    PartsOfWritten(folder, n, c);
    OutsideIsNoPath(n, c);
    IdleIsAll(folder + "/" + n, known, exists_);
    RunIsSane(folder, n[..c]);
    RunAndRest(folder + "/" + n[..c], n[c..], known, exists_);
  }

  lemma RunAndRest(run: string, rest: string, known: seq<string>, exists_: string -> bool)
    requires IsSane(run) && rest != "" && !IsPathChar(rest[0])
    ensures AllTokens(run + rest, true, Stayer(known, exists_)) <==>
      IsQuiet(run, known, exists_) && AllTokens(rest, true, Stayer(known, exists_))
  {
    HeadAndRest(run, rest, Stayer(known, exists_));
    QuietRun(run, known, exists_);
  }

  /** Behind a long folder compatible with a path in whose head a token ends, the name leaves as much to repair as
      behind the clipped folder. */
  lemma ClippedIsIdle(folder: string, path: string, known: seq<string>, exists_: string -> bool)
    requires Never(exists_) && path in known && !Open(path) && !PlainName(NameOf(path))
    requires IsJoinedNames(folder) && |folder| > 3 * Margin(known) && FoldersCompatible(folder, FolderOf(path))
    ensures Idle(folder + "/" + NameOf(path), known, exists_) <==>
      Idle(Clip(folder, Margin(known)) + "/" + NameOf(path), known, exists_)
  {
    var n, g := NameOf(path), FolderOf(path);
    var w := n[..FirstOutside(n)];
    ClipIsJoined(folder, Margin(known));
    WrittenParts(folder, n, known, exists_);
    WrittenParts(Clip(folder, Margin(known)), n, known, exists_);
    FolderIsShort(path);
    HeadIsAlikeQuiet(folder, g, w, path, known, exists_);
  }

  lemma HeadIsAlikeQuiet(folder: string, g: string, w: string, path: string, known: seq<string>, exists_: string -> bool)
    requires Never(exists_) && !Open(path) && g == FolderOf(path) && |g| <= LongestOf(known) && PlainName(w)
    requires HeadOf(path) == (if g == "" then "" else g + "/") + w
    requires IsJoinedNames(folder) && |folder| > 3 * Margin(known) && FoldersCompatible(folder, g)
    ensures IsQuiet(folder + "/" + w, known, exists_) <==> IsQuiet(Clip(folder, Margin(known)) + "/" + w, known, exists_)
  {
    var a, b, s := folder + "/" + w, Clip(folder, Margin(known)) + "/" + w, |folder| - 2 * Margin(known);
    if g != "" { TailIsJoined(folder, g); }
    var d, k := NotOpenEnds(path);
    var p, q := ClipEnds(folder, g, w, HeadOf(path), d, k, known, a, b, s);
    ClippedIsQuiet(a, b, s, p, q, known, exists_);
  }

  /** A token repaired to a known name with an outside character, of a path that is not open. */
  ghost predicate ClosedRepair(known: seq<string>, exists_: string -> bool, t: string, i: nat) {
    && HasShape(t) && !Stays(t, known, exists_) && i < |known| && Matches(t, known[i])
    && !PlainName(NameOf(known[i])) && !Open(known[i])
  }

  /** The length of tokens that need to be looked at. */
  function Bound(known: seq<string>): nat {
    4 * Margin(known)
  }

  lemma SplitOfToken(t: string)
    requires FolderOf(t) != ""
    ensures t == FolderOf(t) + "/" + NameOf(t) && !HasSlash(NameOf(t))
  {
  }

  lemma RepairedName(t: string, known: seq<string>, exists_: string -> bool, i: nat, folder: string, m: string)
    requires !Stays(t, known, exists_) && i < |known| && Matches(t, known[i]) && SplitPath(t) == Split(folder, m) && folder != ""
    ensures Fixed(t, known, exists_) == folder + "/" + NameOf(known[i])
  {
    FixedIsTheOneMatch(t, known, exists_, i);
  }

  /** What is near a token's name is shorter than the bound leaves room for. */
  lemma RepairedIsShort(t: string, known: seq<string>, i: nat)
    requires HasShape(t) && i < |known| && Matches(t, known[i]) && !PlainName(NameOf(known[i]))
    ensures HasShape(NameOf(t)) && PlainName(NameOf(t)) && |NameOf(t)| < LongestOf(known)
  {
    CopyReplacesNothing(NameOf(t), NameOf(known[i]));
    NameHasShape(t);
    CopyOfOutsideIsShorter(NameOf(t), NameOf(known[i]));
    FolderIsShort(known[i]);
    assert |known[i]| <= LongestOf(known);
  }

  lemma FolderOfTokenIsJoined(t: string)
    requires HasShape(t) && FolderOf(t) != ""
    ensures IsJoinedNames(FolderOf(t))
  {
    var d :| 0 <= d < |t| && HasExtensionAt(t, d);
    TokenFolderIsJoined(t, d);
  }

  lemma ClippedToken'(known: seq<string>, exists_: string -> bool, t: string, i: nat, folder: string, m: string, f: string, t': string)
    requires Never(exists_) && ClosedRepair(known, exists_, t, i) && SplitPath(t) == Split(folder, m)
    requires |folder| > 3 * Margin(known) && f == Clip(folder, Margin(known)) && t' == f + "/" + m
    ensures IsJoinedNames(folder) && SplitPath(t') == Split(f, m) && ClosedRepair(known, exists_, t', i)
  {
    SplitOfToken(t);
    FolderOfTokenIsJoined(t);
    RepairedIsShort(t, known, i);
    ClipIsJoined(folder, Margin(known));
    ShapeInFolder(f, m, t');
    SplitOfJoined(f, m);
    ClipIsAlike(folder, known);
    SplitAlikeStayAlike(t, t', folder, f, m, known, exists_);
    MatchesAlike(t, t', known, i, folder, f, m);
  }

  lemma MatchesAlike(t: string, t': string, known: seq<string>, i: nat, folder: string, f: string, m: string)
    requires i < |known| && Matches(t, known[i]) && AlikeFolders(folder, f, known)
    requires SplitPath(t) == Split(folder, m) && SplitPath(t') == Split(f, m)
    ensures Matches(t', known[i])
  {
  }

  /** A token with a long folder that breaks the promise does so with the folder clipped. */
  lemma ClippedBreaks(known: seq<string>, exists_: string -> bool, t: string, i: nat) returns (t': string)
    requires Never(exists_) && ClosedRepair(known, exists_, t, i) && |FolderOf(t)| > 3 * Margin(known)
    requires !Idle(Fixed(t, known, exists_), known, exists_)
    ensures ClosedRepair(known, exists_, t', i) && |t'| <= Bound(known) && !Idle(Fixed(t', known, exists_), known, exists_)
  {
    var folder, m, f := FolderOf(t), NameOf(t), Clip(FolderOf(t), Margin(known));
    t' := f + "/" + m;
    ClippedToken'(known, exists_, t, i, folder, m, f, t');
    RepairedIsShort(t, known, i);
    RepairedName(t, known, exists_, i, folder, m);
    RepairedName(t', known, exists_, i, f, m);
    ClippedIsIdle(folder, known[i], known, exists_);
  }

  /** A token that breaks the promise can be taken within the bound, when its known path is not open. */
  lemma ShortBreaks(known: seq<string>, exists_: string -> bool, t: string, i: nat) returns (t': string)
    requires Never(exists_) && ClosedRepair(known, exists_, t, i) && !Idle(Fixed(t, known, exists_), known, exists_)
    ensures ClosedRepair(known, exists_, t', i) && |t'| <= Bound(known) && !Idle(Fixed(t', known, exists_), known, exists_)
  {
    if |FolderOf(t)| > 3 * Margin(known) {
      t' := ClippedBreaks(known, exists_, t, i);
    } else {
      t' := t;
      RepairedIsShort(t, known, i);
      if FolderOf(t) != "" { SplitOfToken(t); } else { NoFolder(t); }
    }
  }

  lemma NoFolder(t: string)
    requires HasShape(t) && FolderOf(t) == ""
    ensures |t| == |NameOf(t)|
  {
    ShapeIsJoined(t);
    NoSlashAtFront(t, NameOf(t));
  }

  lemma NoSlashAtFront(t: string, name: string)
    requires t != "" && t[0] != '/' && SplitPath(t) == Split("", name)
    ensures t == name
  {
    assert ("" + "/" + name)[0] == '/';
  }

  // ----- The promise, told by the known paths.

  lemma BreakingToken(text: string, known: seq<string>, exists_: string -> bool) returns (t: string)
    requires !KeepsThePromise(text, known, exists_)
    ensures HasShape(t) && !Stays(t, known, exists_) && !Idle(Fixed(t, known, exists_), known, exists_)
  {
    SecondPassIsIdleIff(text, known, exists_);
    t :| t in Tokens(text) && !Stays(t, known, exists_) && !Idle(Fixed(t, known, exists_), known, exists_);
    TokensHaveShape(text, 0, t);
  }

  lemma TokenBreaks(t: string, known: seq<string>, exists_: string -> bool)
    requires HasShape(t) && !Stays(t, known, exists_) && !Idle(Fixed(t, known, exists_), known, exists_)
    ensures !KeepsThePromise(t, known, exists_)
  {
    WholeToken(t, Fixer(known, exists_));
  }

  /** What breaks the promise puts in a name with an outside character. */
  lemma BreakingPutsIn(t: string, known: seq<string>, exists_: string -> bool) returns (i: nat)
    requires HasShape(t) && !Stays(t, known, exists_) && !Idle(Fixed(t, known, exists_), known, exists_)
    ensures i < |known| && Matches(t, known[i]) && !PlainName(NameOf(known[i])) && PutsIn(known, i, NameOf(t))
  {
    i := SomeMatch(t, known);
    FixedIsTheOneMatch(t, known, exists_, i);
    if PlainName(NameOf(known[i])) {
      PlainFixedIsIdle(t, known, exists_);
    }
    RepairedPutsIn(t, known, exists_, i);
  }

  /** No name can be put in for an open path. */
  ghost predicate NoneIntoOpen(known: seq<string>) {
    forall i: nat, m :: PutsIn(known, i, m) ==> !Open(known[i])
  }

  /** The outside character cuts what is put in: the token its head begins with, and those of the rest of the known
      name, are left alone. */
  ghost predicate PiecesStay(folder: string, name: string, known: seq<string>, exists_: string -> bool) {
    && IsQuiet((if folder == "" then "" else folder + "/") + name[..FirstOutside(name)], known, exists_)
    && forall t | t in Tokens(name[FirstOutside(name)..]) :: Stays(t, known, exists_)
  }

  lemma PiecesAreAll(folder: string, name: string, known: seq<string>, exists_: string -> bool)
    requires (folder != "" ==> IsJoinedNames(folder)) && !PlainName(name) && !HasSlash(name)
    ensures Idle(if folder == "" then name else folder + "/" + name, known, exists_) <==> PiecesStay(folder, name, known, exists_)
  {
    var c := FirstOutside(name);
    TokensAreAll(name[c..], Stayer(known, exists_));
    if folder == "" {
      BareParts(name, known, exists_);
    } else {
      WrittenParts(folder, name, known, exists_);
    }
  }

  lemma BareParts(name: string, known: seq<string>, exists_: string -> bool)
    requires !PlainName(name) && !HasSlash(name)
    ensures var c := FirstOutside(name);
      Idle(name, known, exists_) <==> IsQuiet("" + name[..c], known, exists_) && AllTokens(name[c..], true, Stayer(known, exists_))
  {
    var c := FirstOutside(name);
    assert name == name[..c] + name[c..] && name[c..][0] == name[c] && "" + name[..c] == name[..c];
    OutsideIsNoPath(name, c);
    IdleIsAll(name, known, exists_);
    HeadAndRest(name[..c], name[c..], Stayer(known, exists_));
    RunHolds(name[..c], Stayer(known, exists_));
  }

  /** So it is with what a token is repaired to. */
  lemma FixedPieces(t: string, known: seq<string>, exists_: string -> bool, i: nat)
    requires HasShape(t) && !Stays(t, known, exists_) && i < |known| && Matches(t, known[i]) && !PlainName(NameOf(known[i]))
    ensures Idle(Fixed(t, known, exists_), known, exists_) <==> PiecesStay(FolderOf(t), NameOf(known[i]), known, exists_)
  {
    FixedIsTheOneMatch(t, known, exists_, i);
    if FolderOf(t) != "" { FolderOfTokenIsJoined(t); }
    PiecesAreAll(FolderOf(t), NameOf(known[i]), known, exists_);
  }

  /** What tokens within the bound have put in for the other paths is left alone, piece by piece. */
  ghost predicate ClosedPiecesStay(known: seq<string>, exists_: string -> bool) {
    forall t, i: nat | ClosedRepair(known, exists_, t, i) && |t| <= Bound(known) ::
      PiecesStay(FolderOf(t), NameOf(known[i]), known, exists_)
  }

  /** While no file exists, a second pass changes nothing on any text if and only if no name can be put in for an open
      known path, and of the others the pieces of what is put in are left alone, for tokens up to the bound. */
  lemma PromiseIff(known: seq<string>, exists_: string -> bool)
    requires Never(exists_)
    ensures (forall text :: KeepsThePromise(text, known, exists_)) <==> NoneIntoOpen(known) && ClosedPiecesStay(known, exists_)
  {
    if NoneIntoOpen(known) && ClosedPiecesStay(known, exists_) {
      forall text ensures KeepsThePromise(text, known, exists_) {
        KeptWhenClosed(text, known, exists_);
      }
    } else if !NoneIntoOpen(known) {
      var i: nat, m :| PutsIn(known, i, m) && Open(known[i]);
      var text := OpenPathBreaks(known, exists_, i, m);
    } else {
      var t, i: nat :| ClosedRepair(known, exists_, t, i) && |t| <= Bound(known) && !PiecesStay(FolderOf(t), NameOf(known[i]), known, exists_);
      FixedPieces(t, known, exists_, i);
      TokenBreaks(t, known, exists_);
    }
  }

  lemma KeptWhenClosed(text: string, known: seq<string>, exists_: string -> bool)
    requires Never(exists_) && NoneIntoOpen(known) && ClosedPiecesStay(known, exists_)
    ensures KeepsThePromise(text, known, exists_)
  {
    if !KeepsThePromise(text, known, exists_) {
      var t := BreakingToken(text, known, exists_);
      var i := BreakingPutsIn(t, known, exists_);
      var t' := ShortBreaks(known, exists_, t, i);
      FixedPieces(t', known, exists_, i);
    }
  }

  /** When all known paths with an outside character in their name are open: exactly if no token is repaired to such a
      name, and that is if none can be put in. */
  lemma OpenPathsIff(known: seq<string>, exists_: string -> bool)
    requires Never(exists_) && forall j | 0 <= j < |known| && !PlainName(NameOf(known[j])) :: Open(known[j])
    ensures (forall text :: KeepsThePromise(text, known, exists_)) <==> (forall i: nat, m :: !PutsIn(known, i, m))
    ensures (forall text :: KeepsThePromise(text, known, exists_)) <==>
      (forall t | HasShape(t) && !Stays(t, known, exists_) :: PlainName(NameOf(Fixed(t, known, exists_))))
  {
    PromiseIff(known, exists_);
    assert ClosedPiecesStay(known, exists_);
    forall t | HasShape(t) && !Stays(t, known, exists_) && !PlainName(NameOf(Fixed(t, known, exists_)))
      ensures exists i: nat, m :: PutsIn(known, i, m)
    {
      var i := SomeMatch(t, known);
      FixedIsTheOneMatch(t, known, exists_, i);
      RepairedPutsIn(t, known, exists_, i);
    }
    if forall t | HasShape(t) && !Stays(t, known, exists_) :: PlainName(NameOf(Fixed(t, known, exists_))) {
      forall text ensures KeepsThePromise(text, known, exists_) {
        if !KeepsThePromise(text, known, exists_) {
          var t := BreakingToken(text, known, exists_);
          PlainFixedIsIdle(t, known, exists_);
        }
      }
    }
  }

  // ----- The names that can be put in are few.

  lemma {:induction false} PlacesAbove(f: seq<int>, s: string, l: string, k: nat)
    requires Places(f, s, l) && k < |f|
    ensures k <= f[k] <= |l| - (|f| - k)
    decreases |f| - k
  {
    PlacesAtLeast(f, s, l, k);
    if k + 1 < |f| {
      PlacesAbove(f, s, l, k + 1);
    }
  }

  lemma {:induction false} PlacesAtLeast(f: seq<int>, s: string, l: string, k: nat)
    requires Places(f, s, l) && k < |f|
    ensures k <= f[k]
  {
    if k > 0 {
      PlacesAtLeast(f, s, l, k - 1);
    }
  }

  lemma EmbedsWhole(s: string, l: string)
    requires Embeds(s, l) && |s| == |l|
    ensures s == l
  {
    var f :| Places(f, s, l);
    forall k | 0 <= k < |s| ensures s[k] == l[k] {
      PlacesAbove(f, s, l, k);
    }
  }

  /** The first place that f leaves out. */
  lemma LeftOut(f: seq<int>, s: string, l: string) returns (a: nat)
    requires Places(f, s, l) && |s| < |l|
    ensures a <= |s| && (forall k | 0 <= k < a :: f[k] == k) && (forall k | a <= k < |s| :: f[k] > a)
  {
    a := 0;
    while a < |s| && f[a] == a
      invariant a <= |s| && forall k | 0 <= k < a :: f[k] == k
    {
      a := a + 1;
    }
    if a < |s| {
      PlacesAtLeast(f, s, l, a);
    }
  }

  /** What embeds in a longer name embeds in it without one of its characters. */
  lemma DropOne(s: string, l: string) returns (a: nat)
    requires Embeds(s, l) && |s| < |l|
    ensures a < |l| && Embeds(s, Without(l, a))
  {
    var f :| Places(f, s, l);
    a := LeftOut(f, s, l);
    PlacedWithout(f, s, l, a);
  }

  lemma PlacedWithout(f: seq<int>, s: string, l: string, a: nat)
    requires Places(f, s, l) && a <= |s| < |l|
    requires (forall k | 0 <= k < a :: f[k] == k) && (forall k | a <= k < |s| :: f[k] > a)
    ensures Embeds(s, Without(l, a))
  {
    var g := seq(|s|, k requires 0 <= k < |s| => if k < a then f[k] else f[k] - 1);
    forall k | 0 <= k < |s| ensures 0 <= g[k] < |Without(l, a)| && Without(l, a)[g[k]] == s[k] {
      assert l[f[k]] == s[k];
    }
    assert Places(g, s, Without(l, a));
  }

  /** A name that can be put in is the known name without one or two of its characters. */
  lemma PutInIsDeletion(known: seq<string>, i: nat, m: string) returns (a: nat, b: nat)
    requires PutsIn(known, i, m)
    ensures var n := NameOf(known[i]);
      a < |n| && (m == Without(n, a) || (b < |n| - 1 && m == Without(Without(n, a), b)))
  {
    var n := NameOf(known[i]);
    CopyOfOutsideIsShorter(m, n);
    a := DropOne(m, n);
    b := 0;
    if |m| == |n| - 1 {
      EmbedsWhole(m, Without(n, a));
    } else {
      b := DropOne(m, Without(n, a));
      EmbedsWhole(m, Without(Without(n, a), b));
    }
  }
}
