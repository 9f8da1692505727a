/** Putting mis-copied artifact references back to the known path
    (packages/core/src/agent/artifact-path-repair.ts, lines 87 to 99 and 145 to 181).

    Whether a file exists does not change while one text is repaired. */
module PathRepair {
  import opened Common
  import opened NearCopy
  import opened PathTokens

  // ----- Paths.

  predicate HasSlash(s: string) {
    exists i | 0 <= i < |s| :: s[i] == '/'
  }

  /** The position after the last occurrence of c: 0 when there is none. */
  function AfterLast(s: string, c: char): (r: nat)
    ensures r <= |s|
    ensures r > 0 ==> s[r - 1] == c
    ensures forall i | r <= i < |s| :: s[i] != c
  {
    if s == [] then 0 else if Last(s) == c then |s| else AfterLast(Init(s), c)
  }

  datatype Split = Split(folder: string, name: string)

  /** `splitPath`, lines 87 to 90. */
  function SplitPath(path: string): (r: Split)
    ensures !HasSlash(r.name)
    ensures HasSlash(path) ==> path == r.folder + "/" + r.name
    ensures !HasSlash(path) ==> r == Split("", path)
  {
    var at := AfterLast(path, '/');
    if at == 0 then Split("", path)
    else
      assert path == path[..at - 1] + [path[at - 1]] + path[at..];
      Split(path[..at - 1], path[at..])
  }

  /** A path splits in one way only. */
  lemma SplitOfJoined(folder: string, name: string)
    requires !HasSlash(name)
    ensures SplitPath(folder + "/" + name) == Split(folder, name)
  {
    var path := folder + "/" + name;
    assert path[|folder|] == '/';
    var r := SplitPath(path);
    var at := AfterLast(path, '/');
    forall i | |folder| < i < |path| ensures path[i] != '/' {
      assert path[i] == name[i - |folder| - 1];
    }
    assert at == |folder| + 1;
    assert path[..at - 1] == folder && path[at..] == name;
  }

  /** `extensionOf`, lines 92 to 94: the whole name when it has no dot. */
  function ExtensionOf(name: string): string {
    Lower(name[AfterLast(name, '.')..])
  }

  /** What stands behind the last dot, in lower case, or the whole name. */
  lemma ExtensionIs(base: string, extension: string)
    requires '.' !in extension
    ensures ExtensionOf(base + ['.'] + extension) == Lower(extension) && ExtensionOf(extension) == Lower(extension)
  {
    var name := base + ['.'] + extension;
    assert forall i | 0 <= i < |extension| :: extension[i] in extension;
    assert name[|base|] == '.' && forall i | |base| < i < |name| :: name[i] == extension[i - |base| - 1];
    assert AfterLast(name, '.') == |base| + 1 && AfterLast(extension, '.') == 0;
    assert name[|base| + 1..] == extension && extension[0..] == extension;
  }

  /** `foldersCompatible`, lines 96 to 99. */
  predicate FoldersCompatible(a: string, b: string) {
    a == "" || b == "" || a == b || EndsWith(a, "/" + b) || EndsWith(b, "/" + a)
  }

  /** Which folder was written makes no difference; one is compatible with what it is below, and with none. */
  lemma CompatibleBothWays(a: string, b: string)
    ensures FoldersCompatible(a, b) <==> FoldersCompatible(b, a)
    ensures FoldersCompatible(a, "") && FoldersCompatible(a, a) && FoldersCompatible(a + "/" + b, b)
  {
    assert (a + "/" + b)[|a|..] == "/" + b;
  }

  // ----- What is known, and which known names a token may mean.

  predicate KnowsName(known: seq<string>, name: string) {
    exists i | 0 <= i < |known| :: SplitPath(known[i]).name == name
  }

  /** One known path is near enough to the token. */
  ghost predicate Matches(token: string, path: string) {
    var t, p := SplitPath(token), SplitPath(path);
    && ExtensionOf(p.name) == ExtensionOf(t.name)
    && FoldersCompatible(t.folder, p.folder)
    && IsCopy(t.name, p.name)
  }

  /** The names of the known paths that match. */
  ghost function MatchingNames(token: string, known: seq<string>): set<string> {
    if known == [] then {}
    else MatchingNames(token, Init(known)) + if Matches(token, Last(known)) then {SplitPath(Last(known)).name} else {}
  }

  /** The token is left alone: it is known, its name is known, nothing or more than one name matches, or it exists. */
  ghost predicate Stays(token: string, known: seq<string>, exists_: string -> bool) {
    || token in known
    || KnowsName(known, SplitPath(token).name)
    || |MatchingNames(token, known)| != 1
    || exists_(token)
  }

  function Renamed(token: string, name: string): string {
    var folder := SplitPath(token).folder;
    if folder == "" then name else folder + "/" + name
  }

  /** What a token becomes. */
  ghost function Fixed(token: string, known: seq<string>, exists_: string -> bool): string {
    if Stays(token, known, exists_) then token
    else
      var name :| name in MatchingNames(token, known);
      Renamed(token, name)
  }

  lemma {:induction false} NamedBy(token: string, known: seq<string>, name: string) returns (i: nat)
    requires name in MatchingNames(token, known)
    ensures i < |known| && Matches(token, known[i]) && SplitPath(known[i]).name == name
  {
    if name in MatchingNames(token, Init(known)) {
      i := NamedBy(token, Init(known), name);
    } else {
      i := |known| - 1;
    }
  }

  lemma {:induction false} NamesIt(token: string, known: seq<string>, i: nat)
    requires i < |known| && Matches(token, known[i])
    ensures SplitPath(known[i]).name in MatchingNames(token, known)
  {
    if i < |known| - 1 {
      NamesIt(token, Init(known), i);
    }
  }

  /** A repair puts the one matching known name behind the token's own folder, and it is a change. */
  lemma FixedIsTheOneMatch(token: string, known: seq<string>, exists_: string -> bool, i: nat)
    requires i < |known| && Matches(token, known[i]) && !Stays(token, known, exists_)
    ensures Fixed(token, known, exists_) == Renamed(token, SplitPath(known[i]).name)
    ensures SplitPath(Fixed(token, known, exists_)).name == SplitPath(known[i]).name
    ensures Fixed(token, known, exists_) != token
    ensures forall j | 0 <= j < |known| && Matches(token, known[j]) :: SplitPath(known[j]).name == SplitPath(known[i]).name
  {
    var name := SplitPath(known[i]).name;
    NamesIt(token, known, i);
    OneMember(MatchingNames(token, known), name);
    FixedByName(token, known, exists_, name);
    SplitOfRenamed(token, name);
    assert KnowsName(known, name);
    forall j | 0 <= j < |known| && Matches(token, known[j]) ensures SplitPath(known[j]).name == name {
      NamesIt(token, known, j);
    }
  }

  lemma OneMember<T>(s: set<T>, x: T)
    requires |s| == 1 && x in s
    ensures s == {x}
  {
    assert |s - {x}| == 0;
  }

  lemma FixedByName(token: string, known: seq<string>, exists_: string -> bool, name: string)
    requires !Stays(token, known, exists_) && name in MatchingNames(token, known)
    ensures Fixed(token, known, exists_) == Renamed(token, name)
  {
    OneMember(MatchingNames(token, known), name);
  }

  lemma SplitOfRenamed(token: string, name: string)
    requires !HasSlash(name)
    ensures SplitPath(Renamed(token, name)) == Split(SplitPath(token).folder, name)
  {
    if SplitPath(token).folder != "" {
      SplitOfJoined(SplitPath(token).folder, name);
    }
  }

  lemma SomeMatch(token: string, known: seq<string>) returns (i: nat)
    requires |MatchingNames(token, known)| == 1
    ensures i < |known| && Matches(token, known[i])
  {
    var name :| name in MatchingNames(token, known);
    i := NamedBy(token, known, name);
  }

  /** A token keeps its new name, if the second pass meets it as one token. */
  lemma FixedIsStable(token: string, known: seq<string>, exists_: string -> bool)
    ensures Stays(Fixed(token, known, exists_), known, exists_)
  {
    if !Stays(token, known, exists_) {
      var i := SomeMatch(token, known);
      FixedIsTheOneMatch(token, known, exists_, i);
      assert KnowsName(known, SplitPath(Fixed(token, known, exists_)).name);
    }
  }

  // ----- The pass over a text.

  ghost function Fixer(known: seq<string>, exists_: string -> bool): string -> string {
    t => Fixed(t, known, exists_)
  }

  /** The text after a pass. */
  ghost function Repaired(text: string, known: seq<string>, exists_: string -> bool): string {
    Rewritten(text, Fixer(known, exists_))
  }

  datatype Repair = Repair(from: string, to: string)

  /** The repair of one of the tokens. */
  ghost predicate IsRepairIn(r: Repair, tokens: seq<string>, known: seq<string>, exists_: string -> bool) {
    r.from in tokens && !Stays(r.from, known, exists_) && r.to == Fixed(r.from, known, exists_)
  }

  ghost predicate Distinct(repairs: seq<Repair>) {
    forall i, j | 0 <= i < j < |repairs| :: repairs[i] != repairs[j]
  }

  /** `repairs` holds one entry for each different repair the tokens ask for. */
  ghost predicate Records(repairs: seq<Repair>, tokens: seq<string>, known: seq<string>, exists_: string -> bool) {
    Distinct(repairs) && forall r :: r in repairs <==> IsRepairIn(r, tokens, known, exists_)
  }

  /** The names that match, lines 164 to 171. */
  method FindMatches(token: string, known: seq<string>) returns (names: set<string>)
    ensures names == MatchingNames(token, known)
  {
    names := {};
    for i := 0 to |known|
      invariant names == MatchingNames(token, known[..i])
    {
      assert Init(known[..i + 1]) == known[..i] && Last(known[..i + 1]) == known[i];
      var near := TestMatch(token, known[i]);
      if near { names := names + {SplitPath(known[i]).name}; }
    }
    assert known[..|known|] == known;
  }

  /** The three tests on one known path. */
  method TestMatch(token: string, path: string) returns (near: bool)
    ensures near <==> Matches(token, path)
  {
    var t, entry := SplitPath(token), SplitPath(path);
    near := ExtensionOf(entry.name) == ExtensionOf(t.name) && FoldersCompatible(t.folder, entry.folder);
    if near { near := IsDropOrDuplicationCopy(t.name, entry.name); }
  }

  /** One token, lines 161 to 178. */
  method RepairToken(token: string, known: seq<string>, exists_: string -> bool) returns (fixed: string, changed: bool)
    ensures changed <==> !Stays(token, known, exists_)
    ensures fixed == Fixed(token, known, exists_)
  {
    var t := SplitPath(token);
    if token in known || KnowsName(known, t.name) { return token, false; }
    var names := FindMatches(token, known);
    if |names| != 1 || exists_(token) { return token, false; }
    var realName :| realName in names;
    FixedByName(token, known, exists_, realName);
    fixed := if t.folder != "" then t.folder + "/" + realName else realName;
    changed := true;
  }

  /** What is on record after one more token. */
  ghost predicate RecordedToo(after: seq<Repair>, repairs: seq<Repair>, token: string, known: seq<string>, exists_: string -> bool) {
    if Stays(token, known, exists_) then after == repairs
    else
      var r := Repair(token, Fixed(token, known, exists_));
      after == if r in repairs then repairs else repairs + [r]
  }

  lemma RecordedIff(repairs: seq<Repair>, met: seq<string>, token: string, after: seq<Repair>,
                    known: seq<string>, exists_: string -> bool, r: Repair)
    requires Records(repairs, met, known, exists_) && RecordedToo(after, repairs, token, known, exists_)
    ensures r in after <==> IsRepairIn(r, met + [token], known, exists_)
  {
    assert r.from in met + [token] <==> r.from in met || r.from == token;
    assert r in repairs <==> IsRepairIn(r, met, known, exists_);
  }

  lemma RecordsOneMore(repairs: seq<Repair>, met: seq<string>, token: string, after: seq<Repair>,
                       known: seq<string>, exists_: string -> bool)
    requires Records(repairs, met, known, exists_) && RecordedToo(after, repairs, token, known, exists_)
    ensures Records(after, met + [token], known, exists_)
  {
    forall r ensures r in after <==> IsRepairIn(r, met + [token], known, exists_) {
      RecordedIff(repairs, met, token, after, known, exists_, r);
    }
  }

  /** One token of the text; a repair is recorded once. */
  method RepairAndRecord(token: string, known: seq<string>, exists_: string -> bool, repairs: seq<Repair>)
    returns (fixed: string, after: seq<Repair>)
    ensures fixed == Fixed(token, known, exists_)
    ensures RecordedToo(after, repairs, token, known, exists_)
  {
    var changed;
    fixed, changed := RepairToken(token, known, exists_);
    after := if changed && Repair(token, fixed) !in repairs then repairs + [Repair(token, fixed)] else repairs;
  }

  /** What the replace has written and met before p, and what is on record. */
  ghost predicate Upto(repaired: string, repairs: seq<Repair>, met: seq<string>, text: string, p: nat,
                       known: seq<string>, exists_: string -> bool)
  {
    && p <= |text|
    && repaired + RewrittenFrom(text, p, Fixer(known, exists_)) == Repaired(text, known, exists_)
    && met + TokensFrom(text, p) == Tokens(text)
    && Records(repairs, met, known, exists_)
  }

  lemma UptoGap(repaired: string, repairs: seq<Repair>, met: seq<string>, text: string, p: nat,
                known: seq<string>, exists_: string -> bool)
    requires Upto(repaired, repairs, met, text, p, known, exists_) && p < |text| && TokenEnd(text, p).None?
    ensures Upto(repaired + [text[p]], repairs, met, text, p + 1, known, exists_)
  {
    Associates(repaired, [text[p]], RewrittenFrom(text, p + 1, Fixer(known, exists_)));
  }

  lemma UptoToken(repaired: string, repairs: seq<Repair>, met: seq<string>, text: string, p: nat, q: nat, token: string,
                  after: seq<Repair>, known: seq<string>, exists_: string -> bool)
    requires Upto(repaired, repairs, met, text, p, known, exists_)
    requires p < q <= |text| && TokenEnd(text, p) == Some(q) && token == text[p..q]
    requires RecordedToo(after, repairs, token, known, exists_)
    ensures Upto(repaired + Fixed(token, known, exists_), after, met + [token], text, q, known, exists_)
  {
    RecordsOneMore(repairs, met, token, after, known, exists_);
    Associates(repaired, Fixed(token, known, exists_), RewrittenFrom(text, q, Fixer(known, exists_)));
    Associates(met, [token], TokensFrom(text, q));
  }

  lemma UptoEnds(repaired: string, repairs: seq<Repair>, met: seq<string>, text: string, p: nat,
                 known: seq<string>, exists_: string -> bool)
    requires Upto(repaired, repairs, met, text, p, known, exists_) && p == |text|
    ensures repaired == Repaired(text, known, exists_) && Records(repairs, Tokens(text), known, exists_)
  {
    assert repaired + "" == repaired && met + [] == met;
  }

  /** The callback of the replace on the token from p to q, lines 160 to 178. */
  method RepairNext(repaired: string, repairs: seq<Repair>, ghost met: seq<string>, text: string, p: nat, q: nat,
                    known: seq<string>, exists_: string -> bool)
    returns (longer: string, after: seq<Repair>)
    requires Upto(repaired, repairs, met, text, p, known, exists_) && p < q <= |text| && TokenEnd(text, p) == Some(q)
    ensures Upto(longer, after, met + [text[p..q]], text, q, known, exists_)
  {
    var fixed;
    fixed, after := RepairAndRecord(text[p..q], known, exists_, repairs);
    UptoToken(repaired, repairs, met, text, p, q, text[p..q], after, known, exists_);
    longer := repaired + fixed;
  }

  /** `repairArtifactPathReferences`, lines 150 to 181. The map of repairs keeps the order of first insertion. */
  method RepairReferences(text: string, known: seq<string>, exists_: string -> bool)
    returns (repaired: string, repairs: seq<Repair>)
    ensures repaired == Repaired(text, known, exists_)
    ensures Records(repairs, Tokens(text), known, exists_)
  {
    if text == "" || known == [] {
      NothingKnown(text, 0, exists_);
      RecordsNothing(Tokens(text), exists_);
      return text, [];
    }
    repaired, repairs := "", [];
    var p := 0;
    ghost var met: seq<string> := [];
    while p < |text|
      invariant Upto(repaired, repairs, met, text, p, known, exists_)
    {
      var m := TokenEnd(text, p);
      if m.None? {
        UptoGap(repaired, repairs, met, text, p, known, exists_);
        repaired, p := repaired + [text[p]], p + 1;
      } else {
        var q := m.value;
        repaired, repairs := RepairNext(repaired, repairs, met, text, p, q, known, exists_);
        met, p := met + [text[p..q]], q;
      }
    }
    UptoEnds(repaired, repairs, met, text, p, known, exists_);
  }

  lemma NothingMatches(token: string, exists_: string -> bool)
    ensures Stays(token, [], exists_)
  {
    assert MatchingNames(token, []) == {};
  }

  lemma {:induction false} NothingKnown(text: string, p: nat, exists_: string -> bool)
    requires p <= |text|
    ensures RewrittenFrom(text, p, Fixer([], exists_)) == text[p..]
    decreases |text| - p
  {
    if p < |text| {
      var m := TokenEnd(text, p);
      if m.None? {
        NothingKnown(text, p + 1, exists_);
        SliceAt(text, p, p + 1);
      } else {
        NothingMatches(text[p..m.value], exists_);
        NothingKnown(text, m.value, exists_);
        SliceAt(text, p, m.value);
      }
    }
  }

  lemma RecordsNothing(tokens: seq<string>, exists_: string -> bool)
    ensures Records([], tokens, [], exists_)
  {
    forall token ensures Stays(token, [], exists_) {
      NothingMatches(token, exists_);
    }
  }

  lemma LineFeedAt(r: Repair)
    requires '\n' !in r.from
    ensures var s := r.from + ['\n'] + r.to; s[|r.from|] == '\n' && forall i | 0 <= i < |r.from| :: s[i] != '\n'
    ensures var s := r.from + ['\n'] + r.to; s[..|r.from|] == r.from && s[|r.from| + 1..] == r.to
  {
    var s := r.from + ['\n'] + r.to;
    forall i | 0 <= i < |r.from| ensures s[i] != '\n' {
      assert s[i] == r.from[i];
    }
  }

  lemma TokenHasNoLineFeed(text: string, token: string)
    requires token in Tokens(text)
    ensures '\n' !in token
  {
    TokensHaveShape(text, 0, token);
    ShapeIsPath(token);
  }

  /** The map's string key tells repairs apart, as a token holds no line feed. */
  lemma KeysTellRepairsApart(text: string, known: seq<string>, exists_: string -> bool, repairs: seq<Repair>, a: Repair, b: Repair)
    requires Records(repairs, Tokens(text), known, exists_) && a in repairs && b in repairs
    ensures a.from + ['\n'] + a.to == b.from + ['\n'] + b.to <==> a == b
  {
    TokenHasNoLineFeed(text, a.from);
    TokenHasNoLineFeed(text, b.from);
    LineFeedAt(a);
    LineFeedAt(b);
  }

  /** Every repair on record replaces no character, leaves the folder, and names the only known name that is near. */
  lemma EveryRepairIsNarrow(repairs: seq<Repair>, text: string, known: seq<string>, exists_: string -> bool, r: Repair)
    returns (i: nat)
    requires Records(repairs, Tokens(text), known, exists_) && r in repairs
    ensures i < |known| && SplitPath(r.to) == Split(SplitPath(r.from).folder, SplitPath(known[i]).name)
    ensures IsCopy(SplitPath(r.from).name, SplitPath(r.to).name)
    ensures ExtensionOf(SplitPath(r.from).name) == ExtensionOf(SplitPath(r.to).name)
    ensures FoldersCompatible(SplitPath(r.from).folder, SplitPath(known[i]).folder)
    ensures r.from !in known && !exists_(r.from) && r.to != r.from
    ensures forall j | 0 <= j < |known| :: SplitPath(known[j]).name != SplitPath(r.from).name
    ensures forall j | 0 <= j < |known| && Matches(r.from, known[j]) :: SplitPath(known[j]).name == SplitPath(r.to).name
  {
    i := SomeMatch(r.from, known);
    FixedIsTheOneMatch(r.from, known, exists_, i);
    SplitOfRenamed(r.from, SplitPath(known[i]).name);
  }

  /** And every token is left alone only for one of the reasons given: its name is known, not just one known name is near, in a
      compatible folder and with the same extension, or the file exists. */
  lemma LeftAloneIff(token: string, known: seq<string>, exists_: string -> bool)
    ensures Stays(token, known, exists_) <==>
      || (exists j | 0 <= j < |known| :: SplitPath(known[j]).name == SplitPath(token).name)
      || (forall j | 0 <= j < |known| :: !Matches(token, known[j]))
      || (exists j, k | 0 <= j < |known| && 0 <= k < |known| && Matches(token, known[j]) && Matches(token, known[k]) ::
            SplitPath(known[j]).name != SplitPath(known[k]).name)
      || exists_(token)
  {
    if token in known {
      var j :| 0 <= j < |known| && known[j] == token;
      assert SplitPath(known[j]).name == SplitPath(token).name;
    }
    OneNameIff(token, known);
  }

  /** Just one name matches exactly if some known path does, and all that do have one name. */
  lemma OneNameIff(token: string, known: seq<string>)
    ensures |MatchingNames(token, known)| == 1 <==>
      && (exists j | 0 <= j < |known| :: Matches(token, known[j]))
      && (forall j, k | 0 <= j < |known| && 0 <= k < |known| && Matches(token, known[j]) && Matches(token, known[k]) ::
            SplitPath(known[j]).name == SplitPath(known[k]).name)
  {
    if |MatchingNames(token, known)| == 1 {
      var i := SomeMatch(token, known);
      MatchesShareName(token, known, i);
    } else if i: nat :| i < |known| && Matches(token, known[i]) {
      MatchesShareName(token, known, i);
    }
  }

  lemma MatchesShareName(token: string, known: seq<string>, i: nat)
    requires i < |known| && Matches(token, known[i])
    ensures |MatchingNames(token, known)| == 1 <==>
      forall j | 0 <= j < |known| && Matches(token, known[j]) :: SplitPath(known[j]).name == SplitPath(known[i]).name
  {
    var names, name := MatchingNames(token, known), SplitPath(known[i]).name;
    NamesIt(token, known, i);
    if |names| == 1 {
      OneMember(names, name);
      forall j | 0 <= j < |known| && Matches(token, known[j]) ensures SplitPath(known[j]).name == name {
        NamesIt(token, known, j);
      }
    } else {
      assert |names - {name}| == |names| - 1;
      var other :| other in names - {name};
      var j := NamedBy(token, known, other);
    }
  }

  // ----- The second pass.

  ghost function Stayer(known: seq<string>, exists_: string -> bool): string -> bool {
    t => Stays(t, known, exists_)
  }

  /** A pass over this text repairs nothing. */
  ghost predicate Idle(text: string, known: seq<string>, exists_: string -> bool) {
    forall t | t in Tokens(text) :: Stays(t, known, exists_)
  }

  lemma SliceAt(text: string, p: nat, q: nat)
    requires p < q <= |text|
    ensures text[p..] == text[p..q] + text[q..] && (q == p + 1 ==> text[p..q] == [text[p]])
  {
  }

  lemma {:induction false} StayingTokensStay(text: string, p: nat, known: seq<string>, exists_: string -> bool)
    requires p <= |text| && forall t | t in TokensFrom(text, p) :: Stays(t, known, exists_)
    ensures RewrittenFrom(text, p, Fixer(known, exists_)) == text[p..]
    decreases |text| - p
  {
    if p < |text| {
      var m := TokenEnd(text, p);
      var q := if m.None? then p + 1 else m.value;
      StayingTokensStay(text, q, known, exists_);
      SliceAt(text, p, q);
    }
  }

  /** An idle pass changes nothing and records nothing, and only an idle pass records nothing. */
  lemma IdleIff(text: string, known: seq<string>, exists_: string -> bool, repairs: seq<Repair>)
    requires Records(repairs, Tokens(text), known, exists_)
    ensures Idle(text, known, exists_) <==> repairs == []
    ensures Idle(text, known, exists_) ==> Repaired(text, known, exists_) == text
  {
    if Idle(text, known, exists_) {
      StayingTokensStay(text, 0, known, exists_);
    }
    if repairs != [] {
      assert repairs[0] in repairs;
      assert IsRepairIn(repairs[0], Tokens(text), known, exists_);
    } else {
      forall t | t in Tokens(text) ensures Stays(t, known, exists_) {
        assert !IsRepairIn(Repair(t, Fixed(t, known, exists_)), Tokens(text), known, exists_);
      }
    }
  }

  lemma IdleIsAll(text: string, known: seq<string>, exists_: string -> bool)
    ensures Idle(text, known, exists_) <==> AllTokens(text, true, Stayer(known, exists_))
  {
    TokensAreAll(text, Stayer(known, exists_));
  }

  /** A second pass is idle if and only if, for every token the first pass repairs, a pass over what was put in
      its place alone would be idle. */
  lemma SecondPassIsIdleIff(text: string, known: seq<string>, exists_: string -> bool)
    ensures Idle(Repaired(text, known, exists_), known, exists_)
      <==> forall t | t in Tokens(text) && !Stays(t, known, exists_) :: Idle(Fixed(t, known, exists_), known, exists_)
  {
    IdleIsAll(Repaired(text, known, exists_), known, exists_);
    TokensOfRewritten(text, Fixer(known, exists_), Stayer(known, exists_));
    forall t | t in Tokens(text)
      ensures AllTokens(Fixed(t, known, exists_), true, Stayer(known, exists_)) <==> Idle(Fixed(t, known, exists_), known, exists_)
      ensures Stays(t, known, exists_) ==> Idle(Fixed(t, known, exists_), known, exists_)
    {
      IdleIsAll(Fixed(t, known, exists_), known, exists_);
      TokensHaveShape(text, 0, t);
      TokenOfToken(t);
    }
  }

  /** So it is idle on every text if and only if it is idle on what a pass puts in place of each single token. */
  lemma AlwaysIdleIff(known: seq<string>, exists_: string -> bool)
    ensures (forall text :: Idle(Repaired(text, known, exists_), known, exists_)) <==>
            (forall t | HasShape(t) && !Stays(t, known, exists_) :: Idle(Fixed(t, known, exists_), known, exists_))
  {
    forall text ensures Idle(Repaired(text, known, exists_), known, exists_) <==>
      (forall t | t in Tokens(text) && !Stays(t, known, exists_) :: Idle(Fixed(t, known, exists_), known, exists_))
    {
      SecondPassIsIdleIff(text, known, exists_);
    }
    forall text, t | t in Tokens(text) ensures HasShape(t) {
      TokensHaveShape(text, 0, t);
    }
    forall t | HasShape(t) ensures t in Tokens(t) && Idle(Repaired(t, known, exists_), known, exists_) ==
      (!Stays(t, known, exists_) ==> Idle(Fixed(t, known, exists_), known, exists_))
    {
      TokenOfToken(t);
    }
  }

  // ----- Names made of the pattern's own characters keep the promise.

  predicate PlainName(name: string) {
    forall i | 0 <= i < |name| :: IsNameChar(name[i])
  }

  lemma FolderIsJoined(path: string)
    requires IsJoinedNames(path) && SplitPath(path).folder != ""
    ensures IsJoinedNames(SplitPath(path).folder)
  {
    var folder := SplitPath(path).folder;
    assert path[|folder|] == '/';
    assert forall i | 0 <= i < |folder| :: folder[i] == path[i];
  }

  lemma JoinedWithFolder(folder: string, name: string)
    requires name != "" && PlainName(name) && (folder != "" ==> IsJoinedNames(folder))
    ensures IsJoinedNames(if folder == "" then name else folder + "/" + name)
  {
    if folder != "" {
      var s := folder + "/" + name;
      assert s[|folder|] == '/';
      assert forall i | |folder| < i < |s| :: s[i] == name[i - |folder| - 1];
      assert forall i | 0 <= i < |folder| :: s[i] == folder[i];
    }
  }

  lemma AfterLastIs(s: string, c: char, n: nat)
    requires 0 < n <= |s| && s[n - 1] == c && forall i | n <= i < |s| :: s[i] != c
    ensures AfterLast(s, c) == n
  {
  }

  lemma NameOfToken(token: string, d: nat)
    requires HasExtensionAt(token, d)
    ensures AfterLast(token, '/') <= d && SplitPath(token).name == token[AfterLast(token, '/')..]
  {
    var at := AfterLast(token, '/');
    assert at > 0 ==> token[at - 1] == '/';
    assert token[0..] == token;
  }

  /** A token's extension is what stands behind its dot. */
  lemma ExtensionOfToken(token: string, d: nat)
    requires HasExtensionAt(token, d)
    ensures ExtensionOf(SplitPath(token).name) == Lower(token[d + 1..])
  {
    NameOfToken(token, d);
    ExtensionOfTail(token, AfterLast(token, '/'), d);
  }

  lemma ExtensionOfTail(token: string, at: nat, d: nat)
    requires at <= d < |token| && token[d] == '.' && forall i | d < i < |token| :: token[i] != '.'
    ensures ExtensionOf(token[at..]) == Lower(token[d + 1..])
  {
    var name := token[at..];
    assert forall i | 0 <= i < |name| :: name[i] == token[i + at];
    AfterLastIs(name, '.', d - at + 1);
    assert name[d - at + 1..] == token[d + 1..];
  }

  lemma LoweredAlnum(a: string, b: string)
    requires Lower(a) == Lower(b) && forall i | 0 <= i < |b| :: IsAlnum(b[i])
    ensures |a| == |b| && forall i | 0 <= i < |a| :: IsAlnum(a[i])
  {
    assert |Lower(a)| == |a| && |Lower(b)| == |b|;
    forall i | 0 <= i < |a| ensures IsAlnum(a[i]) {
      assert Lower(a)[i] == LowerChar(a[i]) && Lower(b)[i] == LowerChar(b[i]);
    }
  }

  predicate IsExtension(ext: string) {
    1 <= |ext| <= 5 && forall i | 0 <= i < |ext| :: IsAlnum(ext[i])
  }

  /** `name` ends in a dot and an extension, with something before the dot. */
  predicate EndsInExtension(name: string, at: nat) {
    1 < at < |name| && IsExtension(name[at..]) && name == name[..at - 1] + "." + name[at..]
  }

  lemma DotAndExtension(x: string, ext: string)
    requires IsJoinedNames(x) && IsExtension(ext)
    ensures HasShape(x + "." + ext)
  {
    var s := x + "." + ext;
    assert s[..|x|] == x;
    assert forall i | |x| < i < |s| :: s[i] == ext[i - |x| - 1];
    assert HasExtensionAt(s, |x|);
  }

  lemma TokenExtension(token: string, d: nat)
    requires HasExtensionAt(token, d)
    ensures IsExtension(token[d + 1..])
  {
  }

  /** A name of twelve characters or more whose extension is a token's ends in a dot and that extension. */
  lemma LongNameEnds(token: string, d: nat, name: string)
    requires HasExtensionAt(token, d) && 12 <= |name| && ExtensionOf(name) == ExtensionOf(SplitPath(token).name)
    ensures EndsInExtension(name, AfterLast(name, '.'))
  {
    ExtensionOfToken(token, d);
    TokenExtension(token, d);
    ShortTail(name, AfterLast(name, '.'), token[d + 1..]);
  }

  lemma ShortTail(name: string, at: nat, ext: string)
    requires 12 <= |name| && at <= |name| && (at > 0 ==> name[at - 1] == '.')
    requires Lower(name[at..]) == Lower(ext) && IsExtension(ext)
    ensures EndsInExtension(name, at)
  {
    LoweredAlnum(name[at..], ext);
  }

  lemma PlainRenamedHasShape(token: string, d: nat, name: string)
    requires HasExtensionAt(token, d) && PlainName(name) && 12 <= |name|
    requires ExtensionOf(name) == ExtensionOf(SplitPath(token).name)
    ensures HasShape(Renamed(token, name))
  {
    LongNameEnds(token, d, name);
    TokenFolderIsJoined(token, d);
    PlainInFolder(SplitPath(token).folder, name, AfterLast(name, '.'));
  }

  lemma TokenFolderIsJoined(token: string, d: nat)
    requires HasExtensionAt(token, d)
    ensures SplitPath(token).folder != "" ==> IsJoinedNames(SplitPath(token).folder)
  {
    assert HasShape(token);
    ShapeIsJoined(token);
    if SplitPath(token).folder != "" { FolderIsJoined(token); }
  }

  lemma PlainInFolder(folder: string, name: string, at: nat)
    requires (folder != "" ==> IsJoinedNames(folder)) && PlainName(name) && EndsInExtension(name, at)
    ensures HasShape(if folder == "" then name else folder + "/" + name)
  {
    var base, ext := name[..at - 1], name[at..];
    JoinedWithFolder(folder, base);
    var x := if folder == "" then base else folder + "/" + base;
    DotAndExtension(x, ext);
    assert folder + "/" + name == folder + "/" + base + "." + ext;
  }

  lemma PlainFixedIsIdle(token: string, known: seq<string>, exists_: string -> bool)
    requires HasShape(token) && !Stays(token, known, exists_)
    requires PlainName(SplitPath(Fixed(token, known, exists_)).name)
    ensures Idle(Fixed(token, known, exists_), known, exists_)
  {
    var i := SomeMatch(token, known);
    var name := SplitPath(known[i]).name;
    FixedIsTheOneMatch(token, known, exists_, i);
    CopyReplacesNothing(SplitPath(token).name, name);
    var d :| 0 <= d < |token| && HasExtensionAt(token, d);
    PlainRenamedHasShape(token, d, name);
    TokenOfToken(Fixed(token, known, exists_));
    FixedIsStable(token, known, exists_);
  }

  /** When every known name is made of letters, digits, underscores, dots and dashes, a second pass changes
      nothing, whatever the text. */
  lemma PlainNamesKeepThePromise(text: string, known: seq<string>, exists_: string -> bool)
    requires forall i | 0 <= i < |known| :: PlainName(SplitPath(known[i]).name)
    ensures Idle(Repaired(text, known, exists_), known, exists_)
    ensures Repaired(Repaired(text, known, exists_), known, exists_) == Repaired(text, known, exists_)
  {
    forall t | t in Tokens(text) && !Stays(t, known, exists_) ensures Idle(Fixed(t, known, exists_), known, exists_) {
      TokensHaveShape(text, 0, t);
      var i := SomeMatch(t, known);
      FixedIsTheOneMatch(t, known, exists_, i);
      PlainFixedIsIdle(t, known, exists_);
    }
    SecondPassIsIdleIff(text, known, exists_);
    StayingTokensStay(Repaired(text, known, exists_), 0, known, exists_);
  }

  // ----- A name the pattern cuts breaks it.

  lemma EmbedsBehind(c: char, name: string)
    ensures Embeds(name, [c] + name)
  {
    var f := seq(|name|, k => k + 1);
    assert Places(f, name, [c] + name);
  }

  lemma SameNumbersBehind(c: char, name: string)
    requires !IsPathChar(c)
    ensures NumbersAgree(name, [c] + name)
  {
    assert ([c] + name)[1..] == name;
  }

  lemma SameExtensionBehind(c: char, name: string, d: nat)
    requires d < |name| && name[d] == '.' && forall i | d < i < |name| :: name[i] != '.'
    ensures ExtensionOf([c] + name) == ExtensionOf(name)
  {
    var longer := [c] + name;
    assert name[0..] == name && longer[0..] == longer;
    assert forall i | 0 < i < |longer| :: longer[i] == name[i - 1];
    ExtensionOfTail(name, 0, d);
    ExtensionOfTail(longer, 0, d + 1);
    assert longer[d + 2..] == name[d + 1..];
  }

  lemma NoSlashBehind(c: char, name: string)
    requires c != '/' && !HasSlash(name)
    ensures SplitPath(name) == Split("", name) && SplitPath([c] + name) == Split("", [c] + name)
  {
    assert forall i | 0 < i < |[c] + name| :: ([c] + name)[i] == name[i - 1];
  }

  lemma CopyBehind(c: char, name: string)
    requires !IsPathChar(c) && 12 <= |name|
    ensures IsCopy(name, [c] + name)
  {
    EmbedsBehind(c, name);
    SameNumbersBehind(c, name);
  }

  lemma TokenExtensionBehind(c: char, name: string)
    requires HasShape(name)
    ensures ExtensionOf([c] + name) == ExtensionOf(name)
  {
    var d :| 0 <= d < |name| && HasExtensionAt(name, d);
    SameExtensionBehind(c, name, d);
  }

  lemma MatchOfBare(token: string, path: string)
    requires SplitPath(token) == Split("", token) && SplitPath(path) == Split("", path)
    requires ExtensionOf(path) == ExtensionOf(token) && IsCopy(token, path)
    ensures Matches(token, path)
  {
  }

  lemma OneMoreInFront(c: char, name: string, longer: string)
    requires !IsPathChar(c) && HasShape(name) && !HasSlash(name) && 12 <= |name| && longer == [c] + name
    ensures Matches(name, longer)
  {
    CopyBehind(c, name);
    TokenExtensionBehind(c, name);
    NoSlashBehind(c, name);
    MatchOfBare(name, longer);
  }

  /** One known name, a character outside the pattern in front of a token: the token is repaired to it. */
  lemma OnlyMatch(c: char, name: string, exists_: string -> bool, known: seq<string>)
    requires !IsPathChar(c) && HasShape(name) && !HasSlash(name) && 12 <= |name| && !exists_(name)
    requires known == [[c] + name]
    ensures !Stays(name, known, exists_) && Fixed(name, known, exists_) == [c] + name
  {
    var longer := [c] + name;
    OneMoreInFront(c, name, longer);
    NoSlashBehind(c, name);
    OnlyMatchIsTaken(name, longer, exists_, known);
  }

  lemma OnlyMatchIsTaken(token: string, path: string, exists_: string -> bool, known: seq<string>)
    requires Matches(token, path) && token != path && !exists_(token) && known == [path]
    requires SplitPath(token) == Split("", token) && SplitPath(path) == Split("", path)
    ensures !Stays(token, known, exists_) && Fixed(token, known, exists_) == path
  {
    NamesOfOne(token, path);
    FixedByName(token, known, exists_, path);
  }

  lemma NamesOfOne(token: string, path: string)
    requires Matches(token, path)
    ensures MatchingNames(token, [path]) == {SplitPath(path).name}
  {
    assert Init([path]) == [];
    assert MatchingNames(token, []) == {};
  }

  lemma WholeToken(name: string, f: string -> string)
    requires HasShape(name)
    ensures TokenEnd(name, 0) == Some(|name|) && Rewritten(name, f) == f(name)
  {
    assert name[0..|name|] == name;
    LongestIsLongest(name, 0, |name|, |name|);
    assert RewrittenFrom(name, |name|, f) == "";
    assert f(name) + "" == f(name);
  }

  lemma BehindOther(c: char, name: string, f: string -> string)
    requires !IsPathChar(c) && c != ':' && HasShape(name)
    ensures Tokens([c] + name) == [name] && Rewritten([c] + name, f) == [c] + f(name)
  {
    var s := [c] + name;
    WholeToken(name, f);
    NoTokenAt(s, 0);
    TokensInSecond([c], name, 0);
    assert s[1..|s|] == name;
    assert RewrittenFrom(s, |s|, f) == "" && TokensFrom(s, |s|) == [];
    assert RewrittenFrom(s, 1, f) == f(name) + "" && TokensFrom(s, 1) == [name] + [];
  }

  /** Then every pass puts the character in front once more: also a correct reference comes out wrong. */
  lemma EachPassAddsOne(c: char, name: string, exists_: string -> bool, known: seq<string>)
    requires !IsPathChar(c) && c != ':' && HasShape(name) && !HasSlash(name) && 12 <= |name| && !exists_(name)
    requires known == [[c] + name]
    ensures Repaired(name, known, exists_) == [c] + name
    ensures Repaired([c] + name, known, exists_) == [c] + ([c] + name)
    ensures !Idle(Repaired(name, known, exists_), known, exists_)
  {
    OnlyMatch(c, name, exists_, known);
    WholeToken(name, Fixer(known, exists_));
    BehindOther(c, name, Fixer(known, exists_));
    assert name in Tokens([c] + name);
  }

  const UMLAUT := '\U{00fc}'
  const REPORT := "bersicht-report.pdf"

  lemma ReportHasShape()
    ensures HasShape(REPORT) && !HasSlash(REPORT) && |REPORT| == 19
  {
    assert HasExtensionAt(REPORT, 15);
  }

  lemma SecondPassChangesAgain(exists_: string -> bool, known: seq<string>)
    requires known == [[UMLAUT] + REPORT] && !exists_(REPORT)
    ensures Repaired(REPORT, known, exists_) == [UMLAUT] + REPORT
    ensures Repaired([UMLAUT] + REPORT, known, exists_) == [UMLAUT] + ([UMLAUT] + REPORT)
  {
    ReportHasShape();
    EachPassAddsOne(UMLAUT, REPORT, exists_, known);
  }
}
