/** Lowering a query tree to IMAP search criteria (packages/mail-service/src/query-parser.ts,
    lines 26 to 53 and 184 to 283).

    How the text of a date or a size is read is a parameter. */
module QueryLowering {
  import opened Common
  import opened QueryParser

  // ---- Messages, and what the server's search keys ask of them ----

  /** A message, as far as a search asks about it; the day is the one it arrived. */
  datatype Mail = Mail(sender: string, to: string, cc: string, bcc: string, subject: string, body: string,
                       day: int, size: int, seen: bool, flagged: bool, contentType: string)

  /** A message before the server, and how the dates and sizes of a query are read. */
  datatype Setting = Setting(mail: Mail, dayOf: string -> int, bytesOf: string -> int)

  /** Some part of the text is the given one, in any case. */
  predicate Contains(text: string, part: string) {
    exists i | 0 <= i <= |text| - |part| :: StandsAt(text, part, i)
  }

  predicate StandsAt(text: string, part: string, i: nat)
    requires i + |part| <= |text|
  {
    Common.Lower(text[i..i + |part|]) == Common.Lower(part)
  }

  /** The search keys that carry a text or a number, section 6.4.4 of RFC 3501. */
  predicate KeyHolds(w: Setting, key: string, operand: string) {
    match key
    case "from" => Contains(w.mail.sender, operand)
    case "to" => Contains(w.mail.to, operand)
    case "cc" => Contains(w.mail.cc, operand)
    case "bcc" => Contains(w.mail.bcc, operand)
    case "subject" => Contains(w.mail.subject, operand)
    case "body" => Contains(w.mail.body, operand)
    case "since" => w.mail.day >= w.dayOf(operand)
    case "before" => w.mail.day < w.dayOf(operand)
    case "on" => w.mail.day == w.dayOf(operand)
    case "larger" => w.mail.size > w.bytesOf(operand)
    case "smaller" => w.mail.size < w.bytesOf(operand)
    case _ => false
  }

  predicate FlagIs(w: Setting, flag: string, on: bool) {
    match flag
    case "seen" => w.mail.seen == on
    case "flagged" => w.mail.flagged == on
    case _ => false
  }

  predicate HeaderHolds(w: Setting, name: string, value: string) {
    name == "content-type" && Contains(w.mail.contentType, value)
  }

  // ---- Criteria ----

  /** One key of a criteria object, with its value. */
  datatype Field =
    | Test(key: string, operand: string)
    | Flag(flag: string, on: bool)
    | Header(name: string, value: string)
    | All
    | OrOf(criteria: seq<Criteria>)
    | NotOf(criterion: Criteria)
  {
    function Key(): string {
      match this
      case Test(key, _) => key
      case Flag(flag, _) => flag
      case Header(_, _) => "header"
      case All => "all"
      case OrOf(_) => "or"
      case NotOf(_) => "not"
    }
  }

  /** A criteria object, its keys in insertion order. */
  datatype Criteria = Criteria(fields: seq<Field>)

  const EVERYTHING := Criteria([All])

  /** A message satisfies an object when it satisfies every key, an `or` when it satisfies one entry. */
  predicate Sat(w: Setting, c: Criteria)
    decreases c, 1
  {
    SatFields(w, c.fields)
  }

  predicate SatFields(w: Setting, fields: seq<Field>)
    decreases fields, 0
  {
    fields != [] ==> SatField(w, fields[0]) && SatFields(w, fields[1..])
  }

  predicate SatField(w: Setting, f: Field)
    decreases f, 1
  {
    match f
    case Test(key, operand) => KeyHolds(w, key, operand)
    case Flag(flag, on) => FlagIs(w, flag, on)
    case Header(name, value) => HeaderHolds(w, name, value)
    case All => true
    case OrOf(cs) => SatAny(w, cs)
    case NotOf(c) => !Sat(w, c)
  }

  predicate SatAny(w: Setting, cs: seq<Criteria>)
    decreases cs, 0
  {
    cs != [] && (Sat(w, cs[0]) || SatAny(w, cs[1..]))
  }

  predicate SatAll(w: Setting, cs: seq<Criteria>) {
    cs != [] ==> Sat(w, cs[0]) && SatAll(w, cs[1..])
  }

  // ---- Terms ----

  /** What a term is, before negation: a test, a mailbox hint, or nothing the server is asked. */
  datatype Reading = Asks(field: Field) | Hints(mailbox: string) | AsksNothing

  /** `termToImap`, lines 199 to 258 */
  function Read(t: Term): Reading {
    match t.kind
    case Body => Asks(Test("body", t.value))
    case Op(op) =>
      if op in ["from", "to", "cc", "bcc", "subject", "body"] then Asks(Test(op, t.value))
      else if op in ["after", "newer", "newer_than"] then Asks(Test("since", t.value))
      else if op in ["before", "older", "older_than"] then Asks(Test("before", t.value))
      else if op == "on" then Asks(Test("on", t.value))
      else if op == "has" then (if t.value == "attachment" then Asks(Header("content-type", "multipart")) else AsksNothing)
      else if op == "filename" then Asks(Test("body", t.value))
      else if op == "is" then
        if t.value in ["unread", "unseen"] then Asks(Flag("seen", false))
        else if t.value in ["read", "seen"] then Asks(Flag("seen", true))
        else if t.value in ["starred", "flagged"] then Asks(Flag("flagged", true))
        else AsksNothing
      else if op in ["in", "label", "folder"] then Hints(t.value)
      else if op == "larger" then Asks(Test("larger", t.value))
      else if op == "smaller" then Asks(Test("smaller", t.value))
      else Asks(Test("body", op + ":" + t.value))
  }

  function TermToImap(t: Term): Option<Criteria> {
    match Read(t)
    case Asks(f) => Some(if t.negated then Criteria([NotOf(Criteria([f]))]) else Criteria([f]))
    case _ => None
  }

  // ---- AND ----

  function Keys(fields: seq<Field>): seq<string> {
    seq(|fields|, i requires 0 <= i < |fields| => fields[i].Key())
  }

  function AllFields(cs: seq<Criteria>): seq<Field> {
    if cs == [] then [] else cs[0].fields + AllFields(cs[1..])
  }

  predicate Repeats(keys: seq<string>) {
    exists i, j :: 0 <= i < j < |keys| && keys[i] == keys[j]
  }

  function Negations(cs: seq<Criteria>): seq<Criteria> {
    if cs == [] then [] else [Criteria([NotOf(cs[0])])] + Negations(cs[1..])
  }

  /** Objects of disjoint keys merge into one object; otherwise AND is written by De Morgan. */
  function Merged(cs: seq<Criteria>): Criteria {
    if Repeats(Keys(AllFields(cs))) then Criteria([NotOf(Criteria([OrOf(Negations(cs))]))])
    else Criteria(AllFields(cs))
  }

  function Count(keys: seq<string>, key: string): nat {
    if keys == [] then 0 else Count(Init(keys), key) + if Last(keys) == key then 1 else 0
  }

  lemma {:induction false} CountRepeats(keys: seq<string>)
    ensures Repeats(keys) <==> exists key :: key in keys && Count(keys, key) > 1
  {
    if keys != [] {
      var key, before := Last(keys), Init(keys);
      CountRepeats(before);
      CountIsPresence(before, key);
      if Repeats(keys) {
        var i, j :| 0 <= i < j < |keys| && keys[i] == keys[j];
        if j == |keys| - 1 {
          assert before[i] == key;
          assert key in keys && Count(keys, key) > 1;
        } else {
          assert before[i] == before[j];
          var k :| k in before && Count(before, k) > 1;
          assert k in keys && Count(keys, k) > 1;
        }
      }
      if k :| k in keys && Count(keys, k) > 1 {
        if k == key && Count(before, key) <= 1 {
          var i :| 0 <= i < |before| && before[i] == key;
          assert keys[i] == keys[|keys| - 1];
        } else {
          CountIsPresence(before, k);
          assert k in before && Count(before, k) > 1;
          var i, j :| 0 <= i < j < |before| && before[i] == before[j];
          assert keys[i] == keys[j];
        }
      }
    }
  }

  lemma {:induction false} CountIsPresence(keys: seq<string>, key: string)
    ensures key in keys <==> Count(keys, key) > 0
  {
    if keys != [] {
      CountIsPresence(Init(keys), key);
      assert keys == Init(keys) + [Last(keys)];
    }
  }

  /** The map counts the keys seen so far. */
  ghost predicate Counted(counts: map<string, nat>, keys: seq<string>) {
    && (forall k :: k in counts <==> k in keys)
    && forall k | k in counts :: counts[k] == Count(keys, k)
  }

  ghost predicate SomeTwice(counts: map<string, nat>) {
    exists k :: k in counts && counts[k] > 1
  }

  lemma CountedSnoc(counts: map<string, nat>, keys: seq<string>, key: string)
    requires Counted(counts, keys)
    ensures Counted(counts[key := (if key in counts then counts[key] else 0) + 1], keys + [key])
  {
    assert Init(keys + [key]) == keys;
    CountIsPresence(keys, key);
  }

  lemma SomeTwiceSnoc(counts: map<string, nat>, key: string, n: nat)
    requires key in counts ==> n > counts[key]
    ensures SomeTwice(counts[key := n]) <==> SomeTwice(counts) || n > 1
  {
    var after := counts[key := n];
    if k :| k in counts && counts[k] > 1 {
      assert k in after && after[k] > 1;
    }
    assert after[key] == n;
  }

  lemma SomeTwiceMeansRepeats(counts: map<string, nat>, keys: seq<string>)
    requires Counted(counts, keys)
    ensures SomeTwice(counts) <==> Repeats(keys)
  {
    CountRepeats(keys);
    if k :| k in keys && Count(keys, k) > 1 {
      assert k in counts && counts[k] > 1;
    }
  }

  /** `mergeAndCriteria`, lines 264 to 283: the keys are counted in a map */
  method MergeAndCriteria(criteria: seq<Criteria>) returns (r: Criteria)
    ensures r == Merged(criteria)
  {
    var fields := AllFields(criteria);
    var keys := Keys(fields);
    var keyCount: map<string, nat> := map[];
    var hasConflict := false;
    for i := 0 to |keys|
      invariant Counted(keyCount, keys[..i])
      invariant hasConflict <==> SomeTwice(keyCount)
    {
      var key := keys[i];
      assert keys[..i + 1] == keys[..i] + [key];
      var n := (if key in keyCount then keyCount[key] else 0) + 1;
      CountedSnoc(keyCount, keys[..i], key);
      SomeTwiceSnoc(keyCount, key, n);
      keyCount := keyCount[key := n];
      if n > 1 { hasConflict := true; }
    }
    assert keys[..|keys|] == keys;
    SomeTwiceMeansRepeats(keyCount, keys);
    r := if hasConflict then Criteria([NotOf(Criteria([OrOf(Negations(criteria))]))]) else Criteria(fields);
  }

  // ---- Trees ----

  /** `astToImap`, lines 184 to 197, handing the mailbox hints on. */
  function Lower(ast: Option<Ast>, hints: seq<string>): (Criteria, seq<string>) {
    if ast.None? then (EVERYTHING, hints) else LowerNode(ast.value, hints)
  }

  function LowerNode(ast: Ast, hints: seq<string>): (Criteria, seq<string>)
    decreases ast, 1
  {
    match ast
    case Leaf(t) =>
      var c := TermToImap(t);
      (if c.Some? then c.value else EVERYTHING, if Read(t).Hints? then hints + [Read(t).mailbox] else hints)
    case Or(children) =>
      var (cs, out) := LowerAll(children, hints);
      (if cs == [] then EVERYTHING else if |cs| == 1 then cs[0] else Criteria([OrOf(cs)]), out)
    case And(children) =>
      var (cs, out) := LowerAll(children, hints);
      (if cs == [] then EVERYTHING else if |cs| == 1 then cs[0] else Merged(cs), out)
  }

  function LowerAll(asts: seq<Ast>, hints: seq<string>): (r: (seq<Criteria>, seq<string>))
    ensures |r.0| == |asts|
    decreases asts, 0
  {
    if asts == [] then ([], hints)
    else
      var (c, after) := LowerNode(asts[0], hints);
      var (cs, out) := LowerAll(asts[1..], after);
      ([c] + cs, out)
  }

  // ---- What a tree means ----

  /** The operators that name a mailbox to search in. */
  predicate IsHint(t: Term) {
    t.kind.Op? && (t.kind.op == "in" || t.kind.op == "label" || t.kind.op == "folder")
  }

  /** The values of `is:` that mean something. */
  predicate IsState(value: string) {
    value == "unread" || value == "unseen" || value == "read" || value == "seen" || value == "starred" || value == "flagged"
  }

  /** The terms that ask for nothing: `has:` and `is:` with a value they do not know. */
  predicate SaysNothing(t: Term) {
    t.kind.Op? && ((t.kind.op == "has" && t.value != "attachment") || (t.kind.op == "is" && !IsState(t.value)))
  }

  /** What an operator says of a message: by whom, to whom, about what, when, how large, in what state. */
  predicate OperatorSays(w: Setting, op: string, value: string) {
    var mail := w.mail;
    match op
    case "from" => Contains(mail.sender, value)
    case "to" => Contains(mail.to, value)
    case "cc" => Contains(mail.cc, value)
    case "bcc" => Contains(mail.bcc, value)
    case "subject" => Contains(mail.subject, value)
    case "body" => Contains(mail.body, value)
    case "filename" => Contains(mail.body, value)
    case "after" => w.dayOf(value) <= mail.day
    case "newer" => w.dayOf(value) <= mail.day
    case "newer_than" => w.dayOf(value) <= mail.day
    case "before" => mail.day < w.dayOf(value)
    case "older" => mail.day < w.dayOf(value)
    case "older_than" => mail.day < w.dayOf(value)
    case "on" => mail.day == w.dayOf(value)
    case "larger" => w.bytesOf(value) < mail.size
    case "smaller" => mail.size < w.bytesOf(value)
    case "has" => Contains(mail.contentType, "multipart")
    case "is" => if value == "unread" || value == "unseen" then !mail.seen else if value == "read" || value == "seen" then mail.seen else mail.flagged
    case _ => Contains(mail.body, op + ":" + value)
  }

  /** What a term means: a mailbox hint, and a term that says nothing, every message. */
  predicate TermSays(w: Setting, t: Term) {
    IsHint(t) || SaysNothing(t) || (if t.kind.Body? then Contains(w.mail.body, t.value) else OperatorSays(w, t.kind.op, t.value)) != t.negated
  }

  lemma TextOperators(w: Setting, t: Term)
    requires t.kind.Op? && t.kind.op in ["from", "to", "cc", "bcc", "subject", "body"]
    ensures !IsHint(t) && !SaysNothing(t) && Read(t) == Asks(Test(t.kind.op, t.value))
    ensures KeyHolds(w, t.kind.op, t.value) <==> OperatorSays(w, t.kind.op, t.value)
  {
  }

  lemma DateOperators(w: Setting, t: Term)
    requires t.kind.Op? && t.kind.op in ["after", "newer", "newer_than", "before", "older", "older_than", "on", "larger", "smaller"]
    ensures !IsHint(t) && !SaysNothing(t) && Read(t).Asks? && Read(t).field.Test?
    ensures SatField(w, Read(t).field) <==> OperatorSays(w, t.kind.op, t.value)
  {
  }

  lemma OtherOperators(w: Setting, t: Term)
    requires t.kind.Op? && t.kind.op !in ["from", "to", "cc", "bcc", "subject", "body"]
    requires t.kind.op !in ["after", "newer", "newer_than", "before", "older", "older_than", "on", "larger", "smaller"]
    ensures Read(t).Hints? <==> IsHint(t)
    ensures Read(t).Hints? ==> Read(t).mailbox == t.value
    ensures Read(t).AsksNothing? <==> SaysNothing(t)
    ensures Read(t).Asks? ==> (SatField(w, Read(t).field) <==> OperatorSays(w, t.kind.op, t.value))
  {
  }

  /** A term is a mailbox hint, or asks the server for nothing, exactly as its operator and value say; every other
      term's criterion holds of exactly the messages the term says, negated or not. */
  lemma TermMeans(w: Setting, t: Term)
    ensures Read(t).Hints? <==> IsHint(t)
    ensures Read(t).Hints? ==> Read(t).mailbox == t.value
    ensures Read(t).AsksNothing? <==> SaysNothing(t)
    ensures TermToImap(t).None? <==> IsHint(t) || SaysNothing(t)
    ensures TermToImap(t).Some? ==> (Sat(w, TermToImap(t).value) <==> TermSays(w, t))
  {
    if t.kind.Op? {
      if t.kind.op in ["from", "to", "cc", "bcc", "subject", "body"] {
        TextOperators(w, t);
      } else if t.kind.op in ["after", "newer", "newer_than", "before", "older", "older_than", "on", "larger", "smaller"] {
        DateOperators(w, t);
      } else {
        OtherOperators(w, t);
      }
    }
    if Read(t).Asks? {
      SatOne(w, Read(t).field);
      SatOne(w, NotOf(Criteria([Read(t).field])));
    }
  }

  predicate Means(w: Setting, ast: Option<Ast>) {
    ast.Some? ==> MeansNode(w, ast.value)
  }

  predicate MeansNode(w: Setting, ast: Ast)
    decreases ast, 1
  {
    match ast
    case Leaf(t) => TermSays(w, t)
    case Or(cs) => cs == [] || MeansSome(w, cs)
    case And(cs) => MeansAll(w, cs)
  }

  predicate MeansSome(w: Setting, asts: seq<Ast>)
    decreases asts, 0
  {
    asts != [] && (MeansNode(w, asts[0]) || MeansSome(w, asts[1..]))
  }

  predicate MeansAll(w: Setting, asts: seq<Ast>)
    decreases asts, 0
  {
    asts != [] ==> MeansNode(w, asts[0]) && MeansAll(w, asts[1..])
  }

  lemma {:induction false} SatFieldsConcat(w: Setting, a: seq<Field>, b: seq<Field>)
    ensures SatFields(w, a + b) <==> SatFields(w, a) && SatFields(w, b)
  {
    if a == [] {
      assert a + b == b;
    } else {
      assert (a + b)[1..] == a[1..] + b;
      SatFieldsConcat(w, a[1..], b);
    }
  }

  lemma {:induction false} AllFieldsMeanAll(w: Setting, cs: seq<Criteria>)
    ensures SatFields(w, AllFields(cs)) <==> SatAll(w, cs)
  {
    if cs != [] {
      SatFieldsConcat(w, cs[0].fields, AllFields(cs[1..]));
      AllFieldsMeanAll(w, cs[1..]);
    }
  }

  lemma SatOne(w: Setting, f: Field)
    ensures Sat(w, Criteria([f])) <==> SatField(w, f)
  {
    assert SatFields(w, [f]) <==> SatField(w, f) && SatFields(w, [f][1..]);
  }

  lemma {:induction false} DeMorgan(w: Setting, cs: seq<Criteria>)
    ensures !SatAny(w, Negations(cs)) <==> SatAll(w, cs)
  {
    if cs != [] {
      SatOne(w, NotOf(cs[0]));
      DeMorgan(w, cs[1..]);
      assert Negations(cs)[1..] == Negations(cs[1..]);
    }
  }

  /** Merging means AND, whether the keys are disjoint or De Morgan is used. */
  lemma MergeMeansAnd(w: Setting, cs: seq<Criteria>)
    ensures Sat(w, Merged(cs)) <==> SatAll(w, cs)
  {
    AllFieldsMeanAll(w, cs);
    DeMorgan(w, cs);
    SatOne(w, OrOf(Negations(cs)));
    SatOne(w, NotOf(Criteria([OrOf(Negations(cs))])));
  }

  lemma {:induction false} LowerNodePreservesMeaning(w: Setting, ast: Ast, hints: seq<string>)
    ensures Sat(w, LowerNode(ast, hints).0) <==> MeansNode(w, ast)
    decreases ast, 1
  {
    SatOne(w, All);
    match ast
    case Leaf(t) => TermMeans(w, t);
    case Or(children) =>
      LowerAllPreservesMeaning(w, children, hints);
      var cs := LowerAll(children, hints).0;
      SatOne(w, OrOf(cs));
    case And(children) =>
      LowerAllPreservesMeaning(w, children, hints);
      MergeMeansAnd(w, LowerAll(children, hints).0);
  }

  lemma {:induction false} LowerAllPreservesMeaning(w: Setting, asts: seq<Ast>, hints: seq<string>)
    ensures SatAny(w, LowerAll(asts, hints).0) <==> MeansSome(w, asts)
    ensures SatAll(w, LowerAll(asts, hints).0) <==> MeansAll(w, asts)
    decreases asts, 0
  {
    if asts != [] {
      LowerNodePreservesMeaning(w, asts[0], hints);
      var after := LowerNode(asts[0], hints).1;
      LowerAllPreservesMeaning(w, asts[1..], after);
      var cs := LowerAll(asts, hints).0;
      assert cs[0] == LowerNode(asts[0], hints).0 && cs[1..] == LowerAll(asts[1..], after).0;
    }
  }

  /** For every tree and every message, the criteria are satisfied exactly when the tree is. */
  lemma LoweringPreservesMeaning(w: Setting, ast: Option<Ast>, hints: seq<string>)
    ensures Sat(w, Lower(ast, hints).0) <==> Means(w, ast)
  {
    SatOne(w, All);
    if ast.Some? {
      LowerNodePreservesMeaning(w, ast.value, hints);
    }
  }

  // ---- Mailbox hints ----

  /** The values of the hint terms, left to right; a negated hint is one like any other. */
  function HintTerms(ast: Ast): seq<string>
    decreases ast, 1
  {
    match ast
    case Leaf(t) => if IsHint(t) then [t.value] else []
    case Or(cs) => HintTermsOfAll(cs)
    case And(cs) => HintTermsOfAll(cs)
  }

  function HintTermsOfAll(asts: seq<Ast>): seq<string>
    decreases asts, 0
  {
    if asts == [] then [] else HintTerms(asts[0]) + HintTermsOfAll(asts[1..])
  }

  lemma ReadKind(t: Term)
    ensures Read(t).Hints? <==> IsHint(t)
    ensures Read(t).Hints? ==> Read(t).mailbox == t.value
    ensures Read(t).AsksNothing? <==> SaysNothing(t)
  {
    TermMeans(FromNobody(), t);
  }

  lemma {:induction false} HintsAreHintTerms(ast: Ast, hints: seq<string>)
    ensures LowerNode(ast, hints).1 == hints + HintTerms(ast)
    decreases ast, 1
  {
    match ast
    case Leaf(t) => ReadKind(t);
    case Or(cs) => HintsOfAllAreHintTerms(cs, hints);
    case And(cs) => HintsOfAllAreHintTerms(cs, hints);
  }

  lemma {:induction false} HintsOfAllAreHintTerms(asts: seq<Ast>, hints: seq<string>)
    ensures LowerAll(asts, hints).1 == hints + HintTermsOfAll(asts)
    decreases asts, 0
  {
    if asts != [] {
      HintsAreHintTerms(asts[0], hints);
      HintsOfAllAreHintTerms(asts[1..], hints + HintTerms(asts[0]));
    }
  }

  // ---- The keys a tree lowers to, and the lines that are dropped ----

  /** The keys of the object a tree lowers to, read off the tree. */
  function TopKeys(ast: Ast): seq<string>
    decreases ast, 1
  {
    match ast
    case Leaf(t) =>
      if IsHint(t) || SaysNothing(t) then ["all"]
      else if t.negated then ["not"] else [match Read(t) case Asks(f) => f.Key() case _ => "all"]
    case Or(cs) => if cs == [] then ["all"] else if |cs| == 1 then TopKeys(cs[0]) else ["or"]
    case And(cs) =>
      if cs == [] then ["all"]
      else if |cs| > 1 && Repeats(TopKeysOfAll(cs)) then ["not"]
      else TopKeysOfAll(cs)
  }

  function TopKeysOfAll(asts: seq<Ast>): seq<string>
    decreases asts, 0
  {
    if asts == [] then [] else TopKeys(asts[0]) + TopKeysOfAll(asts[1..])
  }

  lemma KeysConcat(a: seq<Field>, b: seq<Field>)
    ensures Keys(a + b) == Keys(a) + Keys(b)
  {
  }

  lemma {:induction false} KeysAreTopKeys(ast: Ast, hints: seq<string>)
    ensures Keys(LowerNode(ast, hints).0.fields) == TopKeys(ast)
    decreases ast, 1
  {
    match ast
    case Leaf(t) => ReadKind(t);
    case Or(cs) =>
      if |cs| == 1 {
        assert LowerAll(cs, hints).0 == [LowerNode(cs[0], hints).0];
        KeysAreTopKeys(cs[0], hints);
      }
    case And(cs) =>
      KeysOfAllAreTopKeys(cs, hints);
      if |cs| == 1 {
        assert LowerAll(cs, hints).0 == [LowerNode(cs[0], hints).0];
        KeysAreTopKeys(cs[0], hints);
        assert TopKeysOfAll(cs[1..]) == [];
      }
  }

  lemma {:induction false} KeysOfAllAreTopKeys(asts: seq<Ast>, hints: seq<string>)
    ensures Keys(AllFields(LowerAll(asts, hints).0)) == TopKeysOfAll(asts)
    decreases asts, 0
  {
    if asts != [] {
      KeysAreTopKeys(asts[0], hints);
      var after := LowerNode(asts[0], hints).1;
      KeysOfAllAreTopKeys(asts[1..], after);
      var cs := LowerAll(asts, hints).0;
      assert cs[0] == LowerNode(asts[0], hints).0 && cs[1..] == LowerAll(asts[1..], after).0;
      KeysConcat(cs[0].fields, AllFields(cs[1..]));
    }
  }

  /** Every object the lowering builds has each key once, as an object must. */
  lemma {:induction false} KeysAreDistinct(ast: Ast)
    ensures !Repeats(TopKeys(ast))
    decreases ast
  {
    match ast
    case Leaf(t) =>
    case Or(cs) => if |cs| == 1 { KeysAreDistinct(cs[0]); }
    case And(cs) =>
      if |cs| == 1 {
        KeysAreDistinct(cs[0]);
        assert TopKeysOfAll(cs[1..]) == [];
        assert TopKeysOfAll(cs) == TopKeys(cs[0]);
      }
  }

  predicate CarriesAll(c: Criteria) {
    All in c.fields
  }

  datatype ParsedQuery = ParsedQuery(imapQueries: seq<Criteria>, mailboxHints: seq<string>)

  function Queries(lines: seq<Option<Ast>>, hints: seq<string>): ParsedQuery {
    if lines == [] then ParsedQuery([], hints)
    else
      var (c, after) := Lower(lines[0], hints);
      var more := Queries(lines[1..], after);
      ParsedQuery((if CarriesAll(c) then [] else [c]) + more.imapQueries, more.mailboxHints)
  }

  /** `parse` on the trees of the query's lines: a line whose criteria carry `all` is dropped, and a query
      without criteria asks for everything. */
  function ParseLines(lines: seq<Option<Ast>>): ParsedQuery {
    var q := Queries(lines, []);
    if q.imapQueries == [] then q.(imapQueries := [EVERYTHING]) else q
  }

  function Trees(lines: seq<seq<Token>>): seq<Option<Ast>> {
    seq(|lines|, i requires 0 <= i < |lines| => BuildAst(lines[i]))
  }

  lemma OneMoreLine(queries: seq<Criteria>, lines: seq<Option<Ast>>, hints: seq<string>)
    requires lines != []
    ensures var (c, after) := Lower(lines[0], hints);
      && queries + Queries(lines, hints).imapQueries
         == (queries + if CarriesAll(c) then [] else [c]) + Queries(lines[1..], after).imapQueries
      && Queries(lines, hints).mailboxHints == Queries(lines[1..], after).mailboxHints
  {
    var (c, after) := Lower(lines[0], hints);
    var one := if CarriesAll(c) then [] else [c];
    Associates(queries, one, Queries(lines[1..], after).imapQueries);
  }

  /** `GmailQueryParser.parse`, lines 36 to 52, from each line's tokens on */
  method RunParse(lines: seq<seq<Token>>) returns (q: ParsedQuery)
    ensures q == ParseLines(Trees(lines))
  {
    ghost var asts := Trees(lines);
    var hints: seq<string> := [];
    var queries: seq<Criteria> := [];
    for i := 0 to |lines|
      invariant queries + Queries(asts[i..], hints).imapQueries == Queries(asts, []).imapQueries
      invariant Queries(asts[i..], hints).mailboxHints == Queries(asts, []).mailboxHints
    {
      OneMoreLine(queries, asts[i..], hints);
      assert asts[i..][1..] == asts[i + 1..];
      var ast := RunBuildAst(lines[i]);
      var (c, after) := Lower(ast, hints);
      queries := queries + if CarriesAll(c) then [] else [c];
      hints := after;
    }
    assert asts[|lines|..] == [];
    assert queries + [] == queries;
    if queries == [] { queries := [EVERYTHING]; }
    q := ParsedQuery(queries, hints);
  }

  function KeysOfLine(ast: Option<Ast>): seq<string> {
    if ast.None? then ["all"] else TopKeys(ast.value)
  }

  /** A line is dropped exactly when `all` is among the keys its tree lowers to. */
  lemma DroppedIff(ast: Option<Ast>, hints: seq<string>)
    ensures CarriesAll(Lower(ast, hints).0) <==> "all" in KeysOfLine(ast)
  {
    var c := Lower(ast, hints).0;
    if ast.Some? {
      KeysAreTopKeys(ast.value, hints);
      TestKeysAreNotAll(ast.value, hints);
    }
    assert forall i | 0 <= i < |c.fields| :: Keys(c.fields)[i] == c.fields[i].Key();
    assert Keys(c.fields) == KeysOfLine(ast);
    if "all" in KeysOfLine(ast) {
      var i :| 0 <= i < |c.fields| && Keys(c.fields)[i] == "all";
      assert c.fields[i] == All;
    }
    if CarriesAll(c) {
      var i :| 0 <= i < |c.fields| && c.fields[i] == All;
      assert Keys(c.fields)[i] == "all";
    }
  }

  function HintsOfLines(lines: seq<Option<Ast>>): seq<string> {
    if lines == [] then [] else (if lines[0].Some? then HintTerms(lines[0].value) else []) + HintsOfLines(lines[1..])
  }

  lemma {:induction false} QueriesHandOn(lines: seq<Option<Ast>>, hints: seq<string>)
    ensures Queries(lines, hints).mailboxHints == hints + HintsOfLines(lines)
  {
    if lines == [] {
      assert hints + [] == hints;
    } else {
      var (c, after) := Lower(lines[0], hints);
      var first := if lines[0].Some? then HintTerms(lines[0].value) else [];
      if lines[0].Some? { HintsAreHintTerms(lines[0].value, hints); }
      assert after == hints + first;
      QueriesHandOn(lines[1..], after);
      Associates(hints, first, HintsOfLines(lines[1..]));
    }
  }

  /** The hints of all lines count, also of those that are dropped. */
  lemma AllHintsCount(lines: seq<Option<Ast>>)
    ensures ParseLines(lines).mailboxHints == HintsOfLines(lines)
  {
    QueriesHandOn(lines, []);
    assert [] + HintsOfLines(lines) == HintsOfLines(lines);
  }

  lemma ReadKeyIsNotAll(t: Term)
    ensures Read(t).Asks? ==> Read(t).field.Key() != "all"
  {
    assert "bcc" != "all";
  }

  predicate NoFakeAll(fields: seq<Field>) {
    forall f | f in fields :: f.Key() == "all" ==> f == All
  }

  /** Only `{ all: true }` itself has the key `all`. */
  lemma {:induction false} TestKeysAreNotAll(ast: Ast, hints: seq<string>)
    ensures NoFakeAll(LowerNode(ast, hints).0.fields)
    decreases ast, 1
  {
    match ast
    case Leaf(t) => ReadKeyIsNotAll(t);
    case Or(cs) =>
      if |cs| == 1 {
        assert LowerAll(cs, hints).0 == [LowerNode(cs[0], hints).0];
        TestKeysAreNotAll(cs[0], hints);
      }
    case And(cs) =>
      TestKeysOfAllAreNotAll(cs, hints);
      if |cs| == 1 {
        assert LowerAll(cs, hints).0 == [LowerNode(cs[0], hints).0];
        TestKeysAreNotAll(cs[0], hints);
      }
  }

  lemma {:induction false} TestKeysOfAllAreNotAll(asts: seq<Ast>, hints: seq<string>)
    ensures NoFakeAll(AllFields(LowerAll(asts, hints).0))
    decreases asts, 0
  {
    if asts != [] {
      TestKeysAreNotAll(asts[0], hints);
      var after := LowerNode(asts[0], hints).1;
      TestKeysOfAllAreNotAll(asts[1..], after);
      var cs := LowerAll(asts, hints).0;
      assert cs[0] == LowerNode(asts[0], hints).0 && cs[1..] == LowerAll(asts[1..], after).0;
    }
  }

  /** What the lines that are kept mean together. */
  predicate SomeKeptMeans(w: Setting, lines: seq<Option<Ast>>) {
    exists i :: 0 <= i < |lines| && "all" !in KeysOfLine(lines[i]) && Means(w, lines[i])
  }

  predicate AllDropped(lines: seq<Option<Ast>>) {
    forall i | 0 <= i < |lines| :: "all" in KeysOfLine(lines[i])
  }

  lemma {:induction false} QueriesMeanKeptLines(w: Setting, lines: seq<Option<Ast>>, hints: seq<string>)
    ensures SatAny(w, Queries(lines, hints).imapQueries) <==> SomeKeptMeans(w, lines)
    ensures Queries(lines, hints).imapQueries == [] <==> AllDropped(lines)
  {
    if lines != [] {
      var (c, after) := Lower(lines[0], hints);
      LoweringPreservesMeaning(w, lines[0], hints);
      DroppedIff(lines[0], hints);
      QueriesMeanKeptLines(w, lines[1..], after);
      var more := Queries(lines[1..], after).imapQueries;
      assert ([c] + more)[1..] == more && [] + more == more;
      KeptOfCons(w, lines);
    }
  }

  lemma KeptOfCons(w: Setting, lines: seq<Option<Ast>>)
    requires lines != []
    ensures SomeKeptMeans(w, lines) <==> ("all" !in KeysOfLine(lines[0]) && Means(w, lines[0])) || SomeKeptMeans(w, lines[1..])
    ensures AllDropped(lines) <==> "all" in KeysOfLine(lines[0]) && AllDropped(lines[1..])
  {
    if SomeKeptMeans(w, lines[1..]) {
      var i :| 0 <= i < |lines[1..]| && "all" !in KeysOfLine(lines[1..][i]) && Means(w, lines[1..][i]);
      assert lines[i + 1] == lines[1..][i];
    }
    if SomeKeptMeans(w, lines) {
      var i :| 0 <= i < |lines| && "all" !in KeysOfLine(lines[i]) && Means(w, lines[i]);
      if i > 0 { assert lines[1..][i - 1] == lines[i]; }
    }
    if AllDropped(lines) {
      assert forall i | 0 <= i < |lines[1..]| :: lines[1..][i] == lines[i + 1];
    }
    if AllDropped(lines[1..]) && "all" in KeysOfLine(lines[0]) {
      assert forall i | 1 <= i < |lines| :: lines[i] == lines[1..][i - 1];
    }
  }

  /** A message is searched for exactly when some kept line means it, or every line is dropped. */
  lemma ParseMeansKeptLines(w: Setting, lines: seq<Option<Ast>>)
    ensures SatAny(w, ParseLines(lines).imapQueries) <==> SomeKeptMeans(w, lines) || AllDropped(lines)
  {
    QueriesMeanKeptLines(w, lines, []);
    SatOne(w, All);
  }

  /** So one line keeps its meaning exactly when `all` is not among its keys, or the line means every
      message anyway. */
  lemma OneLineKeepsMeaningIff(ast: Option<Ast>)
    ensures (forall w :: SatAny(w, ParseLines([ast]).imapQueries) <==> Means(w, ast))
       <==> ("all" !in KeysOfLine(ast) || forall w :: Means(w, ast))
  {
    forall w
      ensures SatAny(w, ParseLines([ast]).imapQueries) <==> ("all" in KeysOfLine(ast) || Means(w, ast))
    {
      ParseMeansKeptLines(w, [ast]);
      assert [ast][0] == ast;
    }
  }

  /** `in:work from:bob` asks for every message of the mailbox: the hint's `{ all: true }` merges with
      `from`, and the line is dropped whole; yet it does not mean every message. */
  lemma HintDropsItsNeighbours(mailbox: string, sender: string)
    ensures var line := HintedLine(mailbox, sender);
      && ParseLines([line]) == ParsedQuery([EVERYTHING], [mailbox])
      && (sender != "" ==> !Means(FromNobody(), line))
  {
    var hint, from := Leaf(Term(Op("in"), mailbox, false)), Leaf(Term(Op("from"), sender, false));
    var line := HintedLine(mailbox, sender);
    HintedKeys(hint, from, mailbox, sender);
    DroppedIff(line, []);
    HintsAreHintTerms(line.value, []);
    assert [line][1..] == [];
    assert Queries([line], []) == ParsedQuery([] + [], [mailbox]);
    if sender != "" {
      assert !MeansNode(FromNobody(), from);
      assert !MeansAll(FromNobody(), [hint, from]) by { assert [hint, from][1..] == [from]; }
    }
  }

  function HintedLine(mailbox: string, sender: string): Option<Ast> {
    Some(And([Leaf(Term(Op("in"), mailbox, false)), Leaf(Term(Op("from"), sender, false))]))
  }

  function FromNobody(): Setting {
    Setting(Mail("", "", "", "", "", "", 0, 0, true, true, ""), _ => 0, _ => 0)
  }

  lemma HintedKeys(hint: Ast, from: Ast, mailbox: string, sender: string)
    requires hint == Leaf(Term(Op("in"), mailbox, false)) && from == Leaf(Term(Op("from"), sender, false))
    ensures "all" in TopKeys(And([hint, from])) && HintTerms(And([hint, from])) == [mailbox]
  {
    assert TopKeys(hint) == ["all"] && TopKeys(from) == ["from"];
    assert [hint, from][1..] == [from] && [from][1..] == [];
    assert TopKeysOfAll([from]) == ["from"] + TopKeysOfAll([]);
    assert TopKeysOfAll([hint, from]) == ["all"] + TopKeysOfAll([from]);
    assert "all" != "from";
    assert !Repeats(["all", "from"]);
    assert HintTermsOfAll([from]) == [] + HintTermsOfAll([]);
    assert HintTermsOfAll([hint, from]) == [mailbox] + HintTermsOfAll([from]);
  }

  ghost predicate AllWritten(asts: seq<Ast>) {
    forall i | 0 <= i < |asts| :: Normal(asts[i]) && "all" !in TopKeys(asts[i])
  }

  function PrintedLines(asts: seq<Ast>): seq<seq<Token>> {
    seq(|asts|, i requires 0 <= i < |asts| => PrintOr(asts[i]))
  }

  /** From the printed tokens of some queries on: what is asked of the server means one of them. */
  lemma SearchMeansQueries(w: Setting, asts: seq<Ast>)
    requires AllWritten(asts) && asts != []
    ensures SatAny(w, ParseLines(Trees(PrintedLines(asts))).imapQueries) <==> exists i | 0 <= i < |asts| :: MeansNode(w, asts[i])
  {
    var lines := Trees(PrintedLines(asts));
    forall i | 0 <= i < |asts| ensures lines[i] == Some(asts[i]) {
      BuildUndoesPrint(asts[i]);
    }
    ParseMeansKeptLines(w, lines);
    assert KeysOfLine(lines[0]) == TopKeys(asts[0]);
    if i :| 0 <= i < |asts| && MeansNode(w, asts[i]) {
      assert Means(w, lines[i]) && KeysOfLine(lines[i]) == TopKeys(asts[i]);
    }
    if SomeKeptMeans(w, lines) {
      var i :| 0 <= i < |lines| && "all" !in KeysOfLine(lines[i]) && Means(w, lines[i]);
      assert MeansNode(w, asts[i]);
    }
  }
}
