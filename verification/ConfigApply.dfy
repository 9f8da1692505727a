/** Applying a proposed change to the config
    (packages/core/src/agent/config-assistant-proposals.ts, lines 195 to 198, 222 to 270, 284 to 296 and 327 to 389).

    The config is a value: the walk to a change's place rebuilds the records on its path. Only ASCII letters
    have two cases. */
module ConfigApply {
  import opened Common
  import opened ConfigMerge

  // ----- Paths.

  /** The trimmed segment, unless it is empty. */
  function Kept(segment: string): seq<string> {
    if Trim(segment) == "" then [] else [Trim(segment)]
  }

  /** `pathSegments`, lines 196 to 198. */
  function PathSegments(path: string): seq<string>
    decreases |path|
  {
    var i := FirstIndex(path, '.');
    if i == |path| then Kept(path) else Kept(path[..i]) + PathSegments(path[i + 1..])
  }

  function LowerAll(segments: seq<string>): seq<string> {
    seq(|segments|, i requires 0 <= i < |segments| => Lower(segments[i]))
  }

  lemma {:induction false} TrimStartOfLower(s: string)
    ensures TrimStart(Lower(s)) == Lower(TrimStart(s))
  {
    if s != [] && IsSpace(s[0]) {
      assert Lower(s)[1..] == Lower(s[1..]);
      TrimStartOfLower(s[1..]);
    }
  }

  lemma {:induction false} TrimEndOfLower(s: string)
    ensures TrimEnd(Lower(s)) == Lower(TrimEnd(s))
  {
    if s != [] && IsSpace(Last(s)) {
      assert Init(Lower(s)) == Lower(Init(s));
      TrimEndOfLower(Init(s));
    }
  }

  lemma KeptOfLower(s: string)
    ensures Kept(Lower(s)) == LowerAll(Kept(s))
  {
    TrimStartOfLower(s);
    TrimEndOfLower(TrimStart(s));
  }

  lemma {:induction false} FirstIndexOfLower(s: string)
    ensures FirstIndex(Lower(s), '.') == FirstIndex(s, '.')
  {
    if s != [] && s[0] != '.' {
      assert Lower(s)[1..] == Lower(s[1..]);
      FirstIndexOfLower(s[1..]);
    }
  }

  lemma LowerOfParts(s: string, i: nat)
    requires i < |s|
    ensures Lower(s)[..i] == Lower(s[..i]) && Lower(s)[i + 1..] == Lower(s[i + 1..])
  {
  }

  lemma LowerAllOfConcat(a: seq<string>, b: seq<string>)
    ensures LowerAll(a + b) == LowerAll(a) + LowerAll(b)
  {
  }

  lemma SegmentsAtDot(path: string, i: nat)
    requires i == FirstIndex(path, '.') < |path|
    ensures PathSegments(path) == Kept(path[..i]) + PathSegments(path[i + 1..])
  {
  }

  lemma SegmentsWithoutDot(path: string)
    requires FirstIndex(path, '.') == |path|
    ensures PathSegments(path) == Kept(path)
  {
  }

  /** The last step of SegmentsOfLower: the front and the tail of a path put together. */
  lemma LowerFrontAndTail(path: string, i: nat)
    requires i == FirstIndex(path, '.') < |path|
    requires PathSegments(Lower(path[i + 1..])) == LowerAll(PathSegments(path[i + 1..]))
    ensures PathSegments(Lower(path)) == LowerAll(PathSegments(path))
  {
    var front, tail := path[..i], path[i + 1..];
    FirstIndexOfLower(path);
    LowerOfParts(path, i);
    KeptOfLower(front);
    LowerAllOfConcat(Kept(front), PathSegments(tail));
    SegmentsAtDot(path, i);
    SegmentsAtDot(Lower(path), i);
  }

  /** Lower-casing a path before splitting it only lower-cases its segments. */
  lemma {:induction false} SegmentsOfLower(path: string)
    ensures PathSegments(Lower(path)) == LowerAll(PathSegments(path))
    decreases |path|
  {
    var i := FirstIndex(path, '.');
    if i == |path| {
      FirstIndexOfLower(path);
      KeptOfLower(path);
      SegmentsWithoutDot(path);
      SegmentsWithoutDot(Lower(path));
    } else {
      SegmentsOfLower(path[i + 1..]);
      LowerFrontAndTail(path, i);
    }
  }

  function AllKept(parts: seq<string>): seq<string> {
    if parts == [] then [] else Kept(parts[0]) + AllKept(parts[1..])
  }

  /** Parts joined by dots are the path's segments again, */
  lemma {:induction false} SegmentsOfJoined(parts: seq<string>)
    requires parts != [] && forall i | 0 <= i < |parts| :: '.' !in parts[i]
    ensures PathSegments(JoinedBy(parts, '.')) == AllKept(parts)
  {
    var path, first := JoinedBy(parts, '.'), parts[0];
    if |parts| == 1 {
      NoDot(first);
      assert AllKept(parts[1..]) == [];
    } else {
      var rest := JoinedBy(parts[1..], '.');
      assert path == first + (['.'] + rest);
      FirstIndexAt(first, '.', rest);
      assert path[..|first|] == first && path[|first| + 1..] == rest;
      SegmentsOfJoined(parts[1..]);
    }
  }

  /** each without the white space around it, and without those that are blank. */
  lemma KeptIs(a: string, s: string, b: string)
    requires AllSpace(a) && AllSpace(b) && (s == "" || Solid(s))
    ensures Kept(a + s + b) == if s == "" then [] else [s]
  {
    TrimIs(a, s, b);
  }

  lemma {:induction false} NoDot(s: string)
    requires '.' !in s
    ensures FirstIndex(s, '.') == |s|
  {
    if s != "" {
      NoDot(s[1..]);
    }
  }

  // ----- Writing one value.

  /** The record at a key; nothing else can be walked into. */
  function Inner(root: Fields, key: string): Fields {
    if key in root && root[key].Rec? then root[key].fields else map[]
  }

  function WithLeaf(cursor: Fields, leaf: string, value: Json): Fields {
    if value.Null? then cursor - {leaf}
    else if value.Rec? && leaf in cursor && cursor[leaf].Rec? then cursor[leaf := Rec(Merge(cursor[leaf].fields, value))]
    else cursor[leaf := value]
  }

  function WithPath(root: Fields, p: seq<string>, value: Json): Fields
    requires p != []
    decreases |p|
  {
    if |p| == 1 then WithLeaf(root, p[0], value)
    else root[p[0] := Rec(WithPath(Inner(root, p[0]), p[1..], value))]
  }

  /** `applyObjectPath`, lines 222 to 241. */
  function Applied(root: Fields, path: string, value: Json): Fields {
    var p := PathSegments(path);
    if p == [] then root else WithPath(root, p, value)
  }

  /** What stands at a place. */
  function Lookup(root: Fields, q: seq<string>): Option<Json>
    decreases |q|
  {
    if q == [] then Some(Rec(root))
    else if q[0] !in root then None
    else if |q| == 1 then Some(root[q[0]])
    else if root[q[0]].Rec? then Lookup(root[q[0]].fields, q[1..]) else None
  }

  /** What a change leaves at its own place. */
  function Written(old_: Option<Json>, value: Json): Option<Json> {
    if value.Null? then None
    else if value.Rec? && old_.Some? && old_.value.Rec? then Some(Rec(Merge(old_.value.fields, value)))
    else Some(value)
  }

  lemma LookupInner(root: Fields, q: seq<string>)
    requires |q| > 1
    ensures Lookup(root, q) == Lookup(Inner(root, q[0]), q[1..])
  {
  }

  lemma {:induction false} PathIsWritten(root: Fields, p: seq<string>, value: Json)
    requires p != []
    ensures Lookup(WithPath(root, p, value), p) == Written(Lookup(root, p), value)
    decreases |p|
  {
    if |p| > 1 {
      PathIsWritten(Inner(root, p[0]), p[1..], value);
      LookupInner(root, p);
    }
  }

  /** Nothing off the path changes: neither above it nor below it means disjoint from it. */
  lemma {:induction false} DisjointPathStays(root: Fields, p: seq<string>, value: Json, q: seq<string>)
    requires p != [] && !(p <= q) && !(q <= p)
    ensures Lookup(WithPath(root, p, value), q) == Lookup(root, q)
    decreases |p|
  {
    if q[0] == p[0] {
      assert |p| > 1 && |q| > 1;
      assert p == [p[0]] + p[1..] && q == [q[0]] + q[1..];
      DisjointPathStays(Inner(root, p[0]), p[1..], value, q[1..]);
      LookupInner(root, q);
    }
  }

  /** Only the first segment's key changes at the top. */
  lemma OnlyFirstKeyChanges(root: Fields, p: seq<string>, value: Json, key: string)
    requires p != [] && key != p[0]
    ensures SameAt(WithPath(root, p, value), root, key)
  {
  }

  // ----- Prompt changes.

  const MAIN_ASSISTANT_PROMPT_TARGET := "main_assistant"

  datatype PromptChange = PromptChange(agentName: string, append: bool, prompt: string)

  /** What spreading a value into an object literal gives. */
  function Spread(j: Json): Fields {
    match j
    case Rec(fields) => fields
    case Arr(items) => Numbered(items)
    case Str(text) => Numbered(seq(|text|, i requires 0 <= i < |text| => Str([text[i]])))
    case _ => map[]
  }

  function Numbered(items: seq<Json>): Fields {
    if items == [] then map[] else Numbered(Init(items))[Decimal(|items| - 1) := Last(items)]
  }

  function PromptAt(entry: Json, field: string): string {
    if entry.Rec? && field in entry.fields && entry.fields[field].Str? then entry.fields[field].text else ""
  }

  function NewPrompt(current: string, change: PromptChange): string {
    if change.append && Trim(current) != "" then Trim(current) + "\n\n" + Trim(change.prompt) else Trim(change.prompt)
  }

  const MAX_ARRAY_LENGTH := 4294967295

  /** The element a property name stands for on an array. */
  function ArrayIndex(name: string): Option<nat> {
    if name != "" && AllDigits(name) && (name[0] != '0' || |name| == 1) && Number(name) < MAX_ARRAY_LENGTH
    then Some(Number(name)) else None
  }

  /** The entry with its prompt written. */
  function WithPromptField(entry: Json, field: string, change: PromptChange): Json {
    Rec(Spread(entry)[field := Str(NewPrompt(PromptAt(entry, field), change))])
  }

  /** An array with one element set; the elements skipped over are saved as null. */
  function WithElement(items: seq<Json>, k: nat, value: Json): seq<Json> {
    if k < |items| then items[k := value] else items + seq(k - |items|, _ => Null) + [value]
  }

  /** Writes the prompt field of root[group][name]. None is the error of setting a property on a scalar, or an array's
      length to an object; another property set on an array is not saved. */
  function WithPromptIn(root: Fields, group: string, name: string, field: string, change: PromptChange): Option<Fields> {
    var members := if group in root then root[group] else Null;
    match members
    case Arr(items) =>
      if name == "length" then None
      else
        var k := ArrayIndex(name);
        if k.None? then Some(root)
        else
          var entry := if k.value < |items| then items[k.value] else Null;
          Some(root[group := Arr(WithElement(items, k.value, WithPromptField(entry, field, change)))])
    case Bool(_) => None
    case Num(_) => None
    case Str(_) => None
    case _ =>
      var all := Inner(root, group);
      var entry := if name in all then all[name] else Null;
      Some(root[group := Rec(all[name := WithPromptField(entry, field, change)])])
  }

  /** `applyPromptChange`, lines 243 to 270. */
  function Prompted(root: Fields, change: PromptChange): Option<Fields> {
    if change.agentName == MAIN_ASSISTANT_PROMPT_TARGET
    then WithPromptIn(root, "agents", "mainAssistant", "customInstructions", change)
    else WithPromptIn(root, "subAgents", change.agentName, "systemPrompt", change)
  }

  // ----- What a prompt change leaves.

  /** Where the prompt of the agent named stands. */
  function PromptPlace(change: PromptChange): (q: seq<string>)
    ensures |q| == 3
  {
    if change.agentName == "main_assistant" then ["agents", "mainAssistant", "customInstructions"]
    else ["subAgents", change.agentName, "systemPrompt"]
  }

  predicate IsText(j: Option<Json>) {
    j.Some? && j.value.Str?
  }

  /** The group of agents can be written into as a record. */
  predicate HasRecord(root: Fields, group: string) {
    group in root ==> root[group].Rec? || root[group].Null?
  }

  lemma PromptedIsAt(root: Fields, change: PromptChange)
    ensures var q := PromptPlace(change); Prompted(root, change) == WithPromptIn(root, q[0], q[1], q[2], change)
  {
  }

  lemma LookupThree(root: Fields, a: string, b: string, c: string)
    ensures Lookup(root, [a, b, c]) ==
      if a in root && root[a].Rec? && b in root[a].fields && root[a].fields[b].Rec? && c in root[a].fields[b].fields
      then Some(root[a].fields[b].fields[c]) else None
  {
    LookupInner(root, [a, b, c]);
    assert [a, b, c][1..] == [b, c];
    LookupInner(Inner(root, a), [b, c]);
    assert [b, c][1..] == [c];
  }

  /** The prompt is the change's, trimmed, or the old one, a blank line and the change's, when it is appended to one that
      is not blank. */
  lemma PromptIsWritten(root: Fields, change: PromptChange)
    requires HasRecord(root, PromptPlace(change)[0])
    ensures var q := PromptPlace(change); var before := Lookup(root, q);
      && Prompted(root, change).Some?
      && var after := Lookup(Prompted(root, change).value, q);
        if change.append && IsText(before) && Trim(before.value.text) != ""
        then after == Some(Str(Trim(before.value.text) + "\n\n" + Trim(change.prompt)))
        else after == Some(Str(Trim(change.prompt)))
  {
    var q := PromptPlace(change);
    PromptedIsAt(root, change);
    LookupThree(root, q[0], q[1], q[2]);
    LookupThree(Prompted(root, change).value, q[0], q[1], q[2]);
    assert q == [q[0], q[1], q[2]];
  }

  /** Every other place stays, unless the agent's entry is a text or a list, which is spread into a record. */
  lemma PromptLeavesTheRest(root: Fields, change: PromptChange, q: seq<string>)
    requires HasRecord(root, PromptPlace(change)[0])
    requires var entry := Lookup(root, PromptPlace(change)[..2]); entry.Some? ==> !entry.value.Str? && !entry.value.Arr?
    requires !(q <= PromptPlace(change)) && !(PromptPlace(change) <= q)
    ensures Prompted(root, change).Some? && Lookup(Prompted(root, change).value, q) == Lookup(root, q)
  {
    var at := PromptPlace(change);
    PromptedIsAt(root, change);
    var all := Inner(root, at[0]);
    var entry := if at[1] in all then all[at[1]] else Null;
    var inside := WithPromptField(entry, at[2], change).fields;
    assert Lookup(root, at[..2]) == Lookup(all, [at[1]]) by {
      LookupInner(root, at[..2]);
      assert at[..2][1..] == [at[1]];
    }
    assert all[at[1] := Rec(inside)] == WithPath(all, at[1..], Str(inside[at[2]].text)) by {
      WrittenInside(all, at[1], at[2], inside);
      assert at[1..] == [at[1], at[2]];
    }
    DisjointPathStays(root, at, inside[at[2]], q);
  }

  lemma WrittenInside(all: Fields, name: string, field: string, inside: Fields)
    requires field in inside && inside[field].Str? && inside == Inner(all, name)[field := inside[field]]
    ensures WithPath(all, [name, field], inside[field]) == all[name := Rec(inside)]
  {
    assert [name, field][1..] == [field];
  }

  /** It fails exactly where the agents are a scalar, or a list and the agent's name is "length". */
  lemma PromptFailsIff(root: Fields, change: PromptChange)
    ensures var group, name := PromptPlace(change)[0], PromptPlace(change)[1];
      Prompted(root, change).None? <==>
        (group in root && (root[group].Bool? || root[group].Num? || root[group].Str? || (root[group].Arr? && name == "length")))
  {
    PromptedIsAt(root, change);
  }

  /** In a list the agent's name counts as an index when it is one written out. */
  lemma PromptInList(root: Fields, change: PromptChange, k: nat)
    requires var group := PromptPlace(change)[0]; group in root && root[group].Arr?
    requires k < 4294967295 && PromptPlace(change)[1] == Decimal(k)
    ensures var group := PromptPlace(change)[0];
      && Prompted(root, change).Some?
      && var items, after := root[group].items, Prompted(root, change).value;
        && after.Keys == root.Keys && (forall other | other in root && other != group :: after[other] == root[other])
        && after[group].Arr? && IsSetAt(items, k, after[group].items)
        && after[group].items[k] == WithPromptField(if k < |items| then items[k] else Null, PromptPlace(change)[2], change)
  {
    PromptedIsAt(root, change);
    ArrayIndexIff(Decimal(k));
    NotLength(k);
  }

  lemma NotLength(k: nat)
    ensures Decimal(k) != "length"
  {
    NoLeadingZero(k);
    DecimalReadsBack(k);
    assert !IsDigit("length"[0]);
  }

  /** Else nothing is saved. */
  lemma PromptBesideList(root: Fields, change: PromptChange)
    requires var group := PromptPlace(change)[0]; group in root && root[group].Arr? && PromptPlace(change)[1] != "length"
    requires forall k: nat | k < 4294967295 :: PromptPlace(change)[1] != Decimal(k)
    ensures Prompted(root, change) == Some(root)
  {
    PromptedIsAt(root, change);
    ArrayIndexIff(PromptPlace(change)[1]);
  }

  /** One element is set, those before stay, and those skipped over are null. */
  ghost predicate IsSetAt(items: seq<Json>, k: nat, after: seq<Json>) {
    && |after| == Max(|items|, k + 1)
    && (forall i | 0 <= i < |items| && i != k :: after[i] == items[i])
    && (forall i | |items| <= i < k :: after[i] == Null)
  }

  /** A name stands for an element exactly if it is that element's number written out, below the greatest length. */
  lemma ArrayIndexIff(name: string)
    ensures ArrayIndex(name).Some? ==> ArrayIndex(name).value < 4294967295 && name == Decimal(ArrayIndex(name).value)
    ensures forall k: nat | k < 4294967295 && name == Decimal(k) :: ArrayIndex(name) == Some(k)
  {
    if ArrayIndex(name).Some? {
      if name[0] == '0' {
        NumberOfMore("", '0');
        assert name == "" + ['0'] && Decimal(0) == ['0'] by { DigitValue(0); DigitIsItself('0'); }
      } else {
        DigitsAreDecimal(name);
      }
    }
    forall k: nat | k < 4294967295 && name == Decimal(k) ensures ArrayIndex(name) == Some(k) {
      DecimalReadsBack(k);
      NoLeadingZero(k);
    }
  }

  /** A list spread into a record: its elements under their numbers, and nothing else. */
  lemma {:induction false} NumberedIs(items: seq<Json>)
    ensures forall i | 0 <= i < |items| :: Decimal(i) in Numbered(items) && Numbered(items)[Decimal(i)] == items[i]
    ensures forall key | key in Numbered(items) :: exists i | 0 <= i < |items| :: key == Decimal(i)
  {
    if items != [] {
      NumberedIs(Init(items));
      DecimalReadsBack(|items| - 1);
      forall i | 0 <= i < |items| ensures Decimal(i) in Numbered(items) && Numbered(items)[Decimal(i)] == items[i] {
        DecimalReadsBack(i);
        if i < |items| - 1 { assert items[i] == Init(items)[i]; }
      }
    }
  }

  // ----- A whole proposal.

  datatype Change = Change(path: string, value: Json)

  datatype Proposal = Proposal(configChanges: seq<Change>, promptChanges: seq<PromptChange>)

  function AllApplied(root: Fields, changes: seq<Change>): Fields {
    if changes == [] then root
    else Applied(AllApplied(root, Init(changes)), Last(changes).path, Last(changes).value)
  }

  function AllPrompted(root: Fields, changes: seq<PromptChange>): Option<Fields> {
    if changes == [] then Some(root)
    else
      var before := AllPrompted(root, Init(changes));
      if before.None? then None else Prompted(before.value, Last(changes))
  }

  /** The config changes, then the prompt changes (packages/core/src/gateway/index.ts, lines 3110 to 3120). */
  function ProposalApplied(root: Fields, proposal: Proposal): Option<Fields> {
    AllPrompted(AllApplied(root, proposal.configChanges), proposal.promptChanges)
  }

  /** The config in memory, which a proposal changes in place. */
  class Config {
    var root: Fields

    constructor (fields: Fields)
      ensures root == fields
    {
      root := fields;
    }

    method ApplyObjectPath(path: string, value: Json)
      modifies this
      ensures root == Applied(old(root), path, value)
    {
      var p := PathSegments(path);
      if p == [] { return; }
      root := Walk(root, p, value);
    }

    /** The cursor's walk; a missing or unwalkable place becomes an empty record. */
    static method Walk(cursor: Fields, p: seq<string>, value: Json) returns (r: Fields)
      requires p != []
      ensures r == WithPath(cursor, p, value)
      decreases |p|
    {
      r := cursor;
      if |p| == 1 {
        if value.Null? {
          r := r - {p[0]};
        } else if value.Rec? && p[0] in r && r[p[0]].Rec? {
          var merged := MergeChangeValue(r[p[0]].fields, value);
          r := r[p[0] := Rec(merged)];
        } else {
          r := r[p[0] := value];
        }
      } else {
        if p[0] !in r || !r[p[0]].Rec? { r := r[p[0] := Rec(map[])]; }
        var inner := Walk(r[p[0]].fields, p[1..], value);
        r := r[p[0] := Rec(inner)];
      }
    }

    /** `applyProposal` of the apply route. */
    method ApplyProposal(proposal: Proposal) returns (ok: bool)
      modifies this
      ensures ok <==> ProposalApplied(old(root), proposal).Some?
      ensures ok ==> root == ProposalApplied(old(root), proposal).value
    {
      var start := root;
      for i := 0 to |proposal.configChanges|
        invariant root == AllApplied(start, proposal.configChanges[..i])
      {
        assert Init(proposal.configChanges[..i + 1]) == proposal.configChanges[..i];
        ApplyObjectPath(proposal.configChanges[i].path, proposal.configChanges[i].value);
      }
      assert proposal.configChanges[..|proposal.configChanges|] == proposal.configChanges;
      var middle := root;
      var failed := false;
      for i := 0 to |proposal.promptChanges|
        invariant failed <==> AllPrompted(middle, proposal.promptChanges[..i]).None?
        invariant !failed ==> Some(root) == AllPrompted(middle, proposal.promptChanges[..i])
      {
        assert Init(proposal.promptChanges[..i + 1]) == proposal.promptChanges[..i];
        if !failed {
          var next := Prompted(root, proposal.promptChanges[i]);
          if next.Some? { root := next.value; } else { failed := true; }
        }
      }
      assert proposal.promptChanges[..|proposal.promptChanges|] == proposal.promptChanges;
      ok := !failed;
    }
  }

  // ----- Which agents a proposal names.

  const SUB_AGENTS := "subAgents"

  /** The names one config change contributes, lines 285 to 294, without the empty name. */
  function ChangeNames(change: Change): set<string> {
    var p := PathSegments(change.path);
    (if p == [] || p[0] != SUB_AGENTS then {}
     else if |p| > 1 then {p[1]}
     else if change.value.Rec? then change.value.fields.Keys else {}) - {""}
  }

  /** `proposalAgentNames`, lines 284 to 296. */
  function ProposalAgentNames(proposal: Proposal): set<string> {
    (set i, n | 0 <= i < |proposal.configChanges| && n in ChangeNames(proposal.configChanges[i]) :: n)
    + (set i | 0 <= i < |proposal.promptChanges| :: proposal.promptChanges[i].agentName) - {""}
  }

  /** A proposal names an agent exactly if a prompt change does, a config change's path leads into it, or one to the whole map
      is a record that holds it. */
  lemma NamedIff(proposal: Proposal, name: string)
    ensures name in ProposalAgentNames(proposal) <==>
      && name != ""
      && ((exists i | 0 <= i < |proposal.promptChanges| :: proposal.promptChanges[i].agentName == name)
          || exists i | 0 <= i < |proposal.configChanges| :: LeadsTo(proposal.configChanges[i], name))
  {
    assert forall i | 0 <= i < |proposal.configChanges| ::
      name != "" ==> (name in ChangeNames(proposal.configChanges[i]) <==> LeadsTo(proposal.configChanges[i], name));
  }

  ghost predicate LeadsTo(change: Change, name: string) {
    var p := PathSegments(change.path);
    || ([SUB_AGENTS, name] <= p)
    || (p == [SUB_AGENTS] && change.value.Rec? && name in change.value.fields)
  }

  function Agent(root: Fields, name: string): Option<Json> {
    var agents := Inner(root, SUB_AGENTS);
    if name in agents then Some(agents[name]) else None
  }

  /** The whole map, changed to something that is no record. */
  predicate ReplacesMap(change: Change) {
    PathSegments(change.path) == [SUB_AGENTS] && !change.value.Rec?
  }

  lemma ChangedAgentIsNamed(root: Fields, change: Change, name: string)
    requires name != "" && !ReplacesMap(change)
    requires Agent(Applied(root, change.path, change.value), name) != Agent(root, name)
    ensures name in ChangeNames(change)
  {
    var p := PathSegments(change.path);
    assert p != [];
    if p[0] != SUB_AGENTS {
      OnlyFirstKeyChanges(root, p, change.value, SUB_AGENTS);
    } else if |p| > 1 {
      if name != p[1] {
        OnlyFirstKeyChanges(Inner(root, SUB_AGENTS), p[1..], change.value, name);
      }
    } else {
      assert p == [SUB_AGENTS];
    }
  }

  /** A config change is named in full exactly unless it replaces a map that still holds an agent. */
  lemma ChangeIsNamedIff(root: Fields, change: Change)
    ensures (forall name | name != "" && Agent(Applied(root, change.path, change.value), name) != Agent(root, name) :: name in ChangeNames(change))
       <==> !(ReplacesMap(change) && exists name :: name != "" && Agent(root, name).Some?)
  {
    if ReplacesMap(change) {
      forall name ensures Agent(Applied(root, change.path, change.value), name) == None {
      }
    } else {
      forall name | name != "" && Agent(Applied(root, change.path, change.value), name) != Agent(root, name) ensures name in ChangeNames(change) {
        ChangedAgentIsNamed(root, change, name);
      }
    }
  }

  lemma PromptedAgentIsNamed(root: Fields, change: PromptChange, name: string)
    requires Prompted(root, change).Some? && Agent(Prompted(root, change).value, name) != Agent(root, name)
    ensures name == change.agentName
  {
  }

  lemma {:induction false} ChangedByConfig(root: Fields, changes: seq<Change>, name: string) returns (i: nat)
    requires name != "" && forall k | 0 <= k < |changes| :: !ReplacesMap(changes[k])
    requires Agent(AllApplied(root, changes), name) != Agent(root, name)
    ensures i < |changes| && name in ChangeNames(changes[i])
  {
    var before := AllApplied(root, Init(changes));
    if Agent(before, name) != Agent(root, name) {
      i := ChangedByConfig(root, Init(changes), name);
    } else {
      i := |changes| - 1;
      ChangedAgentIsNamed(before, Last(changes), name);
    }
  }

  lemma {:induction false} ChangedByPrompt(root: Fields, changes: seq<PromptChange>, name: string) returns (i: nat)
    requires AllPrompted(root, changes).Some? && Agent(AllPrompted(root, changes).value, name) != Agent(root, name)
    ensures i < |changes| && name == changes[i].agentName
  {
    var before := AllPrompted(root, Init(changes)).value;
    if Agent(before, name) != Agent(root, name) {
      i := ChangedByPrompt(root, Init(changes), name);
    } else {
      i := |changes| - 1;
      PromptedAgentIsNamed(before, Last(changes), name);
    }
  }

  /** Every agent a proposal leaves different is one it names, as long as whole-map changes are records. */
  lemma EveryChangedAgentIsNamed(root: Fields, proposal: Proposal, name: string)
    requires name != "" && forall k | 0 <= k < |proposal.configChanges| :: !ReplacesMap(proposal.configChanges[k])
    requires ProposalApplied(root, proposal).Some? && Agent(ProposalApplied(root, proposal).value, name) != Agent(root, name)
    ensures name in ProposalAgentNames(proposal)
  {
    var middle := AllApplied(root, proposal.configChanges);
    if Agent(middle, name) != Agent(root, name) {
      var i := ChangedByConfig(root, proposal.configChanges, name);
    } else {
      var i := ChangedByPrompt(middle, proposal.promptChanges, name);
    }
  }

  // ----- What a change may not touch.

  const CREDENTIAL_WORDS := {"secret", "password", "token", "apikey", "api_key", "privatekey", "private_key",
    "accesskey", "access_key", "credential", "credentials"}

  const MUTABLE_TOP_LEVEL_KEYS := {"agents", "subagents", "scenes", "enforcementhooks"}

  /** `isCredentialFieldName`, lines 329 to 334. */
  predicate IsCredentialName(name: string) {
    exists word | word in CREDENTIAL_WORDS :: EndsWith(Lower(name), word)
  }

  /** `isProtectedConfigPath`, lines 336 to 360. */
  predicate IsProtectedPath(path: string) {
    var p := PathSegments(Lower(path));
    || p == []
    || (exists i | 0 <= i < |p| :: IsCredentialName(p[i]))
    || (|p| > 1 && p[0] == "agents" && p[1] == "subagents")
    || p[0] !in MUTABLE_TOP_LEVEL_KEYS
  }

  /** `carriesCredentialField`, lines 375 to 379. */
  predicate CarriesCredential(value: Json) {
    match value
    case Arr(items) => exists i | 0 <= i < |items| :: CarriesCredential(items[i])
    case Rec(fields) => exists k | k in fields :: IsCredentialName(k) || CarriesCredential(fields[k])
    case _ => false
  }

  /** One step into a value: to a key of a record or an element of a list. */
  datatype Step = ToKey(key: string) | ToElement(index: nat)

  /** What the steps lead to. */
  function At(value: Json, steps: seq<Step>): Option<Json>
    decreases |steps|
  {
    if steps == [] then Some(value)
    else
      match steps[0]
      case ToKey(key) => if value.Rec? && key in value.fields then At(value.fields[key], steps[1..]) else None
      case ToElement(i) => if value.Arr? && i < |value.items| then At(value.items[i], steps[1..]) else None
  }

  /** The steps lead to a record with a key that names a credential. */
  ghost predicate LeadToCredential(value: Json, steps: seq<Step>) {
    var there := At(value, steps);
    there.Some? && there.value.Rec? && exists key | key in there.value.fields :: IsCredentialName(key)
  }

  /** A value carries a credential exactly if some steps, through lists too, lead to a record with a key that names one. */
  lemma CarriesIff(value: Json)
    ensures CarriesCredential(value) <==> exists steps :: LeadToCredential(value, steps)
  {
    if CarriesCredential(value) {
      var there := StepsToIt(value);
    }
    if steps :| LeadToCredential(value, steps) {
      FoundIsCarried(value, steps);
    }
  }

  lemma {:induction false} StepsToIt(value: Json) returns (steps: seq<Step>)
    requires CarriesCredential(value)
    ensures LeadToCredential(value, steps)
    decreases value
  {
    match value
    case Arr(items) =>
      var i :| 0 <= i < |items| && CarriesCredential(items[i]);
      var rest := StepsToIt(items[i]);
      steps := [ToElement(i)] + rest;
      assert steps[1..] == rest;
      assert At(value, steps) == At(items[i], rest);
    case Rec(fields) =>
      var key :| key in fields && (IsCredentialName(key) || CarriesCredential(fields[key]));
      if IsCredentialName(key) {
        steps := [];
      } else {
        var rest := StepsToIt(fields[key]);
        steps := [ToKey(key)] + rest;
        assert steps[1..] == rest;
        assert At(value, steps) == At(fields[key], rest);
      }
  }

  lemma {:induction false} FoundIsCarried(value: Json, steps: seq<Step>)
    requires LeadToCredential(value, steps)
    ensures CarriesCredential(value)
    decreases |steps|
  {
    if steps == [] {
      var key :| key in value.fields && IsCredentialName(key);
    } else {
      match steps[0]
      case ToKey(key) => FoundIsCarried(value.fields[key], steps[1..]);
      case ToElement(i) => FoundIsCarried(value.items[i], steps[1..]);
    }
  }

  /** `isProtectedConfigChange`, lines 387 to 389. */
  predicate IsProtectedChange(change: Change) {
    IsProtectedPath(change.path) || CarriesCredential(change.value)
  }

  ghost predicate NamesCredential(q: seq<string>) {
    exists i | 0 <= i < |q| :: IsCredentialName(q[i])
  }

  lemma CredentialInTail(q: seq<string>)
    requires NamesCredential(q) && !IsCredentialName(q[0])
    ensures |q| > 1 && NamesCredential(q[1..])
  {
    var i :| 0 <= i < |q| && IsCredentialName(q[i]);
    assert q[1..][i - 1] == q[i];
  }

  lemma {:induction false} NothingCarried(value: Json, q: seq<string>)
    requires value.Rec? && !CarriesCredential(value) && NamesCredential(q)
    ensures Lookup(value.fields, q) == None
    decreases |q|
  {
    if q[0] in value.fields {
      CredentialInTail(q);
      if value.fields[q[0]].Rec? {
        NothingCarried(value.fields[q[0]], q[1..]);
      }
    }
  }

  lemma {:induction false} MergeWritesNoCredential(existing: Fields, value: Json, q: seq<string>)
    requires value.Rec? && !CarriesCredential(value) && NamesCredential(q)
    ensures Lookup(Merge(existing, value), q) in {Lookup(existing, q), None}
    decreases |q|
  {
    if q[0] in value.fields {
      CredentialInTail(q);
      if value.fields[q[0]].Rec? {
        if q[0] in existing && existing[q[0]].Rec? {
          MergeWritesNoCredential(existing[q[0]].fields, value.fields[q[0]], q[1..]);
        } else {
          NothingCarried(value.fields[q[0]], q[1..]);
        }
      }
    }
  }

  lemma {:induction false} PathWritesNoCredential(root: Fields, p: seq<string>, value: Json, q: seq<string>)
    requires p != [] && !NamesCredential(p) && !CarriesCredential(value) && NamesCredential(q)
    ensures Lookup(WithPath(root, p, value), q) in {Lookup(root, q), None}
    decreases |p|
  {
    if q[0] == p[0] {
      CredentialInTail(q);
      if |p| > 1 {
        forall i | 0 <= i < |p[1..]| ensures !IsCredentialName(p[1..][i]) {
          assert p[1..][i] == p[i + 1];
        }
        PathWritesNoCredential(Inner(root, p[0]), p[1..], value, q[1..]);
        LookupInner(root, q);
        LookupInner(WithPath(root, p, value), q);
      } else if value.Rec? {
        if p[0] in root && root[p[0]].Rec? {
          MergeWritesNoCredential(root[p[0]].fields, value, q[1..]);
        } else {
          NothingCarried(value, q[1..]);
        }
      }
    }
  }

  // ----- The key through which every object reaches the one it inherits from.

  /** Of the names every object inherits this one alone holds an object; the others hold functions, which the walk
      replaces by records of its own as it does any other value. */
  const INHERITED := "__proto__"

  predicate NamesInherited(value: Json) {
    match value
    case Arr(items) => exists i | 0 <= i < |items| :: NamesInherited(items[i])
    case Rec(fields) => exists k | k in fields :: k == INHERITED || NamesInherited(fields[k])
    case _ => false
  }

  /** The change reads and writes own keys only. */
  predicate OwnKeys(change: Change) {
    INHERITED !in PathSegments(change.path) && !NamesInherited(change.value)
  }

  /** What a property holds: an object by its number, or anything that cannot be walked into. */
  datatype Slot = Other | Object(id: nat)

  /** The own properties of every object; object 0 is the one all others inherit from. */
  type Heap = seq<map<string, Slot>>

  const SHARED := 0

  /** `cursor[segment]` */
  function Read(heap: Heap, cursor: nat, segment: string): Slot
    requires cursor < |heap|
  {
    if segment in heap[cursor] then heap[cursor][segment]
    else if cursor == SHARED then Other
    else if segment == INHERITED then Object(SHARED)
    else if segment in heap[SHARED] then heap[SHARED][segment]
    else Other
  }

  datatype Walker = Walker(heap: Heap, cursor: nat)

  predicate Allocated(w: Walker) {
    && w.cursor < |w.heap|
    && forall i, k | 0 <= i < |w.heap| && k in w.heap[i] && w.heap[i][k].Object? :: w.heap[i][k].id < |w.heap|
  }

  /** One segment of the walk of `applyObjectPath`, lines 227 to 233: a new object where there is none. */
  function Onward(w: Walker, segment: string): (r: Walker)
    requires Allocated(w)
    ensures Allocated(r)
  {
    var next := Read(w.heap, w.cursor, segment);
    if next.Object? then Walker(w.heap, next.id)
    else Walker(w.heap[w.cursor := w.heap[w.cursor][segment := Object(|w.heap|)]] + [map[]], |w.heap|)
  }

  /** Somewhere on the way along p the cursor is the shared object. */
  predicate ReachesShared(w: Walker, p: seq<string>)
    requires Allocated(w)
    decreases |p|
  {
    w.cursor == SHARED || (p != [] && ReachesShared(Onward(w, p[0]), p[1..]))
  }

  /** In a loaded config no property leads to the shared object, whose own hold functions, and none bears its name;
      the walk stands on an object of the config. */
  predicate OfConfig(w: Walker) {
    && Allocated(w) && w.cursor != SHARED
    && (forall i, k | 0 <= i < |w.heap| && k in w.heap[i] && w.heap[i][k].Object? :: w.heap[i][k].id != SHARED)
    && (forall k | k in w.heap[SHARED] :: w.heap[SHARED][k].Other?)
    && (forall i | 0 <= i < |w.heap| :: INHERITED !in w.heap[i])
  }

  lemma OnwardStays(w: Walker, segment: string)
    requires OfConfig(w) && segment != INHERITED
    ensures OfConfig(Onward(w, segment))
  {
  }

  /** The walk leaves the config for the shared object exactly if one of its segments is the inherited key. */
  lemma {:induction false} LeavesConfigIff(w: Walker, p: seq<string>)
    requires OfConfig(w)
    ensures ReachesShared(w, p) <==> INHERITED in p
    decreases |p|
  {
    if p != [] {
      assert p == [p[0]] + p[1..];
      if p[0] == INHERITED {
        assert Onward(w, p[0]).cursor == SHARED;
      } else {
        OnwardStays(w, p[0]);
        LeavesConfigIff(Onward(w, p[0]), p[1..]);
      }
    }
  }

  lemma PathOfTwo(first: string, rest: string)
    requires '.' !in first && Trim(first) == first != ""
    ensures PathSegments(first + "." + rest) == [first] + PathSegments(rest)
  {
    var path := first + "." + rest;
    DotAt(first, rest);
    assert path[..|first|] == first && path[|first| + 1..] == rest;
  }

  lemma {:induction false} DotAt(first: string, rest: string)
    requires '.' !in first
    ensures FirstIndex(first + "." + rest, '.') == |first|
  {
    if first != "" {
      assert (first + "." + rest)[1..] == first[1..] + "." + rest;
      DotAt(first[1..], rest);
    }
  }

  lemma PathOfOne(last: string)
    requires '.' !in last && Trim(last) == last != ""
    ensures PathSegments(last) == [last]
  {
    NoDot(last);
  }

  const AGENTS := "agents"

  lemma AgentsIsPlain()
    ensures '.' !in AGENTS && Trim(AGENTS) == AGENTS != "" && Lower(AGENTS) == AGENTS
  {
    assert !IsSpace(AGENTS[0]) && !IsSpace(Last(AGENTS));
  }

  lemma InheritedIsPlain()
    ensures '.' !in INHERITED && Trim(INHERITED) == INHERITED != "" && Lower(INHERITED) == INHERITED
  {
    assert !IsSpace(INHERITED[0]) && !IsSpace(Last(INHERITED));
  }

  lemma EndsAlike(s: string, suffix: string)
    ensures EndsWith(s, suffix) && suffix != "" ==> s != "" && Last(s) == Last(suffix)
  {
  }

  lemma NotCredential(name: string)
    requires name != "" && (Last(Lower(name)) == '_' || (|name| <= 10 && Last(Lower(name)) == 's'))
    ensures !IsCredentialName(name)
  {
    forall word | word in CREDENTIAL_WORDS ensures !EndsWith(Lower(name), word) {
      LastOfWord(word);
      EndsAlike(Lower(name), word);
    }
  }

  lemma LastOfWord(word: string)
    requires word in CREDENTIAL_WORDS
    ensures word != "" && Last(word) != '_' && (Last(word) == 's' ==> |word| > 10)
  {
  }

  /** A name that ends in one of the words, in any case, names a credential, whatever stands in front. */
  lemma EndsInCredential(front: string, word: string)
    requires Lower(word) in {"secret", "password", "token", "apikey", "api_key", "privatekey", "private_key", "accesskey",
                             "access_key", "credential", "credentials"}
    ensures IsCredentialName(front + word)
  {
    var name := Lower(front + word);
    assert name == Lower(front) + Lower(word);
    assert EndsWith(name, Lower(word)) by { assert name[|front|..] == Lower(word); }
  }

  /** A limit in tokens names none. */
  lemma MaxTokensIsNone()
    ensures !IsCredentialName("maxTokens")
  {
    assert |"maxTokens"| == 9 && "maxTokens"[8] == 's';
    assert Last(Lower("maxTokens")) == 's';
    NotCredential("maxTokens");
  }

  predicate IsOpenKey(key: string) {
    key == "agents" || key == "subagents" || key == "scenes" || key == "enforcementhooks"
  }

  lemma OpenKeysAre(key: string)
    ensures key in MUTABLE_TOP_LEVEL_KEYS <==> IsOpenKey(key)
  {
  }

  /** A path is open exactly below the four open keys, in any case, without a credential's name on the way, and not at the
      place where sub-agents are not. */
  lemma OpenPathIff(path: string)
    ensures var p := PathSegments(path);
      !IsProtectedPath(path) <==>
        && p != [] && IsOpenKey(Lower(p[0]))
        && (forall i | 0 <= i < |p| :: !IsCredentialName(p[i]))
        && !(|p| > 1 && Lower(p[0]) == "agents" && Lower(p[1]) == "subagents")
  {
    SegmentsOfLower(path);
    OpenLowerIff(path, PathSegments(path));
  }

  lemma OpenLowerIff(path: string, p: seq<string>)
    requires PathSegments(Lower(path)) == LowerAll(p)
    ensures !IsProtectedPath(path) <==>
      && p != [] && IsOpenKey(Lower(p[0]))
      && (forall i | 0 <= i < |p| :: !IsCredentialName(p[i]))
      && !(|p| > 1 && Lower(p[0]) == "agents" && Lower(p[1]) == "subagents")
  {
    CredentialsAlike(p);
    if p != [] { OpenKeysAre(Lower(p[0])); }
  }

  lemma CredentialsAlike(p: seq<string>)
    ensures (exists i | 0 <= i < |p| :: IsCredentialName(LowerAll(p)[i])) <==> (exists i | 0 <= i < |p| :: IsCredentialName(p[i]))
  {
    forall i | 0 <= i < |p| ensures IsCredentialName(LowerAll(p)[i]) <==> IsCredentialName(p[i]) {
      LowerIsStable(p[i]);
    }
  }

  lemma ThreeSegments(path: string, leaf: string)
    requires '.' !in leaf && Trim(leaf) == leaf != "" && path == AGENTS + "." + (INHERITED + "." + leaf)
    ensures PathSegments(path) == [AGENTS, INHERITED, leaf]
  {
    AgentsIsPlain();
    InheritedIsPlain();
    PathOfOne(leaf);
    PathOfTwo(INHERITED, leaf);
    PathOfTwo(AGENTS, INHERITED + "." + leaf);
  }

  lemma AgentsIsOpen()
    ensures AGENTS in MUTABLE_TOP_LEVEL_KEYS && INHERITED != "subagents"
    ensures !IsCredentialName(AGENTS) && !IsCredentialName(INHERITED)
  {
    AgentsIsPlain();
    InheritedIsPlain();
    NotCredential(AGENTS);
    NotCredential(INHERITED);
    assert INHERITED[0] != "subagents"[0];
  }

  lemma NoneOfThree(p: seq<string>)
    requires |p| == 3 && !IsCredentialName(p[0]) && !IsCredentialName(p[1]) && !IsCredentialName(p[2])
    ensures !exists i :: 0 <= i < |p| && IsCredentialName(p[i])
  {
    forall i | 0 <= i < |p| ensures !IsCredentialName(p[i]) {
      assert i == 0 || i == 1 || i == 2;
    }
  }

  lemma OpenPath(path: string, p: seq<string>)
    requires PathSegments(Lower(path)) == p && |p| == 3
    requires p[0] in MUTABLE_TOP_LEVEL_KEYS && p[1] != "subagents"
    requires !exists i :: 0 <= i < |p| && IsCredentialName(p[i])
    ensures !IsProtectedPath(path)
  {
  }

  lemma LowerOfThree(a: string, b: string, c: string)
    requires Lower(a) == a && Lower(b) == b && Lower(c) == c
    ensures LowerAll([a, b, c]) == [a, b, c]
  {
  }

  /** The guard lets the inherited key through: below "agents", with any last segment that it allows elsewhere. */
  lemma InheritedIsLetThrough(path: string, leaf: string)
    requires '.' !in leaf && Trim(leaf) == leaf != "" && Lower(leaf) == leaf && !IsCredentialName(leaf)
    requires path == AGENTS + "." + (INHERITED + "." + leaf)
    ensures PathSegments(path) == [AGENTS, INHERITED, leaf] && !IsProtectedPath(path)
  {
    ThreeSegments(path, leaf);
    SegmentsOfLower(path);
    AgentsIsPlain();
    InheritedIsPlain();
    LowerOfThree(AGENTS, INHERITED, leaf);
    AgentsIsOpen();
    NoneOfThree([AGENTS, INHERITED, leaf]);
    OpenPath(path, [AGENTS, INHERITED, leaf]);
  }

  lemma LowerIsStable(s: string)
    ensures Lower(Lower(s)) == Lower(s)
  {
  }

  /** A change over own keys that is let through writes below one of the four open keys, and whatever place has a credential's
      name on the way to it keeps its value or goes: none is set. */
  lemma OpenChangeWritesNoCredential(root: Fields, change: Change, q: seq<string>)
    requires !IsProtectedChange(change) && OwnKeys(change)
    ensures NamesCredential(q) ==> Lookup(Applied(root, change.path, change.value), q) in {Lookup(root, q), None}
    ensures forall key | Lower(key) !in MUTABLE_TOP_LEVEL_KEYS :: SameAt(Applied(root, change.path, change.value), root, key)
  {
    var p := PathSegments(change.path);
    SegmentsOfLower(change.path);
    forall i | 0 <= i < |p| ensures !IsCredentialName(p[i]) {
      assert PathSegments(Lower(change.path))[i] == Lower(p[i]);
      LowerIsStable(p[i]);
    }
    if NamesCredential(q) {
      PathWritesNoCredential(root, p, change.value, q);
    }
    forall key | Lower(key) !in MUTABLE_TOP_LEVEL_KEYS ensures SameAt(Applied(root, change.path, change.value), root, key) {
      OnlyFirstKeyChanges(root, p, change.value, key);
    }
  }
}
