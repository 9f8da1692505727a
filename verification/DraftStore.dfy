/** The draft and category store of the mail service (packages/mail-service/src/draft-store.ts).

    Mutations run one after another through a promise chain; reads, loads and every step of a persist
    are separate turns, and any of the file operations may fail. State objects are told apart by
    identity, since a second load makes a second object. */
module DraftStore {
  import opened Common

  datatype Status = Draft | Sent

  /** A draft: the fields an update may set, and those it may not. */
  datatype DraftRecord = DraftRecord(accountId: string, fields: map<string, string>, status: Status,
                                     createdAt: string, updatedAt: string, sentAt: Option<string>)

  datatype MessageRef = MessageRef(accountId: string, mailbox: string, uid: nat)
  datatype CategoryRecord = CategoryRecord(message: MessageRef, category: string, updatedAt: string)

  datatype Memory = Memory(drafts: map<string, DraftRecord>, categories: map<string, CategoryRecord>)

  /** `messageKey`, line 11 */
  function MessageKey(m: MessageRef): string {
    m.accountId + "::" + m.mailbox + "::" + Decimal(m.uid)
  }

  const EMPTY := Memory(map[], map[])

  datatype Op =
    | Create(id: string, accountId: string, fields: map<string, string>, now: string)
    | Update(id: string, patch: map<string, string>, now: string)
    | MarkSent(id: string, now: string)
    | Categorize(items: seq<CategoryRecord>)

  function Filed(categories: map<string, CategoryRecord>, items: seq<CategoryRecord>): map<string, CategoryRecord> {
    if items == [] then categories else Filed(categories, Init(items))[MessageKey(Last(items).message) := Last(items)]
  }

  /** What the function of a mutation does to the state: lines 52 to 92. */
  function Effect(op: Op, m: Memory): Memory {
    match op
    case Create(id, accountId, fields, now) =>
      m.(drafts := m.drafts[id := DraftRecord(accountId, fields, Draft, now, now, None)])
    case Update(id, patch, now) =>
      if id !in m.drafts then m
      else m.(drafts := m.drafts[id := m.drafts[id].(fields := m.drafts[id].fields + patch, updatedAt := now)])
    case MarkSent(id, now) =>
      if id !in m.drafts then m
      else m.(drafts := m.drafts[id := m.drafts[id].(status := Sent, updatedAt := now, sentAt := Some(now))])
    case Categorize(items) =>
      m.(categories := Filed(m.categories, items))
  }

  /** The state after a list of mutations, first to last. */
  function Fold(base: Memory, ops: seq<Op>): Memory {
    if ops == [] then base else Effect(Last(ops), Fold(base, Init(ops)))
  }

  // ---- What the mutations mean ----

  /** All drafts but one, and nothing of that one's but what is said elsewhere. */
  ghost predicate OthersStand(m: Memory, t: Memory, id: string) {
    t.drafts.Keys == m.drafts.Keys + {id} && forall other | other in m.drafts && other != id :: t.drafts[other] == m.drafts[other]
  }

  /** An update sets every field of the patch to the patch's value and keeps every other; of the rest it changes the time
      of the update only. An unknown id changes nothing. */
  lemma UpdateSetsThePatch(m: Memory, id: string, patch: map<string, string>, now: string)
    ensures id !in m.drafts ==> Effect(Update(id, patch, now), m) == m
    ensures id in m.drafts ==>
      var t := Effect(Update(id, patch, now), m);
      && OthersStand(m, t, id) && t.categories == m.categories
      && var before, after := m.drafts[id], t.drafts[id];
        && (forall key | key in patch :: key in after.fields && after.fields[key] == patch[key])
        && (forall key | key !in patch :: (key in after.fields <==> key in before.fields)
              && (key in before.fields ==> after.fields[key] == before.fields[key]))
        && after.accountId == before.accountId && after.createdAt == before.createdAt && after.updatedAt == now
        && after.status == before.status && after.sentAt == before.sentAt
  {
  }

  /** A new draft has the account and the fields given, unsent, and its times are the present. */
  lemma CreateGivesTheFields(m: Memory, id: string, accountId: string, fields: map<string, string>, now: string)
    ensures var t := Effect(Create(id, accountId, fields, now), m);
      && OthersStand(m, t, id) && t.categories == m.categories
      && var draft := t.drafts[id];
        && draft.accountId == accountId && draft.fields == fields && draft.createdAt == draft.updatedAt == now
        && draft.status == Draft && draft.sentAt == None
  {
  }

  /** Marking a draft sent changes its status and the times of the update and the sending only. */
  lemma MarkSetsStatusAndTimes(m: Memory, id: string, now: string)
    ensures id !in m.drafts ==> Effect(MarkSent(id, now), m) == m
    ensures id in m.drafts ==>
      var t := Effect(MarkSent(id, now), m);
      && OthersStand(m, t, id) && t.categories == m.categories
      && var before, after := m.drafts[id], t.drafts[id];
        && after.status == Sent && after.sentAt == Some(now) && after.updatedAt == now
        && after.accountId == before.accountId && after.fields == before.fields && after.createdAt == before.createdAt
  {
  }

  /** The place of the last item filed under a key, if there is one. */
  ghost predicate LastUnder(items: seq<CategoryRecord>, key: string, i: nat) {
    i < |items| && MessageKey(items[i].message) == key && forall j | i < j < |items| :: MessageKey(items[j].message) != key
  }

  ghost predicate NoneUnder(items: seq<CategoryRecord>, key: string) {
    forall i | 0 <= i < |items| :: MessageKey(items[i].message) != key
  }

  /** Where the last of more items is not filed under the key, the places are those among the items before it. */
  lemma BeforeLast(items: seq<CategoryRecord>, key: string)
    requires items != [] && MessageKey(Last(items).message) != key
    ensures forall i: nat :: LastUnder(items, key, i) <==> LastUnder(Init(items), key, i)
    ensures NoneUnder(items, key) <==> NoneUnder(Init(items), key)
  {
    assert forall i | 0 <= i < |Init(items)| :: Init(items)[i] == items[i];
  }

  lemma {:induction false} FiledIsLast(categories: map<string, CategoryRecord>, items: seq<CategoryRecord>, key: string, i: nat)
    requires LastUnder(items, key, i)
    ensures key in Filed(categories, items) && Filed(categories, items)[key] == items[i]
  {
    if i < |items| - 1 {
      BeforeLast(items, key);
      FiledIsLast(categories, Init(items), key, i);
    }
  }

  lemma {:induction false} FiledKeeps(categories: map<string, CategoryRecord>, items: seq<CategoryRecord>, key: string)
    requires NoneUnder(items, key)
    ensures key in Filed(categories, items) <==> key in categories
    ensures key in categories ==> Filed(categories, items)[key] == categories[key]
  {
    if items != [] {
      BeforeLast(items, key);
      FiledKeeps(categories, Init(items), key);
    }
  }

  /** Filing leaves under every message's key the last item filed for it, all other keys as they were, and the drafts. */
  lemma CategorizeFilesTheLast(m: Memory, items: seq<CategoryRecord>, key: string)
    ensures var t := Effect(Categorize(items), m);
      && t.drafts == m.drafts
      && (forall i: nat | LastUnder(items, key, i) :: key in t.categories && t.categories[key] == items[i])
      && (NoneUnder(items, key) ==>
            (key in t.categories <==> key in m.categories) && (key in m.categories ==> t.categories[key] == m.categories[key]))
  {
    forall i: nat | LastUnder(items, key, i) ensures key in Filed(m.categories, items) && Filed(m.categories, items)[key] == items[i] {
      FiledIsLast(m.categories, items, key, i);
    }
    if NoneUnder(items, key) { FiledKeeps(m.categories, items, key); }
  }

  /** Two messages share a key exactly if they have one uid and read alike up to it. */
  lemma MessageKeysMeetIff(a: MessageRef, b: MessageRef)
    ensures MessageKey(a) == MessageKey(b) <==> a.uid == b.uid && a.accountId + "::" + a.mailbox == b.accountId + "::" + b.mailbox
  {
    if MessageKey(a) == MessageKey(b) {
      DecimalReadsBack(a.uid);
      DecimalReadsBack(b.uid);
      SameNumberBehindColon(a.accountId + "::" + a.mailbox, Decimal(a.uid), b.accountId + "::" + b.mailbox, Decimal(b.uid));
    }
  }

  lemma SameNumberBehindColon(p: string, x: string, q: string, y: string)
    requires AllDigits(x) && AllDigits(y) && p + "::" + x == q + "::" + y
    ensures p == q && x == y
  {
    var s := p + "::" + x;
    assert s[|p| + 1] == ':' && s[|q| + 1] == ':';
    assert forall i | |p| + 2 <= i < |s| :: s[i] == x[i - |p| - 2];
    assert forall i | |q| + 2 <= i < |s| :: s[i] == y[i - |q| - 2];
    assert |p| == |q|;
    assert p == s[..|p|] && x == s[|p| + 2..];
  }

  /** When no account id has a colon, no two messages share a key. */
  lemma MessageKeysTellApart(a: MessageRef, b: MessageRef)
    requires ':' !in a.accountId && ':' !in b.accountId
    ensures MessageKey(a) == MessageKey(b) <==> a == b
  {
    MessageKeysMeetIff(a, b);
    if MessageKey(a) == MessageKey(b) {
      var p, q := a.accountId + "::" + a.mailbox, b.accountId + "::" + b.mailbox;
      assert p[|a.accountId|] == ':' && q[|b.accountId|] == ':';
      assert forall i | 0 <= i < |a.accountId| :: p[i] == a.accountId[i];
      assert forall i | 0 <= i < |b.accountId| :: q[i] == b.accountId[i];
      assert |a.accountId| == |b.accountId|;
      assert a.accountId == p[..|a.accountId|] && a.mailbox == p[|a.accountId| + 2..];
      assert b.accountId == q[..|b.accountId|] && b.mailbox == q[|b.accountId| + 2..];
    }
  }

  /** What a mutation makes of one field of one draft: its value, None for none; nothing when it leaves it alone. */
  function Writes(op: Op, id: string, key: string): Option<Option<string>> {
    match op
    case Create(i, _, fields, _) => if i == id then Some(if key in fields then Some(fields[key]) else None) else None
    case Update(i, patch, _) => if i == id && key in patch then Some(Some(patch[key])) else None
    case _ => None
  }

  function FieldOf(draft: DraftRecord, key: string): Option<string> {
    if key in draft.fields then Some(draft.fields[key]) else None
  }

  ghost predicate LastWriter(ops: seq<Op>, id: string, key: string, i: nat) {
    i < |ops| && Writes(ops[i], id, key).Some? && forall j | i < j < |ops| :: Writes(ops[j], id, key).None?
  }

  ghost predicate NoWriter(ops: seq<Op>, id: string, key: string) {
    forall i | 0 <= i < |ops| :: Writes(ops[i], id, key).None?
  }

  lemma EffectWrites(m: Memory, op: Op, id: string, key: string)
    requires id in Effect(op, m).drafts
    ensures Writes(op, id, key).Some? ==> Some(FieldOf(Effect(op, m).drafts[id], key)) == Writes(op, id, key)
    ensures Writes(op, id, key).None? ==> id in m.drafts && FieldOf(Effect(op, m).drafts[id], key) == FieldOf(m.drafts[id], key)
  {
  }

  /** After any list of mutations each field of a draft is what the last mutation that writes it says. */
  lemma {:induction false} FieldIsLastWritten(base: Memory, ops: seq<Op>, id: string, key: string, i: nat)
    requires id in Fold(base, ops).drafts && LastWriter(ops, id, key, i)
    ensures Some(FieldOf(Fold(base, ops).drafts[id], key)) == Writes(ops[i], id, key)
  {
    EffectWrites(Fold(base, Init(ops)), Last(ops), id, key);
    if i < |ops| - 1 {
      assert forall j | 0 <= j < |Init(ops)| :: Init(ops)[j] == ops[j];
      FieldIsLastWritten(base, Init(ops), id, key, i);
    }
  }

  /** And what it was at first when none writes it. */
  lemma {:induction false} FieldIsKept(base: Memory, ops: seq<Op>, id: string, key: string)
    requires id in Fold(base, ops).drafts && NoWriter(ops, id, key)
    ensures id in base.drafts && FieldOf(Fold(base, ops).drafts[id], key) == FieldOf(base.drafts[id], key)
  {
    if ops != [] {
      assert forall j | 0 <= j < |Init(ops)| :: Init(ops)[j] == ops[j];
      EffectWrites(Fold(base, Init(ops)), Last(ops), id, key);
      FieldIsKept(base, Init(ops), id, key);
    }
  }

  // ---- The store as a state machine ----

  /** The mutation at the head of the queue; `target` is the state object it works on. */
  datatype Phase = Waiting | Loading | Ready(target: nat) | Changed(target: nat) | DirMade(target: nat) | Written(target: nat)

  datatype Read = ReadLoading | ReadReady(target: nat)

  datatype TempFile = Absent | Partial | Complete(contents: Memory)

  datatype State = State(
    // what a load reads: the parsed file, or the empty state when there is none
    file: Memory,
    temp: TempFile,
    objects: seq<Memory>,
    // this.state
    current: Option<nat>,
    // every mutation ever enqueued, the first `head` of them settled
    queue: seq<Op>,
    head: nat,
    phase: Phase,
    readers: seq<Read>,
    // history: the file before the first event, the loads begun, what the first load gave,
    // how many mutations have been applied, and how many the file holds
    original: Memory,
    loads: nat,
    base: Memory,
    applied: nat,
    saved: nat)

  datatype Event =
    | Enqueue(op: Op)
    | Begin
    | HeadLoads(readable: bool)
    | ChangeState
    | MakeDir(ok: bool)
    | WriteTemp(ok: bool)
    | Rename(ok: bool)
    | ReadBegins
    | ReadLoads(read: nat, readable: bool)
    | ReadReturns(read: nat)

  function Fresh(file: Memory): State {
    State(file, Absent, [], None, [], 0, Waiting, [], file, 0, file, 0, 0)
  }

  /** A draft id is random, so it is new. */
  predicate NewId(s: State, op: Op) {
    op.Create? ==>
      && op.id !in s.original.drafts
      && (forall o | o in s.queue && o.Create? :: o.id != op.id)
  }

  predicate Enabled(s: State, e: Event) {
    match e
    case Enqueue(op) => NewId(s, op)
    case Begin => s.head < |s.queue| && s.phase.Waiting? && (s.current.Some? ==> s.current.value < |s.objects|)
    case HeadLoads(_) => s.phase.Loading?
    case ChangeState => s.phase.Ready? && s.phase.target < |s.objects| && s.head < |s.queue|
    case MakeDir(_) => s.phase.Changed?
    case WriteTemp(_) => s.phase.DirMade? && s.phase.target < |s.objects|
    case Rename(_) => s.phase.Written? && s.temp.Complete?
    case ReadBegins => true
    case ReadLoads(r, _) => r < |s.readers| && s.readers[r].ReadLoading?
    case ReadReturns(r) => r < |s.readers| && s.readers[r].ReadReady? && s.readers[r].target < |s.objects|
  }

  /** `this.state = await this.loadState()`: a file that cannot be read counts as empty. */
  function Loaded(s: State, readable: bool): State {
    var contents := if readable then s.file else EMPTY;
    s.(objects := s.objects + [contents], current := Some(|s.objects|), base := if s.objects == [] then contents else s.base)
  }

  function Settled(s: State): State {
    s.(head := s.head + 1, phase := Waiting)
  }

  function Apply(s: State, e: Event): State
    requires Enabled(s, e)
  {
    match e
    case Enqueue(op) => s.(queue := s.queue + [op])
    case Begin => if s.current.Some? then s.(phase := Ready(s.current.value)) else s.(phase := Loading, loads := s.loads + 1)
    case HeadLoads(readable) => Loaded(s, readable).(phase := Ready(|s.objects|))
    case ChangeState =>
      s.(objects := s.objects[s.phase.target := Effect(s.queue[s.head], s.objects[s.phase.target])],
         phase := Changed(s.phase.target), applied := s.applied + 1)
    case MakeDir(ok) => if ok then s.(phase := DirMade(s.phase.target)) else Settled(s)
    case WriteTemp(ok) =>
      if ok then s.(phase := Written(s.phase.target), temp := Complete(s.objects[s.phase.target]))
      else Settled(s).(temp := Partial)
    case Rename(ok) =>
      if ok then Settled(s).(file := s.temp.contents, temp := Absent, saved := s.applied) else Settled(s)
    case ReadBegins =>
      if s.current.Some? then s.(readers := s.readers + [ReadReady(s.current.value)])
      else s.(readers := s.readers + [ReadLoading], loads := s.loads + 1)
    case ReadLoads(r, readable) => Loaded(s, readable).(readers := s.readers[r := ReadReady(|s.objects|)])
    case ReadReturns(_) => s
  }

  ghost function Exec(file: Memory, run: seq<Event>): Option<State> {
    if run == [] then Some(Fresh(file))
    else
      match Exec(file, Init(run))
      case None => None
      case Some(s) => if Enabled(s, Last(run)) then Some(Apply(s, Last(run))) else None
  }

  // ---- Linearization, as long as loads do not overlap ----

  /** One state object, the fold of the mutations applied so far; and one complete prefix on disk. */
  ghost predicate Inv(s: State) {
    && s.saved <= s.applied <= |s.queue| && s.head <= |s.queue|
    && s.applied == s.head + (if s.phase.Changed? || s.phase.DirMade? || s.phase.Written? then 1 else 0)
    && (!s.phase.Waiting? ==> s.head < |s.queue|)
    && (s.current.None? ==>
          && s.objects == [] && s.applied == 0 && s.phase in {Waiting, Loading}
          && (forall r | 0 <= r < |s.readers| :: s.readers[r].ReadLoading?)
          && |s.readers| + (if s.phase.Loading? then 1 else 0) == s.loads)
    && (s.current.Some? ==>
          && s.current.value == 0 && |s.objects| == 1 && s.loads == 1
          && s.objects[0] == Fold(s.base, s.queue[..s.applied])
          && !s.phase.Loading? && (s.phase.Waiting? || s.phase.target == 0)
          && (forall r | 0 <= r < |s.readers| :: s.readers[r] == ReadReady(0)))
    && s.file == (if s.saved == 0 then s.original else Fold(s.base, s.queue[..s.saved]))
    && (s.phase.Written? ==> s.temp == Complete(Fold(s.base, s.queue[..s.applied])))
    && (s.base == s.original || s.base == EMPTY)
  }

  lemma FoldNext(base: Memory, ops: seq<Op>, n: nat)
    requires n < |ops|
    ensures Fold(base, ops[..n + 1]) == Effect(ops[n], Fold(base, ops[..n]))
  {
    assert Init(ops[..n + 1]) == ops[..n];
  }

  lemma QueueInv(s: State, op: Op)
    requires Inv(s)
    ensures Inv(s.(queue := s.queue + [op]))
  {
    var t := s.(queue := s.queue + [op]);
    assert t.queue[..s.applied] == s.queue[..s.applied] && t.queue[..s.saved] == s.queue[..s.saved];
  }

  lemma LoadInv(s: State, e: Event)
    requires Inv(s) && Enabled(s, e) && (e.HeadLoads? || e.ReadLoads?) && s.loads <= 1
    ensures Inv(Apply(s, e))
  {
    assert s.queue[..0] == [];
    assert |s.objects + [if e.readable then s.file else EMPTY]| == 1;
  }

  lemma ChangeInv(s: State)
    requires Inv(s) && Enabled(s, ChangeState)
    ensures Inv(Apply(s, ChangeState))
  {
    FoldNext(s.base, s.queue, s.applied);
  }

  lemma PersistInv(s: State, e: Event)
    requires Inv(s) && Enabled(s, e) && (e.MakeDir? || e.WriteTemp? || e.Rename?)
    ensures Inv(Apply(s, e))
  {
  }

  /** Every event keeps the invariant, unless it begins a second load. */
  lemma StepInv(s: State, e: Event)
    requires Inv(s) && Enabled(s, e) && Apply(s, e).loads <= 1
    ensures Inv(Apply(s, e))
  {
    match e
    case Enqueue(op) => QueueInv(s, op);
    case ChangeState => ChangeInv(s);
    case HeadLoads(_) => LoadInv(s, e);
    case ReadLoads(_, _) => LoadInv(s, e);
    case MakeDir(_) => PersistInv(s, e);
    case WriteTemp(_) => PersistInv(s, e);
    case Rename(_) => PersistInv(s, e);
    case _ =>
  }

  lemma {:induction false} LoadsGrow(s: State, e: Event)
    requires Enabled(s, e)
    ensures s.loads <= Apply(s, e).loads
  {
  }

  /** The step of a run on which at most one load has begun. */
  lemma KeepsInv(s: State, e: Event)
    requires Enabled(s, e) && Apply(s, e).loads <= 1
    requires s.loads <= 1 ==> Inv(s)
    ensures Inv(Apply(s, e)) && Apply(s, e).original == s.original
  {
    LoadsGrow(s, e);
    StepInv(s, e);
  }

  /** As long as no load begins while another is in flight, in every run: the memory is the fold of the
      mutations applied so far, in the order they were enqueued; every read that returns sees it;
      the file holds what it held at first, or the fold of a prefix of them. */
  lemma {:induction false} Linearized(file: Memory, run: seq<Event>)
    requires Exec(file, run).Some? && Exec(file, run).value.loads <= 1
    ensures Inv(Exec(file, run).value) && Exec(file, run).value.original == file
  {
    if run != [] {
      var s, e := Exec(file, Init(run)).value, Last(run);
      LoadsGrow(s, e);
      Linearized(file, Init(run));
      KeepsInv(s, e);
    }
  }

  lemma ReadsSeeAPrefix(file: Memory, run: seq<Event>, r: nat)
    requires Exec(file, run).Some? && Exec(file, run).value.loads <= 1
    requires Enabled(Exec(file, run).value, ReadReturns(r))
    ensures var s := Exec(file, run).value;
      s.applied <= |s.queue| && s.objects[s.readers[r].target] == Fold(s.base, s.queue[..s.applied]) && s.head <= s.applied
  {
    Linearized(file, run);
  }

  /** The file is only ever replaced whole: no event but a rename that succeeds changes it, and that one puts a temporary file
      in its place that was written in full. */
  lemma FileOnlyByRename(s: State, e: Event)
    requires Enabled(s, e)
    ensures e != Rename(true) ==> Apply(s, e).file == s.file
    ensures e == Rename(true) ==> s.temp == Complete(Apply(s, e).file)
  {
  }

  /** A step of a persist that fails gives the mutation up, with its effect left in memory, and lets the next one begin. */
  lemma FailedPersistGoesOn(s: State, e: Event)
    requires Enabled(s, e) && e in {MakeDir(false), WriteTemp(false), Rename(false)}
    ensures var t := Apply(s, e);
      t.head == s.head + 1 && t.phase.Waiting? && t.objects == s.objects && t.current == s.current && t.queue == s.queue && t.file == s.file
  {
  }

  /** A load gives a new object with what the file holds, or an empty one when it cannot be read, and makes it the current. */
  lemma LoadGivesTheFile(s: State, e: Event)
    requires Enabled(s, e) && (e.HeadLoads? || e.ReadLoads?)
    ensures var t := Apply(s, e);
      && t.objects == s.objects + [if e.readable then s.file else Memory(map[], map[])] && t.current == Some(|s.objects|)
      && t.queue == s.queue && t.head == s.head && t.applied == s.applied && t.file == s.file
  {
  }

  /** A successful persist leaves the file equal to the memory, with every mutation up to its own. */
  lemma PersistSavesMemory(file: Memory, run: seq<Event>)
    requires run != [] && Last(run) == Rename(true)
    requires Exec(file, run).Some? && Exec(file, run).value.loads <= 1
    ensures var s := Exec(file, run).value;
      && s.current == Some(0) && |s.objects| == 1 && s.saved == s.applied == s.head <= |s.queue|
      && s.file == s.objects[0] == Fold(s.base, s.queue[..s.head])
  {
    Linearized(file, run);
    LoadsGrow(Exec(file, Init(run)).value, Last(run));
    Linearized(file, Init(run));
  }

  // ---- Sent drafts ----

  predicate IsSent(m: Memory, id: string) {
    id in m.drafts && m.drafts[id].status == Sent
  }

  lemma EffectKeepsSent(op: Op, m: Memory, id: string)
    requires IsSent(m, id) && (op.Create? ==> op.id != id)
    ensures IsSent(Effect(op, m), id)
  {
  }

  lemma {:induction false} FoldKeepsSent(base: Memory, ops: seq<Op>, from: nat, id: string)
    requires from <= |ops| && IsSent(Fold(base, ops[..from]), id)
    requires forall i | from <= i < |ops| && ops[i].Create? :: ops[i].id != id
    ensures IsSent(Fold(base, ops), id)
  {
    if from < |ops| {
      var before := Init(ops);
      assert before[..from] == ops[..from];
      FoldKeepsSent(base, before, from, id);
      EffectKeepsSent(Last(ops), Fold(base, before), id);
    } else {
      assert ops[..from] == ops;
    }
  }

  /** Only creating it brings a draft into being. */
  lemma {:induction false} DraftsAreCreated(base: Memory, ops: seq<Op>, id: string)
    requires id in Fold(base, ops).drafts
    ensures id in base.drafts || exists i :: 0 <= i < |ops| && ops[i].Create? && ops[i].id == id
  {
    if ops != [] && !(Last(ops).Create? && Last(ops).id == id) {
      DraftsAreCreated(base, Init(ops), id);
      if i :| 0 <= i < |Init(ops)| && Init(ops)[i].Create? && Init(ops)[i].id == id {
        assert ops[i] == Init(ops)[i];
      }
    }
  }

  /** Ids are created once, and never one the file started with. */
  ghost predicate CreatedOnce(s: State) {
    && (forall i | 0 <= i < |s.queue| && s.queue[i].Create? :: s.queue[i].id !in s.original.drafts)
    && (forall i, j | 0 <= i < j < |s.queue| && s.queue[i].Create? && s.queue[j].Create? :: s.queue[i].id != s.queue[j].id)
  }

  lemma StepCreatesOnce(s: State, e: Event)
    requires CreatedOnce(s) && Enabled(s, e)
    ensures CreatedOnce(Apply(s, e))
  {
    assert forall i | 0 <= i < |s.queue| :: s.queue[i] in s.queue;
  }

  lemma {:induction false} RunCreatesOnce(file: Memory, run: seq<Event>)
    requires Exec(file, run).Some?
    ensures CreatedOnce(Exec(file, run).value)
  {
    if run != [] {
      RunCreatesOnce(file, Init(run));
      StepCreatesOnce(Exec(file, Init(run)).value, Last(run));
    }
  }

  lemma LaterFoldKeepsSent(s: State, from: nat, upto: nat, id: string)
    requires CreatedOnce(s) && (s.base == s.original || s.base == EMPTY)
    requires from <= upto <= |s.queue| && IsSent(Fold(s.base, s.queue[..from]), id)
    ensures IsSent(Fold(s.base, s.queue[..upto]), id)
  {
    DraftsAreCreated(s.base, s.queue[..from], id);
    var ops := s.queue[..upto];
    assert ops[..from] == s.queue[..from];
    forall i | from <= i < |ops| && ops[i].Create?
      ensures ops[i].id != id
    {
      if j :| 0 <= j < |s.queue[..from]| && s.queue[..from][j].Create? && s.queue[..from][j].id == id {
        assert s.queue[j].id != s.queue[i].id;
      }
    }
    FoldKeepsSent(s.base, ops, from, id);
  }

  ghost predicate Grows(s: State, t: State) {
    && s.queue <= t.queue && s.applied <= t.applied && s.loads <= t.loads && s.original == t.original
    && (s.objects != [] ==> t.objects != [] && s.base == t.base) && s.saved <= t.saved
  }

  lemma StepGrows(s: State, e: Event)
    requires Enabled(s, e) && s.saved <= s.applied
    ensures Grows(s, Apply(s, e))
  {
  }

  lemma GrowsTransitively(s: State, t: State, u: State)
    requires Grows(s, t) && Grows(t, u)
    ensures Grows(s, u)
  {
  }

  /** What later events leave alone. */
  lemma {:induction false} Extends(file: Memory, run: seq<Event>, more: seq<Event>)
    requires Exec(file, run + more).Some?
    ensures Exec(file, run).Some? && Grows(Exec(file, run).value, Exec(file, run + more).value)
    decreases |more|
  {
    if more == [] {
      assert run + more == run;
    } else {
      assert Init(run + more) == run + Init(more);
      Extends(file, run, Init(more));
      SavedIsApplied(file, run + Init(more));
      var t := Exec(file, run + Init(more)).value;
      StepGrows(t, Last(more));
      GrowsTransitively(Exec(file, run).value, t, Apply(t, Last(more)));
    }
  }

  lemma {:induction false} SavedIsApplied(file: Memory, run: seq<Event>)
    requires Exec(file, run).Some?
    ensures Exec(file, run).value.saved <= Exec(file, run).value.applied
  {
    if run != [] {
      SavedIsApplied(file, Init(run));
    }
  }

  /** A draft once sent stays sent, in memory and - unless the first load failed - on disk. */
  lemma SentStaysSent(file: Memory, run: seq<Event>, more: seq<Event>, id: string)
    requires Exec(file, run + more).Some? && Exec(file, run + more).value.loads <= 1
    ensures Exec(file, run).Some?
    ensures var s, t := Exec(file, run).value, Exec(file, run + more).value;
      && (s.objects != [] && IsSent(s.objects[0], id) ==> t.objects != [] && IsSent(t.objects[0], id))
      && (t.base == file && IsSent(s.file, id) ==> IsSent(t.file, id))
  {
    Extends(file, run, more);
    Linearized(file, run);
    Linearized(file, run + more);
    RunCreatesOnce(file, run + more);
    var s, t := Exec(file, run).value, Exec(file, run + more).value;
    assert t.queue[..s.applied] == s.queue[..s.applied];
    assert t.queue[..s.saved] == s.queue[..s.saved];
    if s.objects != [] && IsSent(s.objects[0], id) {
      LaterFoldKeepsSent(t, s.applied, t.applied, id);
    }
    if t.base == file && IsSent(s.file, id) {
      assert t.queue[..0] == [];
      assert s.file == Fold(t.base, t.queue[..s.saved]);
      LaterFoldKeepsSent(t, s.saved, t.saved, id);
    }
  }

  // ---- Two first loads that overlap ----

  lemma ExecStep(file: Memory, run: seq<Event>, e: Event)
    requires Exec(file, run).Some? && Enabled(Exec(file, run).value, e)
    ensures Exec(file, run + [e]) == Some(Apply(Exec(file, run).value, e))
  {
    assert Init(run + [e]) == run;
  }

  /** A mutation and all steps of a persist that succeeds, on an idle queue. */
  lemma WholeMutation(file: Memory, run: seq<Event>, op: Op) returns (longer: seq<Event>)
    requires Exec(file, run).Some?
    requires var s := Exec(file, run).value;
      s.phase.Waiting? && s.head == |s.queue| && s.current.Some? && s.current.value < |s.objects| && NewId(s, op)
    ensures Exec(file, longer).Some?
    ensures var s, t := Exec(file, run).value, Exec(file, longer).value;
      && t.file == Effect(op, s.objects[s.current.value]) && t.queue == s.queue + [op] && t.saved == t.applied == s.applied + 1
      && t.current == s.current && t.objects == s.objects[s.current.value := t.file]
      && t.phase.Waiting? && t.head == |t.queue| && t.loads == s.loads
  {
    var s0 := Exec(file, run).value;
    ExecStep(file, run, Enqueue(op));
    var s1 := Apply(s0, Enqueue(op));
    ExecStep(file, run + [Enqueue(op)], Begin);
    var s2 := Apply(s1, Begin);
    ExecStep(file, run + [Enqueue(op)] + [Begin], ChangeState);
    var s3 := Apply(s2, ChangeState);
    ExecStep(file, run + [Enqueue(op)] + [Begin] + [ChangeState], MakeDir(true));
    var s4 := Apply(s3, MakeDir(true));
    ExecStep(file, run + [Enqueue(op)] + [Begin] + [ChangeState] + [MakeDir(true)], WriteTemp(true));
    var s5 := Apply(s4, WriteTemp(true));
    ExecStep(file, run + [Enqueue(op)] + [Begin] + [ChangeState] + [MakeDir(true)] + [WriteTemp(true)], Rename(true));
    longer := run + [Enqueue(op)] + [Begin] + [ChangeState] + [MakeDir(true)] + [WriteTemp(true)] + [Rename(true)];
  }

  /** A read that arrives while the first mutation still loads, and whose own load ends after the mutation
      has changed its object: the store is left with an object that lacks the mutation. */
  lemma OverlappingLoads(file: Memory, op: Op) returns (run: seq<Event>)
    requires op.Create? ==> op.id !in file.drafts
    ensures Exec(file, run).Some?
    ensures var s := Exec(file, run).value;
      && s.queue == [op] && s.head == 1 && s.phase.Waiting? && s.saved == s.applied == 1
      && s.file == Effect(op, file) && s.original == file
      && s.objects == [Effect(op, file), file] && s.current == Some(1) && s.loads == 2
  {
    var six := TwoLoads(file, op);
    var s6 := Exec(file, six).value;
    ExecStep(file, six, MakeDir(true));
    var s7 := Apply(s6, MakeDir(true));
    ExecStep(file, six + [MakeDir(true)], WriteTemp(true));
    var s8 := Apply(s7, WriteTemp(true));
    assert s8.temp == Complete(Effect(op, file));
    ExecStep(file, six + [MakeDir(true)] + [WriteTemp(true)], Rename(true));
    run := six + [MakeDir(true)] + [WriteTemp(true)] + [Rename(true)];
  }

  /** A mutation and a read both start loading. */
  lemma BothLoad(file: Memory, op: Op) returns (run: seq<Event>)
    requires op.Create? ==> op.id !in file.drafts
    ensures Exec(file, run) == Some(State(file, Absent, [], None, [op], 0, Loading, [ReadLoading], file, 2, file, 0, 0))
  {
    var e1, e2, e3 := Enqueue(op), Begin, ReadBegins;
    var s1 := Fresh(file).(queue := [op]);
    ExecStep(file, [], e1);
    assert [] + [op] == [op];
    ExecStep(file, [] + [e1], e2);
    var s2 := s1.(phase := Loading, loads := 1);
    ExecStep(file, [] + [e1] + [e2], e3);
    assert [] + [ReadLoading] == [ReadLoading];
    run := [] + [e1] + [e2] + [e3];
  }

  /** The mutation's load ends first, and the mutation changes the object it gave. */
  lemma FirstLoadAndChange(file: Memory, op: Op) returns (run: seq<Event>)
    requires op.Create? ==> op.id !in file.drafts
    ensures Exec(file, run)
         == Some(State(file, Absent, [Effect(op, file)], Some(0), [op], 0, Changed(0), [ReadLoading], file, 2, file, 1, 0))
  {
    var three := BothLoad(file, op);
    var s3 := Exec(file, three).value;
    ExecStep(file, three, HeadLoads(true));
    assert [] + [file] == [file];
    ExecStep(file, three + [HeadLoads(true)], ChangeState);
    assert [file][0 := Effect(op, file)] == [Effect(op, file)];
    run := three + [HeadLoads(true)] + [ChangeState];
  }

  lemma TwoLoads(file: Memory, op: Op) returns (run: seq<Event>)
    requires op.Create? ==> op.id !in file.drafts
    ensures Exec(file, run)
         == Some(State(file, Absent, [Effect(op, file), file], Some(1), [op], 0, Changed(0), [ReadReady(1)], file, 2, file, 1, 0))
  {
    var five := FirstLoadAndChange(file, op);
    ExecStep(file, five, ReadLoads(0, true));
    assert [Effect(op, file)] + [file] == [Effect(op, file), file] && [ReadLoading][0 := ReadReady(1)] == [ReadReady(1)];
    run := five + [ReadLoads(0, true)];
  }

  /** So without the condition on loads a draft whose creation was confirmed can be lost: the next mutation
      that persists writes a file without it. */
  lemma OverlappingLoadsLoseADraft(file: Memory, id: string, now: string) returns (run: seq<Event>)
    requires id !in file.drafts
    ensures Exec(file, run).Some?
    ensures var s := Exec(file, run).value;
      && s.loads == 2 && s.saved == s.applied == |s.queue| == 2
      && s.queue[0] == Create(id, "", map[], now) && id !in s.file.drafts
  {
    var op := Create(id, "", map[], now);
    var first := OverlappingLoads(file, op);
    run := WholeMutation(file, first, Categorize([]));
  }

  // ---- Exactly when overlapping loads lose a mutation ----

  /** Loads that have begun and not ended, as long as none has ended. */
  function InFlight(s: State): nat {
    |s.readers| + if s.phase.Loading? then 1 else 0
  }

  /** Before the first load ends: nothing is applied or written, and every read is a load in flight. */
  ghost predicate NothingLoaded(s: State, file: Memory) {
    && s.current.None? && s.head == s.applied == 0 && s.phase in {Waiting, Loading}
    && (s.phase.Loading? ==> s.queue != []) && s.file == s.original == file
    && (forall r | 0 <= r < |s.readers| :: s.readers[r].ReadLoading?)
    && InFlight(s) == s.loads
  }

  lemma NothingLoadedYet(s: State, file: Memory, e: Event)
    requires Enabled(s, e) && Apply(s, e).objects == []
    requires s.objects == [] ==> NothingLoaded(s, file)
    ensures NothingLoaded(Apply(s, e), file)
  {
  }

  lemma {:induction false} RunNothingLoaded(file: Memory, run: seq<Event>)
    requires Exec(file, run).Some? && Exec(file, run).value.objects == []
    ensures NothingLoaded(Exec(file, run).value, file)
  {
    if run != [] {
      var s := Exec(file, Init(run)).value;
      if s.objects == [] {
        RunNothingLoaded(file, Init(run));
      }
      NothingLoadedYet(s, file, Last(run));
    }
  }

  /** The memory is the fold of the mutations applied so far. */
  ghost predicate MemoryIsFold(s: State) {
    s.current.Some? ==>
      && s.current.value < |s.objects| && s.applied <= |s.queue|
      && s.objects[s.current.value] == Fold(s.base, s.queue[..s.applied])
  }

  /** One more event on a continuation. */
  lemma GoOn(file: Memory, run: seq<Event>, more: seq<Event>, e: Event)
    requires Exec(file, run + more).Some? && Enabled(Exec(file, run + more).value, e)
    ensures Exec(file, run + (more + [e])) == Some(Apply(Exec(file, run + more).value, e))
  {
    ExecStep(file, run + more, e);
    assert run + (more + [e]) == run + more + [e];
  }

  /** One load has ended, read `r` still loads, and no persist has reached the file. */
  ghost predicate Draining(s: State, file: Memory, r: nat) {
    && s.current == Some(0) && |s.objects| == 1 && s.phase in {Waiting, Ready(0)}
    && (s.phase.Ready? ==> s.head < |s.queue|)
    && s.file == s.base == file && s.applied == s.head <= |s.queue|
    && s.objects[0] == Fold(file, s.queue[..s.head])
    && r < |s.readers| && s.readers[r].ReadLoading?
  }

  ghost predicate SameRun(s: State, t: State) {
    t.queue == s.queue && t.loads == s.loads
  }

  /** The mutation at the head changes the object, and its persist fails at the first step. */
  lemma DrainOne(file: Memory, run: seq<Event>, more: seq<Event>, r: nat) returns (longer: seq<Event>)
    requires Exec(file, run + more).Some? && Draining(Exec(file, run + more).value, file, r)
    requires Exec(file, run + more).value.phase.Ready?
    ensures Exec(file, run + longer).Some?
    ensures var s, t := Exec(file, run + more).value, Exec(file, run + longer).value;
      Draining(t, file, r) && t.phase.Waiting? && t.head == s.head + 1 && SameRun(s, t)
  {
    var s := Exec(file, run + more).value;
    GoOn(file, run, more, ChangeState);
    GoOn(file, run, more + [ChangeState], MakeDir(false));
    FoldNext(file, s.queue, s.head);
    longer := more + [ChangeState] + [MakeDir(false)];
  }

  /** The queue runs dry while read `r` still loads. */
  lemma {:induction false} Drain(file: Memory, run: seq<Event>, more: seq<Event>, r: nat) returns (longer: seq<Event>)
    requires Exec(file, run + more).Some? && Draining(Exec(file, run + more).value, file, r)
    ensures Exec(file, run + longer).Some?
    ensures var s, t := Exec(file, run + more).value, Exec(file, run + longer).value;
      Draining(t, file, r) && t.head == |t.queue| && SameRun(s, t)
    decreases |Exec(file, run + more).value.queue| - Exec(file, run + more).value.head
  {
    var s := Exec(file, run + more).value;
    longer := more;
    if s.head < |s.queue| {
      if s.phase.Waiting? {
        GoOn(file, run, longer, Begin);
        longer := longer + [Begin];
      }
      longer := DrainOne(file, run, longer, r);
      longer := Drain(file, run, longer, r);
    }
  }

  /** Of two loads in flight one ends, and the other stays out. */
  lemma FirstLoadEnds(file: Memory, run: seq<Event>, more: seq<Event>) returns (longer: seq<Event>, r: nat)
    requires Exec(file, run + more).Some?
    requires var s := Exec(file, run + more).value; s.objects == [] && NothingLoaded(s, file) && s.loads >= 2
    ensures Exec(file, run + longer).Some?
    ensures var s, t := Exec(file, run + more).value, Exec(file, run + longer).value; Draining(t, file, r) && SameRun(s, t)
  {
    var s := Exec(file, run + more).value;
    var e := if s.phase.Loading? then HeadLoads(true) else ReadLoads(0, true);
    GoOn(file, run, more, e);
    assert s.queue[..0] == [] && [] + [file] == [file];
    r := if s.phase.Loading? then 0 else 1;
    longer := more + [e];
  }

  /** From every state with two first loads in flight: a draft is created, its creation is applied, and the
      second load then puts a memory in its place that lacks it. */
  lemma LosingContinuation(file: Memory, run: seq<Event>, id: string) returns (more: seq<Event>)
    requires Exec(file, run).Some? && Exec(file, run).value.objects == [] && InFlight(Exec(file, run).value) >= 2
    requires NewId(Exec(file, run).value, Create(id, "", map[], ""))
    ensures Exec(file, run + more).Some?
    ensures var s, t := Exec(file, run).value, Exec(file, run + more).value;
      && t.loads == s.loads && t.current.Some? && t.current.value < |t.objects|
      && t.head == t.applied == |t.queue| && id in Fold(t.base, t.queue[..t.applied]).drafts
      && id !in t.objects[t.current.value].drafts
  {
    RunNothingLoaded(file, run);
    var op := Create(id, "", map[], "");
    assert run + [] == run;
    GoOn(file, run, [], Enqueue(op));
    var first, r := FirstLoadEnds(file, run, [] + [Enqueue(op)]);
    var dry := Drain(file, run, first, r);
    var t := Exec(file, run + dry).value;
    assert t.queue[..t.head] == t.queue && Last(t.queue) == op;
    GoOn(file, run, dry, ReadLoads(r, true));
    more := dry + [ReadLoads(r, true)];
  }

  /** There is always an id that is new. */
  lemma NewIdExists(s: State) returns (id: string)
    ensures NewId(s, Create(id, "", map[], ""))
  {
    var taken := s.original.drafts.Keys + set i | 0 <= i < |s.queue| && s.queue[i].Create? :: s.queue[i].id;
    id := LongerThanAll(taken);
    assert forall o | o in s.queue && o.Create? :: o.id in taken;
  }

  lemma {:induction false} LongerThanAll(taken: set<string>) returns (id: string)
    ensures forall t | t in taken :: |t| < |id|
  {
    if taken == {} {
      id := "";
    } else {
      var t :| t in taken;
      var rest := LongerThanAll(taken - {t});
      id := rest + t + "x";
    }
  }

  /** Wherever a run has no state object yet: the memory stays the fold of the mutations on every continuation
      that begins no further load if and only if at most one load is in flight. */
  lemma OneLoadIff(file: Memory, run: seq<Event>)
    requires Exec(file, run).Some? && Exec(file, run).value.objects == []
    ensures InFlight(Exec(file, run).value) <= 1
      <==> (forall more | Exec(file, run + more).Some? && Exec(file, run + more).value.loads == Exec(file, run).value.loads
              :: MemoryIsFold(Exec(file, run + more).value))
  {
    var s := Exec(file, run).value;
    RunNothingLoaded(file, run);
    if InFlight(s) <= 1 {
      forall more | Exec(file, run + more).Some? && Exec(file, run + more).value.loads == s.loads
        ensures MemoryIsFold(Exec(file, run + more).value)
      {
        Linearized(file, run + more);
      }
    } else {
      var id := NewIdExists(s);
      var more := LosingContinuation(file, run, id);
      assert !MemoryIsFold(Exec(file, run + more).value);
    }
  }

  // ---- The store: drafts and categories written in place ----

  /** A state object. */
  class Store {
    var drafts: map<string, DraftRecord>
    var categories: map<string, CategoryRecord>

    ghost function View(): Memory
      reads this
    {
      Memory(drafts, categories)
    }

    constructor (contents: Memory)
      ensures View() == contents
    {
      drafts, categories := contents.drafts, contents.categories;
    }

    method CreateDraft(id: string, accountId: string, fields: map<string, string>, now: string) returns (draft: DraftRecord)
      modifies this`drafts
      ensures View() == Effect(Create(id, accountId, fields, now), old(View())) && drafts[id] == draft
    {
      draft := DraftRecord(accountId, fields, Draft, now, now, None);
      drafts := drafts[id := draft];
    }

    method UpdateDraft(id: string, patch: map<string, string>, now: string) returns (draft: Option<DraftRecord>)
      modifies this`drafts
      ensures View() == Effect(Update(id, patch, now), old(View()))
      ensures draft == if id in drafts then Some(drafts[id]) else None
    {
      if id !in drafts { return None; }
      var updated := drafts[id].(fields := drafts[id].fields + patch, updatedAt := now);
      drafts := drafts[id := updated];
      draft := Some(updated);
    }

    method MarkDraftSent(id: string, now: string) returns (draft: Option<DraftRecord>)
      modifies this`drafts
      ensures View() == Effect(MarkSent(id, now), old(View()))
      ensures draft == if id in drafts then Some(drafts[id]) else None
    {
      if id !in drafts { return None; }
      var updated := drafts[id].(status := Sent, updatedAt := now, sentAt := Some(now));
      drafts := drafts[id := updated];
      draft := Some(updated);
    }

    method CategorizeAll(items: seq<CategoryRecord>)
      modifies this`categories
      ensures View() == Effect(Categorize(items), old(View()))
    {
      for i := 0 to |items|
        invariant categories == Filed(old(categories), items[..i])
      {
        categories := categories[MessageKey(items[i].message) := items[i]];
        assert Init(items[..i + 1]) == items[..i];
      }
      assert items[..|items|] == items;
    }

    method GetDraft(id: string) returns (draft: Option<DraftRecord>)
      ensures draft == if id in View().drafts then Some(View().drafts[id]) else None
    {
      draft := if id in drafts then Some(drafts[id]) else None;
    }

    method GetCategory(message: MessageRef) returns (category: Option<CategoryRecord>)
      ensures category == if MessageKey(message) in View().categories then Some(View().categories[MessageKey(message)]) else None
    {
      var key := MessageKey(message);
      category := if key in categories then Some(categories[key]) else None;
    }
  }
}
