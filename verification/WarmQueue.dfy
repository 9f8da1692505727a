/** Keeping the prompt cache warm between turns (packages/core/src/agent/cache-warmer.ts, lines 229 to 339).

    What runs between two waits is one turn of the program. A provider call ends in its own time, aborted or
    not; the queue behind it goes on one turn later. Whether the keeper is enabled, and which heads it finds,
    may differ at every look. */
module WarmQueue {
  import opened Common

  /** The settings and the provider at one look: None when there is no provider, or collecting the heads fails. */
  datatype Look = Look(enabled: bool, heads: Option<nat>)

  datatype Queue =
    | NoQueue
    // the queue's number, heads still to come, the generation it belongs to, and the call it waits for
    | Calling(id: nat, rest: nat, generation: nat, call: nat)
    // the call is over; the loop has yet to go on
    | Resuming(id: nat, rest: nat, generation: nat, proceed: bool)

  datatype State = State(
    running: bool,
    activeTurns: nat,
    generation: nat,
    rewarmTimer: Option<nat>,
    warmAbort: Option<nat>,
    queueRunning: bool,
    queue: Queue,
    // the world: timers that will fire, calls the provider still works on, calls whose signal is aborted
    liveTimers: set<nat>,
    timersMade: nat,
    outstanding: set<nat>,
    aborted: set<nat>,
    // history: the queues begun, and for each call the queue that sent it
    queuesBegun: nat,
    sentBy: seq<nat>)

  datatype Event =
    | TurnStarts
    | TurnEnds(enabled: bool)
    | TimerFires(timer: nat, look: Look)
    | CallEnds
    | QueueResumes
    | Start(look: Look)
    | Stop

  const AT_REST := State(false, 0, 0, None, None, false, NoQueue, {}, 0, {}, {}, 0, [])

  predicate Enabled(s: State, e: Event) {
    match e
    case TimerFires(t, _) => t in s.liveTimers
    case CallEnds => s.queue.Calling?
    case QueueResumes => s.queue.Resuming?
    case _ => true
  }

  /** One round of the loop, lines 274 to 277: send the next head, or be done. */
  function NextHead(s: State, id: nat, rest: nat, generation: nat): State {
    if rest == 0 || !s.running || generation != s.generation || s.activeTurns > 0
    then s.(queueRunning := false, queue := NoQueue)
    else s.(warmAbort := Some(|s.sentBy|), queue := Calling(id, rest - 1, generation, |s.sentBy|), queueRunning := true,
            outstanding := s.outstanding + {|s.sentBy|}, sentBy := s.sentBy + [id])
  }

  /** `warmQueue`, lines 260 to 281, up to its first wait. */
  function QueueStarts(s: State, look: Look): State {
    if !look.enabled || s.queueRunning || s.warmAbort.Some? || s.activeTurns > 0 || look.heads.None? then s
    else NextHead(s.(queueRunning := true, queuesBegun := s.queuesBegun + 1), s.queuesBegun, look.heads.value, s.generation)
  }

  function ClearTimer(s: State): State {
    if s.rewarmTimer.None? then s else s.(liveTimers := s.liveTimers - {s.rewarmTimer.value}, rewarmTimer := None)
  }

  function AbortCall(s: State): State {
    if s.warmAbort.None? then s else s.(aborted := s.aborted + {s.warmAbort.value}, warmAbort := None)
  }

  function Apply(s: State, e: Event): State
    requires Enabled(s, e)
  {
    match e
    case TurnStarts =>
      AbortCall(ClearTimer(s.(activeTurns := s.activeTurns + 1, generation := s.generation + 1)))
    case TurnEnds(enabled) =>
      var turns := if s.activeTurns > 0 then s.activeTurns - 1 else 0;
      var s' := s.(activeTurns := turns);
      if !enabled || !s.running || turns > 0 then s'
      else
        var clear := ClearTimer(s');
        clear.(rewarmTimer := Some(s.timersMade), liveTimers := clear.liveTimers + {s.timersMade}, timersMade := s.timersMade + 1)
    case TimerFires(t, look) =>
      QueueStarts(s.(liveTimers := s.liveTimers - {t}, rewarmTimer := None), look)
    case CallEnds =>
      var call := s.queue.call;
      s.(outstanding := s.outstanding - {call},
         warmAbort := if s.warmAbort == Some(call) then None else s.warmAbort,
         queue := Resuming(s.queue.id, s.queue.rest, s.queue.generation, call !in s.aborted))
    case QueueResumes =>
      if s.queue.proceed then NextHead(s, s.queue.id, s.queue.rest, s.queue.generation)
      else s.(queueRunning := false, queue := NoQueue)
    case Start(look) =>
      if s.running || !look.enabled then s else QueueStarts(s.(running := true), look)
    case Stop =>
      AbortCall(ClearTimer(s.(running := false, generation := s.generation + 1)))
  }

  ghost function Exec(run: seq<Event>): Option<State> {
    if run == [] then Some(AT_REST)
    else
      match Exec(Init(run))
      case None => None
      case Some(s) => if Enabled(s, Last(run)) then Some(Apply(s, Last(run))) else None
  }

  // ----- The invariant of every run.

  ghost predicate Inv(s: State) {
    && (s.queueRunning <==> !s.queue.NoQueue?)
    && s.outstanding == (if s.queue.Calling? then {s.queue.call} else {})
    && s.liveTimers == (if s.rewarmTimer.Some? then {s.rewarmTimer.value} else {})
    && (s.rewarmTimer.Some? ==> s.running && s.activeTurns == 0 && s.rewarmTimer.value < s.timersMade)
    && (s.queue.Calling? ==>
          && s.queue.call < |s.sentBy|
          && s.warmAbort == (if s.queue.call in s.aborted then None else Some(s.queue.call))
          && (s.queue.call !in s.aborted ==> s.running && s.activeTurns == 0 && s.queue.generation == s.generation))
    && (!s.queue.Calling? ==> s.warmAbort.None?)
    && (forall call | call in s.aborted :: call < |s.sentBy|)
    && (!s.queue.NoQueue? ==> s.queue.generation <= s.generation && s.queue.id < s.queuesBegun)
  }

  lemma StepInv(s: State, e: Event)
    requires Inv(s) && Enabled(s, e)
    ensures Inv(Apply(s, e))
  {
  }

  lemma {:induction false} RunInv(run: seq<Event>)
    requires Exec(run).Some?
    ensures Inv(Exec(run).value)
  {
    if run != [] {
      RunInv(Init(run));
      StepInv(Exec(Init(run)).value, Last(run));
    }
  }

  // ----- The turns that run, told by the events alone.

  /** Turn starts less turn ends. */
  function Excess(run: seq<Event>): int {
    if run == [] then 0 else Excess(Init(run)) + match Last(run) case TurnStarts => 1 case TurnEnds(_) => -1 case _ => 0
  }

  /** Some turn has not ended: from some point of the run on, more turns start than end. */
  ghost predicate Busy(run: seq<Event>) {
    exists k | 0 <= k <= |run| :: Excess(run[k..]) > 0
  }

  lemma ExcessOfSuffix(run: seq<Event>, k: nat)
    requires run != [] && k < |run|
    ensures Excess(run[k..]) == Excess(Init(run)[k..]) + Excess([Last(run)])
  {
    assert Init(run[k..]) == Init(run)[k..] && Last(run[k..]) == Last(run);
    assert Init([Last(run)]) == [];
  }

  /** The counter is the greatest excess of turn starts over turn ends of any suffix of the run. */
  lemma {:induction false} TurnsAreCounted(run: seq<Event>) returns (best: nat)
    requires Exec(run).Some?
    ensures forall k | 0 <= k <= |run| :: Excess(run[k..]) <= Exec(run).value.activeTurns
    ensures best <= |run| && Excess(run[best..]) == Exec(run).value.activeTurns
  {
    best := |run|;
    assert run[|run|..] == [];
    if run != [] {
      var s := Exec(Init(run)).value;
      var before := TurnsAreCounted(Init(run));
      var t := Apply(s, Last(run));
      assert t.activeTurns == Max(0, s.activeTurns + Excess([Last(run)])) by { OneMore(s, Last(run)); }
      forall k | 0 <= k < |run| ensures Excess(run[k..]) <= t.activeTurns {
        ExcessOfSuffix(run, k);
      }
      ExcessOfSuffix(run, before);
      best := if s.activeTurns + Excess([Last(run)]) >= 0 then before else |run|;
    }
  }

  lemma OneMore(s: State, e: Event)
    requires Enabled(s, e)
    ensures Apply(s, e).activeTurns == Max(0, s.activeTurns + Excess([e]))
  {
    assert Init([e]) == [];
  }

  lemma BusyIff(run: seq<Event>)
    requires Exec(run).Some?
    ensures Busy(run) <==> Exec(run).value.activeTurns > 0
  {
    var best := TurnsAreCounted(run);
  }

  /** When no turn ends that did not start, the counter is the difference. */
  lemma {:induction false} CountIsDifference(run: seq<Event>)
    requires Exec(run).Some? && forall k | 0 <= k <= |run| :: Excess(run[..k]) >= 0
    ensures Exec(run).value.activeTurns == Excess(run)
  {
    if run != [] {
      forall k | 0 <= k <= |Init(run)| ensures Excess(Init(run)[..k]) >= 0 {
        assert Init(run)[..k] == run[..k];
      }
      CountIsDifference(Init(run));
      OneMore(Exec(Init(run)).value, Last(run));
      assert run[..|run|] == run && Init([Last(run)]) == [];
    }
  }

  /** While a turn runs no timer is live, no call goes on unaborted, and nothing is sent by any event. */
  lemma QuietWhileBusy(run: seq<Event>, k: nat)
    requires Exec(run).Some? && k <= |run| && Excess(run[k..]) > 0
    ensures Exec(run).value.liveTimers == {} && Exec(run).value.outstanding <= Exec(run).value.aborted
    ensures forall e | Exec(run + [e]).Some? :: Exec(run + [e]).value.sentBy == Exec(run).value.sentBy
  {
    var s := Exec(run).value;
    var best := TurnsAreCounted(run);
    RunInv(run);
    forall e | Exec(run + [e]).Some? ensures Exec(run + [e]).value.sentBy == s.sentBy {
      assert Init(run + [e]) == run;
      StepSends(s, e);
    }
  }

  // ----- When the keeper runs and its timer is armed, told by the events alone.

  /** The keeper was started, enabled, and not stopped since. */
  predicate Runs(run: seq<Event>) {
    run != [] && match Last(run) case Start(look) => look.enabled || Runs(Init(run)) case Stop => false case _ => Runs(Init(run))
  }

  /** Since the last turn's start, stop or firing, a turn's end left the enabled, running keeper without turns. */
  ghost predicate Armed(run: seq<Event>) {
    run != [] && match Last(run)
      case TurnEnds(enabled) => (enabled && Runs(run) && !Busy(run)) || Armed(Init(run))
      case TurnStarts => false
      case Stop => false
      case TimerFires(_, _) => false
      case _ => Armed(Init(run))
  }

  lemma {:induction false} RunsIff(run: seq<Event>)
    requires Exec(run).Some?
    ensures Runs(run) <==> Exec(run).value.running
  {
    if run != [] {
      RunsIff(Init(run));
    }
  }

  lemma {:induction false} ArmedIff(run: seq<Event>)
    requires Exec(run).Some?
    ensures Armed(run) <==> Exec(run).value.liveTimers != {}
  {
    if run != [] {
      ArmedIff(Init(run));
      RunInv(Init(run));
      RunsIff(run);
      BusyIff(run);
      StepTimer(Exec(Init(run)).value, Last(run));
    }
  }

  lemma StepTimer(s: State, e: Event)
    requires Inv(s) && Enabled(s, e)
    ensures var t := Apply(s, e);
      t.liveTimers != {} <==> match e
        case TurnEnds(enabled) => (enabled && t.running && t.activeTurns == 0) || s.liveTimers != {}
        case TurnStarts => false
        case Stop => false
        case TimerFires(_, _) => false
        case _ => s.liveTimers != {}
  {
    if e.TurnEnds? && e.enabled && s.running && s.activeTurns <= 1 {
      assert s.timersMade in Apply(s, e).liveTimers;
    }
  }

  /** In every run: at most one call is out; one that is not aborted is out only while no turn runs, in the current
      generation of a running keeper; a timer that will fire is the one on record, in an idle, running keeper. */
  lemma WarmDiscipline(run: seq<Event>)
    requires Exec(run).Some?
    ensures var s := Exec(run).value;
      && |s.outstanding| <= 1
      && (forall call | call in s.outstanding && call !in s.aborted ::
            s.running && s.activeTurns == 0 && s.queue.Calling? && s.queue.generation == s.generation)
      && (forall t | t in s.liveTimers :: s.rewarmTimer == Some(t) && s.running && s.activeTurns == 0)
  {
    RunInv(run);
  }

  // ----- What turns cost.

  predicate Interrupts(e: Event) {
    e.TurnStarts? || e.Stop?
  }

  /** A turn's start or a stop that meets a call no one has aborted yet. */
  ghost predicate MeetsCall(s: State, e: Event) {
    Interrupts(e) && exists call :: call in s.outstanding && call !in s.aborted
  }

  lemma StepSends(s: State, e: Event)
    requires Inv(s) && Enabled(s, e)
    ensures s.activeTurns > 0 ==> Apply(s, e).sentBy == s.sentBy
    ensures s.sentBy <= Apply(s, e).sentBy && s.queuesBegun <= Apply(s, e).queuesBegun && s.generation <= Apply(s, e).generation
  {
  }

  /** One call is aborted by a step that meets one, and none by any other; no call stays unaborted when a turn starts. */
  lemma StepAborts(s: State, e: Event)
    requires Inv(s) && Enabled(s, e)
    ensures |Apply(s, e).aborted| == |s.aborted| + if MeetsCall(s, e) then 1 else 0
    ensures Interrupts(e) ==> forall call | call in Apply(s, e).outstanding :: call in Apply(s, e).aborted
  {
    if MeetsCall(s, e) {
      var call :| call in s.outstanding && call !in s.aborted;
      assert s.warmAbort == Some(call);
    } else {
      assert Interrupts(e) ==> s.warmAbort.None? by {
        if s.warmAbort.Some? { assert s.queue.call in s.outstanding; }
      }
    }
  }

  /** From a turn's start until all turns have ended, nothing is sent. */
  lemma {:induction false} NothingSentDuringTurns(run: seq<Event>, more: seq<Event>)
    requires Exec(run + more).Some? && forall k | 0 <= k < |more| :: Busy(run + more[..k])
    ensures Exec(run).Some? && Exec(run + more).value.sentBy == Exec(run).value.sentBy
    decreases |more|
  {
    if more == [] {
      assert run + more == run;
    } else {
      var before := run + Init(more);
      assert Init(run + more) == before;
      forall k | 0 <= k < |Init(more)| ensures Busy(run + Init(more)[..k]) {
        assert Init(more)[..k] == more[..k];
      }
      NothingSentDuringTurns(run, Init(more));
      assert Busy(run + more[..|more| - 1]);
      BusyIff(before);
      RunInv(before);
      StepSends(Exec(before).value, Last(more));
    }
  }

  /** The turn starts and stops of a run that met a call no one had aborted. */
  ghost function Collisions(run: seq<Event>): nat
    requires Exec(run).Some?
  {
    if run == [] then 0 else Collisions(Init(run)) + (if MeetsCall(Exec(Init(run)).value, Last(run)) then 1 else 0)
  }

  /** The abort cost is paid exactly once per collision, however many heads are queued. */
  lemma {:induction false} AbortsAreCollisions(run: seq<Event>)
    requires Exec(run).Some?
    ensures |Exec(run).value.aborted| == Collisions(run)
  {
    if run != [] {
      AbortsAreCollisions(Init(run));
      RunInv(Init(run));
      StepAborts(Exec(Init(run)).value, Last(run));
    }
  }

  // ----- A queue that a turn has overtaken.

  /** Queue q, if it still runs, belongs to a generation that has passed. */
  ghost predicate Overtaken(s: State, q: nat) {
    q < s.queuesBegun && (!s.queue.NoQueue? && s.queue.id == q ==> s.queue.generation < s.generation)
  }

  lemma StepOvertaken(s: State, e: Event, q: nat)
    requires Inv(s) && Enabled(s, e) && Overtaken(s, q)
    ensures Overtaken(Apply(s, e), q)
    ensures forall c | |s.sentBy| <= c < |Apply(s, e).sentBy| :: Apply(s, e).sentBy[c] != q
  {
  }

  lemma {:induction false} StaysOvertaken(run: seq<Event>, more: seq<Event>, q: nat)
    requires Exec(run).Some? && Exec(run + more).Some? && Overtaken(Exec(run).value, q)
    ensures var s, t := Exec(run).value, Exec(run + more).value;
      && Overtaken(t, q) && s.sentBy <= t.sentBy
      && forall c | |s.sentBy| <= c < |t.sentBy| :: t.sentBy[c] != q
    decreases |more|
  {
    if more == [] {
      assert run + more == run;
    } else {
      var before := run + Init(more);
      assert Init(run + more) == before;
      StaysOvertaken(run, Init(more), q);
      RunInv(before);
      StepSends(Exec(before).value, Last(more));
      StepOvertaken(Exec(before).value, Last(more), q);
    }
  }

  /** Once a turn has started or the keeper has stopped, the queue that was running never sends again, however the
      run goes on, also when all turns have ended. */
  lemma OvertakenQueueEnds(run: seq<Event>, e: Event, more: seq<Event>)
    requires Exec(run).Some? && Interrupts(e) && Exec(run + [e] + more).Some? && !Exec(run).value.queue.NoQueue?
    ensures var s, t := Exec(run).value, Exec(run + [e] + more).value;
      s.sentBy <= t.sentBy && forall c | |s.sentBy| <= c < |t.sentBy| :: t.sentBy[c] != s.queue.id
  {
    var s := Exec(run).value;
    RunInv(run);
    ExecPrefix(run + [e], more);
    assert Init(run + [e]) == run;
    StaysOvertaken(run + [e], more, s.queue.id);
  }

  lemma {:induction false} ExecPrefix(run: seq<Event>, more: seq<Event>)
    requires Exec(run + more).Some?
    ensures Exec(run).Some?
    decreases |more|
  {
    if more == [] {
      assert run + more == run;
    } else {
      assert Init(run + more) == run + Init(more);
      ExecPrefix(run, Init(more));
    }
  }

  // ----- When a head is sent.

  predicate HasHead(look: Look) {
    look.enabled && look.heads.Some? && look.heads.value > 0
  }

  /** A head is sent exactly by a timer that fires, or a start of a stopped keeper without turns, when the keeper is
      enabled, has a head, and no queue still unwinds; and by a queue that goes on, was not aborted, has a head left,
      and that no turn's start or stop has overtaken. */
  lemma SendsIff(run: seq<Event>, e: Event)
    requires Exec(run).Some? && Enabled(Exec(run).value, e)
    ensures var s, t := Exec(run).value, Apply(Exec(run).value, e);
      && (t.sentBy == s.sentBy || t.sentBy == s.sentBy + [t.queue.id])
      && (t.sentBy != s.sentBy <==> match e
        case TimerFires(_, look) => HasHead(look) && s.queue.NoQueue?
        case Start(look) => HasHead(look) && s.queue.NoQueue? && !Runs(run) && !Busy(run)
        case QueueResumes => s.queue.proceed && s.queue.rest > 0 && Runs(run) && !Busy(run) && s.queue.generation == s.generation
        case _ => false)
  {
    RunInv(run);
    RunsIff(run);
    BusyIff(run);
    StepSendsIff(Exec(run).value, e);
  }

  lemma StepSendsIff(s: State, e: Event)
    requires Inv(s) && Enabled(s, e)
    ensures var t := Apply(s, e);
      && (t.sentBy == s.sentBy || (t.queue.Calling? && t.sentBy == s.sentBy + [t.queue.id]))
      && (|t.sentBy| != |s.sentBy| <==> match e
        case TimerFires(_, look) => HasHead(look) && s.queue.NoQueue?
        case Start(look) => HasHead(look) && s.queue.NoQueue? && !s.running && s.activeTurns == 0
        case QueueResumes => s.queue.proceed && s.queue.rest > 0 && s.running && s.activeTurns == 0 && s.queue.generation == s.generation
        case _ => false)
  {
  }

  /** The calls a queue has sent, and the heads it has left. */
  function SentOf(calls: seq<nat>, q: nat): nat {
    if calls == [] then 0 else SentOf(Init(calls), q) + if Last(calls) == q then 1 else 0
  }

  function LeftOf(s: State, q: nat): nat {
    if !s.queue.NoQueue? && s.queue.id == q then s.queue.rest else 0
  }

  /** Nothing has come in the way of queue q, if it still runs. */
  ghost predicate Unhindered(s: State, q: nat) {
    !s.queue.NoQueue? && s.queue.id == q ==>
      && s.running && s.activeTurns == 0 && s.queue.generation == s.generation
      && if s.queue.Calling? then s.queue.call !in s.aborted else s.queue.proceed
  }

  lemma SentOfOneMore(calls: seq<nat>, sender: nat, q: nat)
    ensures SentOf(calls + [sender], q) == SentOf(calls, q) + if sender == q then 1 else 0
  {
    assert Init(calls + [sender]) == calls;
  }

  lemma StepHeads(s: State, e: Event, q: nat)
    requires Inv(s) && Enabled(s, e) && q < s.queuesBegun
    ensures var t := Apply(s, e);
      && q < t.queuesBegun
      && SentOf(t.sentBy, q) + LeftOf(t, q) <= SentOf(s.sentBy, q) + LeftOf(s, q)
      && (Unhindered(s, q) && !Interrupts(e) ==>
            Unhindered(t, q) && SentOf(t.sentBy, q) + LeftOf(t, q) == SentOf(s.sentBy, q) + LeftOf(s, q))
  {
    var t := Apply(s, e);
    StepSendsIff(s, e);
    if t.queue.Calling? {
      SentOfOneMore(s.sentBy, t.queue.id, q);
    }
  }

  lemma {:induction false} RunHeads(run: seq<Event>, more: seq<Event>, q: nat)
    requires Exec(run).Some? && Exec(run + more).Some? && q < Exec(run).value.queuesBegun
    ensures var s, t := Exec(run).value, Exec(run + more).value;
      && q < t.queuesBegun && SentOf(t.sentBy, q) + LeftOf(t, q) <= SentOf(s.sentBy, q) + LeftOf(s, q)
      && (Unhindered(s, q) && (forall e | e in more :: !Interrupts(e)) ==>
            Unhindered(t, q) && SentOf(t.sentBy, q) + LeftOf(t, q) == SentOf(s.sentBy, q) + LeftOf(s, q))
    decreases |more|
  {
    if more == [] {
      assert run + more == run;
    } else {
      var before := run + Init(more);
      assert Init(run + more) == before;
      assert Last(more) in more && forall e | e in Init(more) :: e in more;
      RunHeads(run, Init(more), q);
      RunInv(before);
      StepHeads(Exec(before).value, Last(more), q);
    }
  }

  /** A queue that has not begun has sent nothing. */
  lemma {:induction false} NotBegunSentNothing(run: seq<Event>, q: nat)
    requires Exec(run).Some? && Exec(run).value.queuesBegun <= q
    ensures SentOf(Exec(run).value.sentBy, q) == 0
  {
    if run != [] {
      var s := Exec(Init(run)).value;
      RunInv(Init(run));
      StepSends(s, Last(run));
      StepSendsIff(s, Last(run));
      NotBegunSentNothing(Init(run), q);
      RunInv(run);
      if Exec(run).value.queue.Calling? {
        SentOfOneMore(s.sentBy, Exec(run).value.queue.id, q);
      }
    }
  }

  /** The queue an event begins sends each of its heads at most once, however the run goes on, and each exactly once
      if it comes to its end with no turn's start and no stop in between. */
  lemma EveryHeadOnce(run: seq<Event>, e: Event, more: seq<Event>)
    requires Exec(run).Some? && Exec(run + [e] + more).Some?
    requires (e.TimerFires? || e.Start?) && Exec(run).value.queue.NoQueue?
    requires Exec(run + [e]).Some? && !Exec(run + [e]).value.queue.NoQueue?
    ensures var q, t := Exec(run).value.queuesBegun, Exec(run + [e] + more).value;
      && HasHead(e.look) && SentOf(t.sentBy, q) <= e.look.heads.value
      && ((forall i | i in more :: !Interrupts(i)) && (t.queue.NoQueue? || t.queue.id != q) ==> SentOf(t.sentBy, q) == e.look.heads.value)
  {
    var q := Exec(run).value.queuesBegun;
    RunInv(run);
    assert Init(run + [e]) == run;
    BeginsWithAll(run, e);
    RunHeads(run + [e], more, q);
  }

  lemma BeginsWithAll(run: seq<Event>, e: Event)
    requires Exec(run).Some? && (e.TimerFires? || e.Start?) && Exec(run).value.queue.NoQueue? && Inv(Exec(run).value)
    requires Enabled(Exec(run).value, e) && !Apply(Exec(run).value, e).queue.NoQueue?
    ensures var q, t := Exec(run).value.queuesBegun, Apply(Exec(run).value, e);
      && q < t.queuesBegun && HasHead(e.look) && Unhindered(t, q) && SentOf(t.sentBy, q) + LeftOf(t, q) == e.look.heads.value
  {
    var s := Exec(run).value;
    NotBegunSentNothing(run, s.queuesBegun);
    StepInv(s, e);
    SentOfOneMore(s.sentBy, s.queuesBegun, s.queuesBegun);
  }

  // ----- When nothing more is sent until a turn ends or the keeper starts.

  /** A timer will fire, or the queue may still send its next head. */
  ghost predicate MaySend(s: State) {
    || s.liveTimers != {}
    || (!s.queue.NoQueue? && s.queue.rest > 0 && s.running && s.activeTurns == 0 && s.queue.generation == s.generation
        && if s.queue.Calling? then s.queue.call !in s.aborted else s.queue.proceed)
  }

  predicate Rearms(e: Event) {
    e.TurnEnds? || e.Start?
  }

  lemma StepSilent(s: State, e: Event)
    requires Inv(s) && Enabled(s, e) && !MaySend(s) && !Rearms(e)
    ensures !MaySend(Apply(s, e)) && Apply(s, e).sentBy == s.sentBy
  {
  }

  lemma {:induction false} StaysSilent(run: seq<Event>, more: seq<Event>)
    requires Exec(run).Some? && Exec(run + more).Some? && !MaySend(Exec(run).value)
    requires forall e | e in more :: !Rearms(e)
    ensures !MaySend(Exec(run + more).value) && Exec(run + more).value.sentBy == Exec(run).value.sentBy
    decreases |more|
  {
    if more == [] {
      assert run + more == run;
    } else {
      var before := run + Init(more);
      assert Init(run + more) == before;
      assert Last(more) in more && forall e | e in Init(more) :: e in more;
      StaysSilent(run, Init(more));
      RunInv(before);
      StepSilent(Exec(before).value, Last(more));
    }
  }

  lemma ExecStep(run: seq<Event>, e: Event)
    requires Exec(run).Some? && Enabled(Exec(run).value, e)
    ensures Exec(run + [e]) == Some(Apply(Exec(run).value, e))
  {
    assert Init(run + [e]) == run;
  }

  /** The queue at rest, or its next head sent, a step or two later. */
  lemma QueueUnwinds(run: seq<Event>) returns (more: seq<Event>)
    requires Exec(run).Some?
    ensures Exec(run + more).Some? && forall e | e in more :: !Rearms(e)
    ensures var s, t := Exec(run).value, Exec(run + more).value;
      && t.liveTimers == s.liveTimers && |t.sentBy| >= |s.sentBy|
      && (|t.sentBy| == |s.sentBy| ==> t.queue.NoQueue?)
      && (s.liveTimers == {} && MaySend(s) ==> |t.sentBy| > |s.sentBy|)
  {
    var s := Exec(run).value;
    RunInv(run);
    more := [];
    assert run + [] == run;
    if s.queue.Calling? {
      ExecStep(run, CallEnds);
      more := [CallEnds];
    }
    if !s.queue.NoQueue? {
      ExecStep(run + more, QueueResumes);
      assert run + (more + [QueueResumes]) == run + more + [QueueResumes];
      more := more + [QueueResumes];
    }
  }

  lemma MaySendSends(run: seq<Event>) returns (more: seq<Event>)
    requires Exec(run).Some? && MaySend(Exec(run).value)
    ensures Exec(run + more).Some? && (forall e | e in more :: !Rearms(e))
    ensures |Exec(run + more).value.sentBy| > |Exec(run).value.sentBy|
  {
    var s := Exec(run).value;
    more := QueueUnwinds(run);
    if |Exec(run + more).value.sentBy| == |s.sentBy| {
      var t :| t in s.liveTimers;
      var fires := TimerFires(t, Look(true, Some(1)));
      RunInv(run + more);
      ExecStep(run + more, fires);
      StepSendsIff(Exec(run + more).value, fires);
      assert run + (more + [fires]) == run + more + [fires];
      more := more + [fires];
    }
  }

  /** What can be sent before the next turn's end or start of the keeper: something exactly if a timer is armed or the
      running queue is neither overtaken, nor aborted, nor out of heads. */
  lemma SendsAgainIff(run: seq<Event>)
    requires Exec(run).Some?
    ensures MaySend(Exec(run).value) <==>
      exists more :: Exec(run + more).Some? && (forall e | e in more :: !Rearms(e))
        && |Exec(run + more).value.sentBy| > |Exec(run).value.sentBy|
  {
    if MaySend(Exec(run).value) {
      var more := MaySendSends(run);
    } else {
      forall more | Exec(run + more).Some? && forall e | e in more :: !Rearms(e)
        ensures |Exec(run + more).value.sentBy| == |Exec(run).value.sentBy|
      {
        StaysSilent(run, more);
      }
    }
  }

  /** A timer that fires while a queue overtaken by a turn still unwinds is used up: nothing is sent until a turn ends
      or the keeper is started anew. */
  lemma RewarmIsLost(run: seq<Event>, t: nat, look: Look, more: seq<Event>)
    requires Exec(run).Some? && t in Exec(run).value.liveTimers
    requires !Exec(run).value.queue.NoQueue? && Exec(run).value.queue.generation != Exec(run).value.generation
    requires Exec(run + [TimerFires(t, look)] + more).Some? && forall e | e in more :: !Rearms(e)
    ensures Exec(run + [TimerFires(t, look)] + more).value.sentBy == Exec(run).value.sentBy
  {
    RunInv(run);
    ExecStep(run, TimerFires(t, look));
    StaysSilent(run + [TimerFires(t, look)], more);
  }

  /** Such a run: a turn that begins and ends within one provider call. */
  lemma ShortTurn(look: Look)
    requires look.enabled && look.heads == Some(1)
    ensures var run := [Start(look), TurnStarts, TurnEnds(true)];
      && Exec(run).Some? && Exec(run).value.sentBy == [0]
      && 0 in Exec(run).value.liveTimers && !Exec(run).value.queue.NoQueue?
      && Exec(run).value.queue.generation != Exec(run).value.generation
  {
    ExecStep([], Start(look));
    ExecStep([Start(look)], TurnStarts);
    ExecStep([Start(look), TurnStarts], TurnEnds(true));
    assert [] + [Start(look)] == [Start(look)] && [Start(look)] + [TurnStarts] == [Start(look), TurnStarts];
    assert [Start(look), TurnStarts] + [TurnEnds(true)] == [Start(look), TurnStarts, TurnEnds(true)];
  }

  // ----- The module's variables, updated in place.

  class CacheWarmer {
    var running: bool
    var activeTurns: nat
    var generation: nat
    var rewarmTimer: Option<nat>
    var warmAbort: Option<nat>
    var queueRunning: bool
    var queue: Queue
    var liveTimers: set<nat>
    var timersMade: nat
    var outstanding: set<nat>
    var aborted: set<nat>
    var queuesBegun: nat
    var sentBy: seq<nat>

    ghost function View(): State
      reads this
    {
      State(running, activeTurns, generation, rewarmTimer, warmAbort, queueRunning, queue, liveTimers, timersMade,
            outstanding, aborted, queuesBegun, sentBy)
    }

    /** What holds between two turns of the program. */
    ghost predicate Valid()
      reads this
    {
      Inv(View())
    }

    constructor ()
      ensures Valid() && View() == AT_REST
    {
      running, activeTurns, generation, rewarmTimer, warmAbort, queueRunning := false, 0, 0, None, None, false;
      queue, liveTimers, timersMade, outstanding, aborted, queuesBegun, sentBy := NoQueue, {}, 0, {}, {}, 0, [];
    }

    method DropTimer()
      modifies this`rewarmTimer, this`liveTimers
      ensures View() == ClearTimer(old(View()))
    {
      if rewarmTimer.Some? {
        liveTimers := liveTimers - {rewarmTimer.value};
        rewarmTimer := None;
      }
    }

    method DropCall()
      modifies this`warmAbort, this`aborted
      ensures View() == AbortCall(old(View()))
    {
      if warmAbort.Some? {
        aborted := aborted + {warmAbort.value};
        warmAbort := None;
      }
    }

    method MarkOrchestratorActivity()
      requires Valid()
      modifies this
      ensures Valid()
      ensures View() == Apply(old(View()), TurnStarts)
    {
      StepInv(View(), TurnStarts);
      activeTurns := activeTurns + 1;
      generation := generation + 1;
      DropTimer();
      DropCall();
    }

    method MarkOrchestratorIdle(enabled: bool)
      requires Valid()
      modifies this
      ensures Valid()
      ensures View() == Apply(old(View()), TurnEnds(enabled))
    {
      StepInv(View(), TurnEnds(enabled));
      if activeTurns > 0 { activeTurns := activeTurns - 1; }
      if !enabled || !running || activeTurns > 0 { return; }
      DropTimer();
      rewarmTimer := Some(timersMade);
      liveTimers := liveTimers + {timersMade};
      timersMade := timersMade + 1;
    }

    method TimerCallback(timer: nat, look: Look)
      requires timer in liveTimers
      requires Valid()
      modifies this
      ensures Valid()
      ensures View() == Apply(old(View()), TimerFires(timer, look))
    {
      StepInv(View(), TimerFires(timer, look));
      liveTimers := liveTimers - {timer};
      rewarmTimer := None;
      WarmQueueStarts(look);
    }

    method WarmQueueStarts(look: Look)
      modifies this
      ensures View() == QueueStarts(old(View()), look)
    {
      if !look.enabled || queueRunning || warmAbort.Some? || activeTurns > 0 { return; }
      if look.heads.None? { return; }
      queueRunning := true;
      queuesBegun := queuesBegun + 1;
      LoopRound(queuesBegun - 1, look.heads.value, generation);
    }

    method LoopRound(id: nat, rest: nat, of: nat)
      modifies this
      ensures View() == NextHead(old(View()), id, rest, of)
    {
      if rest == 0 || !running || of != generation || activeTurns > 0 {
        queueRunning, queue := false, NoQueue;
        return;
      }
      warmAbort := Some(|sentBy|);
      outstanding := outstanding + {|sentBy|};
      queue, queueRunning := Calling(id, rest - 1, of, |sentBy|), true;
      sentBy := sentBy + [id];
    }

    /** The end of `warmHead`. */
    method WarmHeadEnds()
      requires queue.Calling?
      requires Valid()
      modifies this
      ensures Valid()
      ensures View() == Apply(old(View()), CallEnds)
    {
      StepInv(View(), CallEnds);
      var call := queue.call;
      outstanding := outstanding - {call};
      if warmAbort == Some(call) { warmAbort := None; }
      queue := Resuming(queue.id, queue.rest, queue.generation, call !in aborted);
    }

    method WarmQueueResumes()
      requires queue.Resuming?
      requires Valid()
      modifies this
      ensures Valid()
      ensures View() == Apply(old(View()), QueueResumes)
    {
      StepInv(View(), QueueResumes);
      if queue.proceed {
        LoopRound(queue.id, queue.rest, queue.generation);
      } else {
        queueRunning, queue := false, NoQueue;
      }
    }

    method StartCacheWarmer(look: Look)
      requires Valid()
      modifies this
      ensures Valid()
      ensures View() == Apply(old(View()), Start(look))
    {
      StepInv(View(), Start(look));
      if running || !look.enabled { return; }
      running := true;
      WarmQueueStarts(look);
    }

    method StopCacheWarmer()
      requires Valid()
      modifies this
      ensures Valid()
      ensures View() == Apply(old(View()), Stop)
    {
      StepInv(View(), Stop);
      running := false;
      generation := generation + 1;
      DropTimer();
      DropCall();
    }
  }
}
