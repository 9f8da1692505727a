/** The K-of-N drain of parallel delegation (packages/core/src/agent/delegation-quorum.ts).

    One JavaScript turn between two awaits is one atomic event. A run is the list of events
    that happened, in order; `Exec` replays it. Every runner carries the outcome it settles
    with if it ever does, so a run is also free to leave any slice unsettled for good. */
module Quorum {
  import opened Common

  /** A JavaScript value. The results array starts out `undefined` everywhere, and a runner may
      itself produce `undefined`. */
  datatype JsValue<+T> = Undefined | Defined(value: T)

  datatype Outcome<+T, +E> = Fulfils(result: JsValue<T>) | Rejects(error: E)

  /** What `isSuccess` does with a result. */
  datatype Verdict<+E> = Success | NoSuccess | Throws(error: E)

  /** What `onError` does: build a placeholder, or throw. */
  datatype Built<+T> = Returns(placeholder: JsValue<T>) | Fails

  datatype Config<!T, !E> = Config(
    k: int,
    scripts: seq<Outcome<T, E>>,
    isSuccess: JsValue<T> -> Verdict<E>,
    onError: (E, int) -> Built<T>,
    onAbandon: int -> JsValue<T>,
    // The injected timer calls back before it returns.
    timerIsSynchronous: bool)
  {
    function N(): nat { |scripts| }

    /** The quorum as the code clamps it: line 48. */
    function K(): int { Max(1, Min(k, N())) }

    /** The error the catch handler of slice i receives, if any. */
    function Thrown(i: int): Option<E>
      requires 0 <= i < N()
    {
      match scripts[i]
      case Rejects(e) => Some(e)
      case Fulfils(v) => (match isSuccess(v) case Throws(e) => Some(e) case _ => None)
    }

    predicate Succeeds(i: int)
      requires 0 <= i < N()
    {
      scripts[i].Fulfils? && isSuccess(scripts[i].result).Success?
    }

    /** The entry of slice i once its fulfilment handler ran: the catch handler may still be due. */
    function First(i: int): JsValue<T>
      requires 0 <= i < N()
    {
      if scripts[i].Fulfils? then scripts[i].result else Undefined
    }

    /** The entry of slice i once all its handlers ran: its own value, or its `onError` value. */
    function Own(i: int): JsValue<T>
      requires 0 <= i < N()
    {
      match Thrown(i)
      case None => First(i)
      case Some(e) => (match onError(e, i) case Returns(v) => v case Fails => First(i))
    }
  }

  /** How far the promise chain of one slice has got: `.then`, `.catch`, `.finally`. */
  datatype Slice = Running | Thrown | Passed | Done

  datatype Main = AwaitsQuorum | AwaitsGrace | Returned
  datatype Timer = Unarmed | Armed | Fired | Cleared

  datatype State<T> = State(
    launched: bool,
    slices: seq<Slice>,
    results: seq<JsValue<T>>,
    aborted: seq<bool>,
    succeeded: nat,
    settled: nat,
    // resolveDone has been called
    resolved: bool,
    main: Main,
    timer: Timer,
    // `finish` has run, so the grace wait is over
    graceOver: bool,
    parentAborted: bool,
    // the parent aborted while its listener was attached
    parentReached: bool,
    // history: the chains as they stood when the array was frozen
    atFreeze: seq<Slice>)

  datatype Event =
    | Settle(i: int)   // the runner settles and its fulfilment handler, if any, runs
    | Catch(i: int)
    | Finally(i: int)
    | Resume           // the await on the quorum continues
    | TimerFires
    | AllSettled       // Promise.allSettled(tasks) continues
    | ResumeGrace      // the await on the grace window continues
    | ParentAborts

  /** What slice i has written into the array by the time its chain is at `at`. */
  function Slot<T, E>(c: Config<T, E>, at: Slice, i: int): JsValue<T>
    requires 0 <= i < c.N()
  {
    match at
    case Running => Undefined
    case Thrown => c.First(i)
    case _ => c.Own(i)
  }

  function Start<T, E>(c: Config<T, E>, parentAborted: bool): State<T> {
    State(
      !parentAborted,
      seq(c.N(), _ => Running),
      if parentAborted then seq(c.N(), i => c.onAbandon(i)) else seq(c.N(), _ => Undefined),
      seq(c.N(), _ => parentAborted),
      0, 0, false,
      if parentAborted then Returned else AwaitsQuorum,
      Unarmed, false, parentAborted, parentAborted,
      if parentAborted then seq(c.N(), _ => Running) else [])
  }

  predicate Enabled<T, E>(c: Config<T, E>, s: State<T>, e: Event) {
    && |s.slices| == |s.results| == |s.aborted| == c.N()
    && match e
       case Settle(i) => s.launched && 0 <= i < c.N() && s.slices[i].Running?
       case Catch(i) => 0 <= i < c.N() && s.slices[i].Thrown? && c.Thrown(i).Some?
       case Finally(i) => 0 <= i < c.N() && s.slices[i].Passed?
       case Resume => s.main.AwaitsQuorum? && s.resolved
       case TimerFires => s.timer.Armed?
       case AllSettled => s.main.AwaitsGrace? && !s.graceOver && forall i | 0 <= i < c.N() :: s.slices[i].Done?
       case ResumeGrace => s.main.AwaitsGrace? && s.graceOver
       case ParentAborts => !s.parentAborted
  }

  /** Lines 84 to 94: entries still undefined are abandoned, in one turn. */
  function Freeze<T, E>(c: Config<T, E>, s: State<T>): State<T>
    requires |s.slices| == |s.results| == |s.aborted| == c.N()
  {
    s.(results := seq(c.N(), i requires 0 <= i < c.N() => if s.results[i].Undefined? then c.onAbandon(i) else s.results[i]),
       aborted := seq(c.N(), i requires 0 <= i < c.N() => s.aborted[i] || s.results[i].Undefined?),
       main := Returned,
       atFreeze := s.slices)
  }

  function Apply<T, E>(c: Config<T, E>, s: State<T>, e: Event): State<T>
    requires Enabled(c, s, e)
  {
    var open := !s.main.Returned?;
    match e
    case Settle(i) =>
      var won := open && c.Succeeds(i);
      s.(slices := s.slices[i := if c.scripts[i].Rejects? || (open && c.Thrown(i).Some?) then Thrown else Passed],
         results := if open && c.scripts[i].Fulfils? then s.results[i := c.scripts[i].result] else s.results,
         succeeded := if won then s.succeeded + 1 else s.succeeded,
         resolved := s.resolved || (won && s.succeeded + 1 >= c.K()))
    case Catch(i) =>
      var built := c.onError(c.Thrown(i).value, i);
      s.(slices := s.slices[i := Passed],
         results := if open && built.Returns? then s.results[i := built.placeholder] else s.results)
    case Finally(i) =>
      s.(slices := s.slices[i := Done],
         settled := if open then s.settled + 1 else s.settled,
         resolved := s.resolved || (open && s.settled + 1 >= c.N()))
    case Resume =>
      if s.settled < c.N() then
        s.(main := AwaitsGrace, timer := if c.timerIsSynchronous then Fired else Armed, graceOver := c.timerIsSynchronous)
      else
        Freeze(c, s)
    case TimerFires =>
      s.(timer := Fired, graceOver := true)
    case AllSettled =>
      s.(timer := if s.timer.Armed? then Cleared else s.timer, graceOver := true)
    case ResumeGrace =>
      Freeze(c, s)
    case ParentAborts =>
      s.(parentAborted := true,
         parentReached := s.parentReached || open,
         aborted := if open then seq(c.N(), _ => true) else s.aborted)
  }

  /** The state after the events of a run, or None when one of them could not happen. */
  ghost function Exec<T, E>(c: Config<T, E>, parentAborted: bool, run: seq<Event>): Option<State<T>> {
    if run == [] then Some(Start(c, parentAborted))
    else
      match Exec(c, parentAborted, Init(run))
      case None => None
      case Some(s) => if Enabled(c, s, Last(run)) then Some(Apply(c, s, Last(run))) else None
  }

  // ---- The invariant of every run ----

  ghost function DoneSet(slices: seq<Slice>): set<int> {
    set i | 0 <= i < |slices| && slices[i].Done?
  }

  /** The slices counted as successes: settled, and judged a success. */
  ghost function WonSet<T, E>(c: Config<T, E>, slices: seq<Slice>): set<int>
    requires |slices| == c.N()
  {
    set i | 0 <= i < |slices| && !slices[i].Running? && c.Succeeds(i)
  }

  ghost predicate AllDone(slices: seq<Slice>) {
    forall i | 0 <= i < |slices| :: slices[i].Done?
  }

  lemma AllDoneCount(slices: seq<Slice>)
    ensures |DoneSet(slices)| <= |slices|
    ensures |DoneSet(slices)| == |slices| <==> AllDone(slices)
  {
    SubsetSize(DoneSet(slices), |slices|);
    if DoneSet(slices) == Below(|slices|) {
      forall i | 0 <= i < |slices| ensures slices[i].Done? {
        assert i in Below(|slices|);
      }
    }
    if AllDone(slices) {
      assert DoneSet(slices) == Below(|slices|);
    }
  }

  ghost predicate Shape<T, E>(c: Config<T, E>, s: State<T>) {
    && |s.slices| == |s.results| == |s.aborted| == c.N()
    && (forall i | 0 <= i < c.N() && s.slices[i].Thrown? :: c.Thrown(i).Some?)
  }

  /** While the array is open: every entry is its slice's, and the counters count. */
  ghost predicate OpenInv<T, E>(c: Config<T, E>, s: State<T>)
    requires Shape(c, s)
  {
    && s.launched
    && (forall i | 0 <= i < c.N() :: s.results[i] == Slot(c, s.slices[i], i))
    && (forall i | 0 <= i < c.N() :: s.aborted[i] == s.parentReached)
    && s.parentReached == s.parentAborted
    && s.succeeded == |WonSet(c, s.slices)|
    && s.settled == |DoneSet(s.slices)|
    && (s.resolved <==> s.succeeded >= c.K() || (c.N() > 0 && s.settled >= c.N()))
    && (s.main.AwaitsQuorum? ==> s.timer.Unarmed? && !s.graceOver)
    && (s.main.AwaitsGrace? ==>
          && s.succeeded >= c.K()
          && (s.timer.Armed? ==> !s.graceOver)
          && (s.timer.Fired? ==> s.graceOver)
          && (s.timer.Cleared? ==> s.graceOver && AllDone(s.slices))
          && !s.timer.Unarmed?)
  }

  /** Once the array is handed back: what it holds, told by where each chain stood at the freeze. */
  ghost predicate ClosedInv<T, E>(c: Config<T, E>, s: State<T>)
    requires Shape(c, s)
  {
    && |s.atFreeze| == c.N()
    && !s.timer.Armed?
    && (forall i | 0 <= i < c.N() ::
          var slot := Slot(c, s.atFreeze[i], i);
          && s.results[i] == (if slot.Undefined? then c.onAbandon(i) else slot)
          && (s.aborted[i] <==> s.parentReached || slot.Undefined?))
    && (s.launched ==> AllDone(s.atFreeze) || (s.timer.Fired? && |WonSet(c, s.atFreeze)| >= c.K()))
    && (s.launched ==> c.N() > 0)
    && (!s.launched ==> s.parentReached && s.atFreeze == seq(c.N(), _ => Running))
  }

  ghost predicate Inv<T, E>(c: Config<T, E>, s: State<T>) {
    Shape(c, s) && if s.main.Returned? then ClosedInv(c, s) else OpenInv(c, s)
  }

  lemma StartInv<T, E>(c: Config<T, E>, parentAborted: bool)
    ensures Inv(c, Start(c, parentAborted))
  {
    var s := Start(c, parentAborted);
    assert WonSet(c, s.slices) == {};
    assert DoneSet(s.slices) == {};
  }

  lemma FreezeInv<T, E>(c: Config<T, E>, s: State<T>)
    requires Shape(c, s) && OpenInv(c, s) && c.N() > 0 && !s.timer.Armed?
    requires AllDone(s.slices) || (s.timer.Fired? && s.succeeded >= c.K())
    ensures Inv(c, Freeze(c, s))
  {
  }

  lemma SettleCounts<T, E>(c: Config<T, E>, slices: seq<Slice>, i: int, now: Slice)
    requires |slices| == c.N() && 0 <= i < c.N() && slices[i].Running? && (now.Thrown? || now.Passed?)
    ensures |DoneSet(slices[i := now])| == |DoneSet(slices)|
    ensures |WonSet(c, slices[i := now])| == |WonSet(c, slices)| + if c.Succeeds(i) then 1 else 0
    ensures !AllDone(slices)
  {
    assert DoneSet(slices[i := now]) == DoneSet(slices);
    assert WonSet(c, slices[i := now]) == WonSet(c, slices) + (if c.Succeeds(i) then {i} else {});
    assert i !in WonSet(c, slices);
  }

  lemma SettleInv<T, E>(c: Config<T, E>, s: State<T>, i: int)
    requires Inv(c, s) && Enabled(c, s, Settle(i)) && !s.main.Returned?
    ensures Inv(c, Apply(c, s, Settle(i)))
  {
    SettleCounts(c, s.slices, i, Apply(c, s, Settle(i)).slices[i]);
    assert !AllDone(s.slices);
  }

  lemma FinallyCounts<T, E>(c: Config<T, E>, slices: seq<Slice>, i: int)
    requires |slices| == c.N() && 0 <= i < c.N() && slices[i].Passed?
    ensures |DoneSet(slices[i := Done])| == |DoneSet(slices)| + 1
    ensures |WonSet(c, slices[i := Done])| == |WonSet(c, slices)|
  {
    assert DoneSet(slices[i := Done]) == DoneSet(slices) + {i};
    assert i !in DoneSet(slices);
    assert WonSet(c, slices[i := Done]) == WonSet(c, slices);
  }

  lemma FinallyInv<T, E>(c: Config<T, E>, s: State<T>, i: int)
    requires Inv(c, s) && Enabled(c, s, Finally(i)) && !s.main.Returned?
    ensures Inv(c, Apply(c, s, Finally(i)))
  {
    FinallyCounts(c, s.slices, i);
  }

  lemma CatchInv<T, E>(c: Config<T, E>, s: State<T>, i: int)
    requires Inv(c, s) && Enabled(c, s, Catch(i)) && !s.main.Returned?
    ensures Inv(c, Apply(c, s, Catch(i)))
  {
    var t := Apply(c, s, Catch(i));
    assert DoneSet(t.slices) == DoneSet(s.slices);
    assert WonSet(c, t.slices) == WonSet(c, s.slices);
  }

  lemma ResumeInv<T, E>(c: Config<T, E>, s: State<T>)
    requires Inv(c, s) && Enabled(c, s, Resume)
    ensures Inv(c, Apply(c, s, Resume))
  {
    AllDoneCount(s.slices);
    if s.settled >= c.N() { FreezeInv(c, s); }
  }

  lemma ParentInv<T, E>(c: Config<T, E>, s: State<T>)
    requires Inv(c, s) && Enabled(c, s, ParentAborts)
    ensures Inv(c, Apply(c, s, ParentAborts))
  {
  }

  /** Every event of every run keeps the invariant. */
  lemma StepInv<T, E>(c: Config<T, E>, s: State<T>, e: Event)
    requires Inv(c, s) && Enabled(c, s, e)
    ensures Inv(c, Apply(c, s, e))
  {
    match e
    case Settle(i) => if !s.main.Returned? { SettleInv(c, s, i); }
    case Catch(i) => if !s.main.Returned? { CatchInv(c, s, i); }
    case Finally(i) => if !s.main.Returned? { FinallyInv(c, s, i); }
    case Resume => ResumeInv(c, s);
    case TimerFires =>
    case AllSettled =>
    case ResumeGrace => AllDoneCount(s.slices); SubsetSize(WonSet(c, s.slices), c.N()); FreezeInv(c, s);
    case ParentAborts => ParentInv(c, s);
  }

  lemma {:induction false} RunInv<T, E>(c: Config<T, E>, parentAborted: bool, run: seq<Event>)
    requires Exec(c, parentAborted, run).Some?
    ensures Inv(c, Exec(c, parentAborted, run).value)
    ensures Exec(c, parentAborted, run).value.launched == !parentAborted
  {
    if run == [] {
      StartInv(c, parentAborted);
    } else {
      RunInv(c, parentAborted, Init(run));
      StepInv(c, Exec(c, parentAborted, Init(run)).value, Last(run));
    }
  }

  // ---- What each slice is owed, and when the wait is over, told by the runners alone ----

  /** A slice is owed the result it was fulfilled with, judged or not; the `onError` value when it was rejected or judging
      it threw; and, when `onError` throws too, what stood there before: the result judged, or nothing. */
  lemma OwnIs<T, E>(c: Config<T, E>, i: int)
    requires 0 <= i < c.N()
    ensures forall v | c.scripts[i] == Fulfils(v) ::
      && (!c.isSuccess(v).Throws? ==> c.Own(i) == v)
      && (c.isSuccess(v).Throws? ==>
            c.Own(i) == match c.onError(c.isSuccess(v).error, i) case Returns(p) => p case Fails => v)
    ensures forall e | c.scripts[i] == Rejects(e) :: c.Own(i) == match c.onError(e, i) case Returns(p) => p case Fails => Undefined
  {
  }

  /** The slices that have settled with a result judged a success. */
  ghost function Winners<T, E>(c: Config<T, E>, slices: seq<Slice>): set<int>
    requires |slices| == c.N()
  {
    set i | 0 <= i < |slices| && !slices[i].Running? && c.scripts[i].Fulfils? && c.isSuccess(c.scripts[i].result) == Success
  }

  /** Enough to stop waiting: some success, and k of them or, when there are fewer runners than k, as many as runners. */
  ghost predicate Enough<T, E>(c: Config<T, E>, slices: seq<Slice>)
    requires |slices| == c.N()
  {
    |Winners(c, slices)| > 0 && (|Winners(c, slices)| >= c.k || |Winners(c, slices)| == c.N())
  }

  lemma EnoughIff<T, E>(c: Config<T, E>, slices: seq<Slice>)
    requires |slices| == c.N()
    ensures Enough(c, slices) <==> |WonSet(c, slices)| >= c.K()
  {
    assert Winners(c, slices) == WonSet(c, slices);
    SubsetSize(WonSet(c, slices), c.N());
  }

  /** While a run has not returned, `resolveDone` has been called exactly if there were enough successes, or if all of at
      least one runner are through. */
  lemma ResolvedIff<T, E>(c: Config<T, E>, run: seq<Event>)
    requires Exec(c, false, run).Some? && !Exec(c, false, run).value.main.Returned?
    ensures var s := Exec(c, false, run).value;
      |s.slices| == c.N() && (s.resolved <==> Enough(c, s.slices) || (c.N() > 0 && AllDone(s.slices)))
  {
    RunInv(c, false, run);
    var s := Exec(c, false, run).value;
    EnoughIff(c, s.slices);
    AllDoneCount(s.slices);
  }

  /** The grace window opens only when some slice is not through; else the array is handed back at once. */
  lemma GraceOnlyForStragglers<T, E>(c: Config<T, E>, run: seq<Event>)
    requires Exec(c, false, run).Some? && Enabled(c, Exec(c, false, run).value, Resume)
    ensures var s := Exec(c, false, run).value; var t := Apply(c, s, Resume);
      if AllDone(s.slices) then t.main.Returned? && t.timer.Unarmed? else t.main.AwaitsGrace? && t.results == s.results
  {
    RunInv(c, false, run);
    AllDoneCount(Exec(c, false, run).value.slices);
  }

  // ---- Safety ----

  /** Slice i was still owed its entry when the array was frozen. */
  ghost predicate Abandoned<T, E>(c: Config<T, E>, s: State<T>, i: int)
    requires |s.atFreeze| == c.N() && 0 <= i < c.N()
  {
    Slot(c, s.atFreeze[i], i).Undefined?
  }

  /** The array of every run that returns: each entry is its slice's own, unless the slice is abandoned
      and its signal aborted; and slices are cut short only after k successes and a grace timer
      that fired. Signals of delivered slices are left alone unless the parent aborted. */
  lemma QuorumSafety<T, E>(c: Config<T, E>, run: seq<Event>)
    requires Exec(c, false, run).Some? && Exec(c, false, run).value.main.Returned?
    ensures var s := Exec(c, false, run).value;
      && |s.results| == |s.aborted| == |s.atFreeze| == c.N()
      && (forall i | 0 <= i < c.N() ::
            if Abandoned(c, s, i) then s.results[i] == c.onAbandon(i) && s.aborted[i]
            else s.results[i] in {c.Own(i), c.First(i)} && s.results[i].Defined?)
      && (forall i | 0 <= i < c.N() :: s.aborted[i] <==> s.parentReached || Abandoned(c, s, i))
      && ((exists i | 0 <= i < c.N() :: !s.atFreeze[i].Done?) ==> s.timer.Fired? && Enough(c, s.atFreeze))
  {
    RunInv(c, false, run);
    EnoughIff(c, Exec(c, false, run).value.atFreeze);
  }

  /** With fewer than k successes, or without the timer having fired, every slice's own outcome is
      returned; a placeholder then stands exactly where that outcome is `undefined`. */
  lemma EveryOutcomeWithoutQuorumTimeout<T, E>(c: Config<T, E>, run: seq<Event>)
    requires Exec(c, false, run).Some? && Exec(c, false, run).value.main.Returned?
    requires var s := Exec(c, false, run).value;
      !s.timer.Fired? || (|s.atFreeze| == c.N() && !Enough(c, s.atFreeze))
    ensures var s := Exec(c, false, run).value;
      && |s.results| == |s.atFreeze| == c.N()
      && forall i | 0 <= i < c.N() ::
           && (Abandoned(c, s, i) <==> c.Own(i).Undefined?)
           && s.results[i] == (if c.Own(i).Undefined? then c.onAbandon(i) else c.Own(i))
  {
    RunInv(c, false, run);
    var s := Exec(c, false, run).value;
    EnoughIff(c, s.atFreeze);
    assert AllDone(s.atFreeze);
    forall i | 0 <= i < c.N()
      ensures Slot(c, s.atFreeze[i], i) == c.Own(i)
    {
      assert s.atFreeze[i].Done?;
    }
  }

  /** A runner that succeeds with `undefined` is replaced by an abandon placeholder and its signal
      aborted, although every slice settled and no timer fired. */
  lemma UndefinedSuccessIsAbandoned(c: Config<string, string>)
    requires c.scripts == [Fulfils(Undefined)] && c.isSuccess(Undefined) == Success && !c.timerIsSynchronous
    ensures var end := Exec(c, false, [Settle(0), Resume, Finally(0), AllSettled, ResumeGrace]);
      end.Some? && end.value.main.Returned? && end.value.timer.Cleared?
      && end.value.results == [c.onAbandon(0)] && end.value.aborted == [true]
  {
    var r1, r2, r3, r4, r5 := [Settle(0)], [Settle(0), Resume], [Settle(0), Resume, Finally(0)],
      [Settle(0), Resume, Finally(0), AllSettled], [Settle(0), Resume, Finally(0), AllSettled, ResumeGrace];
    assert Init(r1) == [] && Init(r2) == r1 && Init(r3) == r2 && Init(r4) == r3 && Init(r5) == r4;
    assert Exec(c, false, []) == Some(Start(c, false));
    assert Exec(c, false, r1) == Some(Apply(c, Start(c, false), Settle(0)));
    assert Exec(c, false, r2).Some? && Exec(c, false, r2).value.main.AwaitsGrace?;
    assert Exec(c, false, r3).Some? && Exec(c, false, r3).value.slices == [Done];
    assert Exec(c, false, r4).Some? && Exec(c, false, r4).value.graceOver;
  }

  /** A parent aborted before the call: no runner starts, every signal is aborted, every entry is a
      placeholder, and no later event changes that. */
  lemma PreAbortedAbandonsAll<T, E>(c: Config<T, E>, run: seq<Event>)
    requires Exec(c, true, run).Some?
    ensures var s := Exec(c, true, run).value;
      && s.main.Returned? && s.results == seq(c.N(), i => c.onAbandon(i))
      && s.aborted == seq(c.N(), _ => true) && s.slices == seq(c.N(), _ => Running)
    decreases |run|
  {
    if run != [] {
      PreAbortedAbandonsAll(c, Init(run));
      RunInv(c, true, Init(run));
    }
  }

  lemma FrozenStep<T, E>(c: Config<T, E>, s: State<T>, e: Event)
    requires Inv(c, s) && Enabled(c, s, e) && s.main.Returned?
    ensures var t := Apply(c, s, e); t.main.Returned? && t.results == s.results && t.aborted == s.aborted && t.timer == s.timer
  {
  }

  /** Nothing writes the array, or touches a signal, after it was handed back. */
  lemma {:induction false} FrozenForGood<T, E>(c: Config<T, E>, parentAborted: bool, run: seq<Event>, more: seq<Event>)
    requires Exec(c, parentAborted, run).Some? && Exec(c, parentAborted, run).value.main.Returned?
    requires Exec(c, parentAborted, run + more).Some?
    ensures var s, t := Exec(c, parentAborted, run).value, Exec(c, parentAborted, run + more).value;
      t.main.Returned? && t.results == s.results && t.aborted == s.aborted && t.timer == s.timer
    decreases |more|
  {
    if more == [] {
      assert run + more == run;
    } else {
      assert Init(run + more) == run + Init(more);
      FrozenForGood(c, parentAborted, run, Init(more));
      RunInv(c, parentAborted, run + Init(more));
      FrozenStep(c, Exec(c, parentAborted, run + Init(more)).value, Last(more));
    }
  }

  // ---- Progress ----

  function SliceRank(s: Slice): nat {
    match s case Running => 3 case Thrown => 2 case Passed => 1 case Done => 0
  }

  function SlicesRank(slices: seq<Slice>): nat {
    if slices == [] then 0 else SliceRank(slices[0]) + SlicesRank(slices[1..])
  }

  /** How many more events a run can have at most. */
  function Rank<T>(s: State<T>): nat {
    SlicesRank(s.slices)
    + (match s.main case AwaitsQuorum => 3 case AwaitsGrace => if s.graceOver then 1 else 2 case Returned => 0)
    + (if s.parentAborted then 0 else 1)
  }

  lemma {:induction false} SlicesRankUpdate(slices: seq<Slice>, i: int, now: Slice)
    requires 0 <= i < |slices|
    ensures SlicesRank(slices[i := now]) == SlicesRank(slices) - SliceRank(slices[i]) + SliceRank(now)
  {
    if i > 0 {
      SlicesRankUpdate(slices[1..], i - 1, now);
      assert slices[i := now][1..] == slices[1..][i - 1 := now];
    } else {
      assert slices[i := now][1..] == slices[1..];
    }
  }

  /** Every event uses up at least one unit of rank. */
  lemma StepRank<T, E>(c: Config<T, E>, s: State<T>, e: Event)
    requires Inv(c, s) && Enabled(c, s, e)
    ensures Rank(Apply(c, s, e)) < Rank(s)
  {
    match e
    case Settle(i) => SlicesRankUpdate(s.slices, i, Apply(c, s, e).slices[i]);
    case Catch(i) => SlicesRankUpdate(s.slices, i, Passed);
    case Finally(i) => SlicesRankUpdate(s.slices, i, Done);
    case _ =>
  }

  lemma {:induction false} FreshRank(n: nat)
    ensures SlicesRank(seq(n, _ => Running)) == 3 * n
  {
    if n > 0 {
      FreshRank(n - 1);
      assert seq(n, _ => Running)[1..] == seq(n - 1, _ => Running);
    }
  }

  /** No run has more than 3n + 4 events. */
  lemma {:induction false} RunsAreFinite<T, E>(c: Config<T, E>, run: seq<Event>)
    requires Exec(c, false, run).Some?
    ensures |run| + Rank(Exec(c, false, run).value) <= 3 * c.N() + 4
  {
    if run == [] {
      FreshRank(c.N());
    } else {
      RunsAreFinite(c, Init(run));
      RunInv(c, false, Init(run));
      StepRank(c, Exec(c, false, Init(run)).value, Last(run));
    }
  }

  /** The event that brings an unreturned state of at least one runner forward. After a quorum it
      never waits for a slice: only the main turn or the grace timer. */
  function NextEvent<T, E>(c: Config<T, E>, s: State<T>): Event
    requires |s.slices| == c.N()
  {
    if s.main.AwaitsQuorum? && s.resolved then Resume
    else if s.main.AwaitsGrace? then (if s.graceOver then ResumeGrace else TimerFires)
    else if exists i | 0 <= i < c.N() :: s.slices[i].Running? then
      Settle(FirstAt(s.slices, Running))
    else if exists i | 0 <= i < c.N() :: s.slices[i].Thrown? then
      Catch(FirstAt(s.slices, Thrown))
    else
      Finally(FirstAt(s.slices, Passed))
  }

  function FirstAt(slices: seq<Slice>, at: Slice): (i: int)
    ensures at in slices ==> 0 <= i < |slices| && slices[i] == at
  {
    if slices == [] || slices[0] == at then 0 else 1 + FirstAt(slices[1..], at)
  }

  /** With at least one runner no run is stuck before it returns; together with `RunsAreFinite`, every
      run in which slices settle, or k succeed and the timer fires, returns. */
  lemma NeverStuck<T, E>(c: Config<T, E>, run: seq<Event>)
    requires Exec(c, false, run).Some? && !Exec(c, false, run).value.main.Returned?
    requires c.N() > 0
    ensures var s := Exec(c, false, run).value;
      && |s.slices| == c.N()
      && Enabled(c, s, NextEvent(c, s))
      && (s.resolved ==> NextEvent(c, s) in {Resume, ResumeGrace, TimerFires})
  {
    RunInv(c, false, run);
    var s := Exec(c, false, run).value;
    AllDoneCount(s.slices);
    if s.main.AwaitsQuorum? && !s.resolved {
      var i :| 0 <= i < c.N() && !s.slices[i].Done?;
      assert s.slices[i] in s.slices;
    }
  }

  lemma ExecStep<T, E>(c: Config<T, E>, run: seq<Event>, e: Event)
    requires Exec(c, false, run).Some? && Enabled(c, Exec(c, false, run).value, e)
    ensures Exec(c, false, run + [e]) == Some(Apply(c, Exec(c, false, run).value, e))
  {
    assert Init(run + [e]) == run;
  }

  lemma StaysResolved<T, E>(c: Config<T, E>, s: State<T>, e: Event)
    requires Enabled(c, s, e) && s.resolved
    ensures Apply(c, s, e).resolved
  {
  }

  predicate IsMainEvent(e: Event) {
    e in {Resume, ResumeGrace, TimerFires}
  }

  ghost predicate Happens<T, E>(c: Config<T, E>, run: seq<Event>) {
    Exec(c, false, run).Some?
  }

  ghost predicate HasReturned<T, E>(c: Config<T, E>, run: seq<Event>) {
    Happens(c, run) && Exec(c, false, run).value.main.Returned?
  }

  ghost predicate HasQuorum<T, E>(c: Config<T, E>, run: seq<Event>) {
    Happens(c, run) && Exec(c, false, run).value.resolved
  }

  /** The rank of what a run has come to. */
  ghost function RankOf<T, E>(c: Config<T, E>, run: seq<Event>): nat {
    if Happens(c, run) then Rank(Exec(c, false, run).value) else 0
  }

  lemma OneMore<T, E>(c: Config<T, E>, run: seq<Event>) returns (e: Event)
    requires Happens(c, run) && !HasReturned(c, run) && c.N() > 0
    ensures Happens(c, run + [e]) && RankOf(c, run + [e]) < RankOf(c, run)
    ensures HasQuorum(c, run) ==> HasQuorum(c, run + [e]) && IsMainEvent(e)
  {
    var s := Exec(c, false, run).value;
    NeverStuck(c, run);
    RunInv(c, false, run);
    e := NextEvent(c, s);
    StepRank(c, s, e);
    ExecStep(c, run, e);
    if s.resolved { StaysResolved(c, s, e); }
  }

  /** Every run of at least one runner, however far it has got, goes on to one that returns: once `resolveDone` was
      called by the main turn and the grace timer alone, without waiting for any slice. */
  lemma {:induction false} EveryRunReturns<T, E>(c: Config<T, E>, run: seq<Event>) returns (more: seq<Event>)
    requires Happens(c, run) && c.N() > 0
    ensures HasReturned(c, run + more) && |more| <= RankOf(c, run)
    ensures HasQuorum(c, run) ==> forall e | e in more :: IsMainEvent(e)
    decreases RankOf(c, run)
  {
    if HasReturned(c, run) {
      more := [];
      assert run + more == run;
    } else {
      var e := OneMore(c, run);
      var rest := EveryRunReturns(c, run + [e]);
      more := [e] + rest;
      Associates(run, [e], rest);
    }
  }

  /** Such a run ends in exactly one return: main events are over once the array is out. */
  lemma ReturnsOnce<T, E>(c: Config<T, E>, s: State<T>, e: Event)
    requires Inv(c, s) && s.main.Returned? && Enabled(c, s, e)
    ensures e !in {Resume, ResumeGrace, TimerFires, AllSettled} && Apply(c, s, e).main.Returned?
  {
  }

  /** Without runners nobody ever calls resolveDone, and no run returns. */
  lemma {:induction false} ZeroRunnersNeverReturn<T, E>(c: Config<T, E>, run: seq<Event>)
    requires c.N() == 0 && Exec(c, false, run).Some?
    ensures !Exec(c, false, run).value.main.Returned?
  {
    RunInv(c, false, run);
    var s := Exec(c, false, run).value;
    if s.main.Returned? {
      assert false;
    }
  }

  // ---- The drain itself: one object whose handlers fill the array in place ----

  class Drain<T, E> {
    const c: Config<T, E>
    const k: int
    const results: array<JsValue<T>>
    const aborts: array<bool>
    var succeeded: nat
    var settled: nat
    var finalized: bool
    var resolved: bool
    var timer: Timer
    var graceDone: bool
    var parentAborted: bool
    ghost var parentReached: bool
    ghost var launched: bool
    ghost var chains: seq<Slice>
    ghost var main: Main
    ghost var atFreeze: seq<Slice>

    ghost predicate Valid()
      reads this
    {
      results.Length == aborts.Length == |chains| == c.N() && k == c.K() && (finalized <==> main.Returned?)
    }

    ghost function View(): State<T>
      reads this, results, aborts
    {
      State(launched, chains, results[..], aborts[..], succeeded, settled, resolved, main, timer, graceDone,
            parentAborted, parentReached, atFreeze)
    }

    /** Lines 33 to 60: launch every runner, unless the parent is aborted already. */
    constructor (c: Config<T, E>, parentAborted: bool)
      ensures Valid() && this.c == c && View() == Start(c, parentAborted)
      ensures fresh(results) && fresh(aborts)
    {
      this.c := c;
      k := c.K();
      if parentAborted {
        results := new JsValue<T>[c.N()](i => c.onAbandon(i));
      } else {
        results := new JsValue<T>[c.N()](_ => Undefined);
      }
      aborts := new bool[c.N()](_ => parentAborted);
      succeeded, settled := 0, 0;
      finalized, resolved, timer, graceDone := parentAborted, false, Unarmed, false;
      this.parentAborted, parentReached, launched := parentAborted, parentAborted, !parentAborted;
      chains := seq(c.N(), _ => Running);
      main := if parentAborted then Returned else AwaitsQuorum;
      atFreeze := if parentAborted then seq(c.N(), _ => Running) else [];
    }

    /** The runner of slice i settles: the `.then` handler, line 57. */
    method SliceSettles(i: int)
      requires Valid() && Enabled(c, View(), Settle(i))
      modifies this, results
      ensures Valid() && View() == Apply(c, old(View()), Settle(i))
    {
      match c.scripts[i]
      case Fulfils(r) => SliceFulfils(i, r);
      case Rejects(_) => chains := chains[i := Thrown];
    }

    method SliceFulfils(i: int, r: JsValue<T>)
      requires Valid() && Enabled(c, View(), Settle(i)) && c.scripts[i] == Fulfils(r)
      modifies this`chains, this`succeeded, this`resolved, results
      ensures Valid() && View() == Apply(c, old(View()), Settle(i))
    {
      chains := chains[i := Passed];
      if !finalized {
        StoreResult(i, r);
        Judge(i, c.isSuccess(r));
      }
    }

    method StoreResult(i: int, r: JsValue<T>)
      requires 0 <= i < results.Length
      modifies results
      ensures results[..] == old(results[..])[i := r]
    {
      results[i] := r;
    }

    method Judge(i: int, verdict: Verdict<E>)
      requires Valid() && 0 <= i < c.N() && chains[i].Passed?
      modifies this`succeeded, this`resolved, this`chains
      ensures Valid()
      ensures chains == if verdict.Throws? then old(chains)[i := Thrown] else old(chains)
      ensures succeeded == old(succeeded) + if verdict.Success? then 1 else 0
      ensures resolved == (old(resolved) || (verdict.Success? && succeeded >= k))
    {
      match verdict
      case Success =>
        succeeded := succeeded + 1;
        if succeeded >= k { resolved := true; }
      case NoSuccess =>
      case Throws(_) => chains := chains[i := Thrown];
    }

    /** The `.catch` handler, line 58. */
    method SliceCatches(i: int)
      requires Valid() && Enabled(c, View(), Catch(i))
      modifies this, results
      ensures Valid() && View() == Apply(c, old(View()), Catch(i))
    {
      chains := chains[i := Passed];
      if !finalized {
        match c.onError(c.Thrown(i).value, i)
        case Returns(v) => results[i] := v;
        case Fails =>
      }
    }

    /** The `.finally` handler, line 59. */
    method SliceFinishes(i: int)
      requires Valid() && Enabled(c, View(), Finally(i))
      modifies this
      ensures Valid() && View() == Apply(c, old(View()), Finally(i))
    {
      chains := chains[i := Done];
      if !finalized {
        settled := settled + 1;
        if settled >= c.N() { resolved := true; }
      }
    }

    /** Lines 62 to 82: past the quorum, wait out the grace window if slices are still in flight. */
    method QuorumReached()
      requires Valid() && Enabled(c, View(), Resume)
      modifies this, results, aborts
      ensures Valid() && View() == Apply(c, old(View()), Resume)
    {
      if settled < c.N() {
        main := AwaitsGrace;
        graceDone := false;
        timer := Armed;
        if c.timerIsSynchronous { Finish(); timer := Fired; }
      } else {
        HandBack();
      }
    }

    /** `finish`, line 78: idempotent, and it clears an armed timer. */
    method Finish()
      requires Valid()
      modifies this`graceDone, this`timer
      ensures graceDone && timer == (if !old(graceDone) && old(timer).Armed? then Cleared else old(timer))
    {
      if !graceDone {
        graceDone := true;
        if timer.Armed? { timer := Cleared; }
      }
    }

    method GraceElapses()
      requires Valid() && Enabled(c, View(), TimerFires)
      modifies this`graceDone, this`timer
      ensures Valid() && View() == Apply(c, old(View()), TimerFires)
    {
      timer := Fired;
      Finish();
    }

    method AllTasksSettled()
      requires Valid() && Enabled(c, View(), AllSettled)
      modifies this`graceDone, this`timer
      ensures Valid() && View() == Apply(c, old(View()), AllSettled)
    {
      Finish();
    }

    /** The freezing loop, lines 87 to 92: whatever is still missing is abandoned. */
    method AbandonMissing()
      requires results.Length == aborts.Length == c.N()
      modifies results, aborts
      ensures forall j | 0 <= j < c.N() :: results[j] == (if old(results[j]).Undefined? then c.onAbandon(j) else old(results[j]))
      ensures forall j | 0 <= j < c.N() :: aborts[j] == (old(aborts[j]) || old(results[j]).Undefined?)
    {
      for i := 0 to c.N()
        invariant forall j | i <= j < c.N() :: results[j] == old(results[j]) && aborts[j] == old(aborts[j])
        invariant forall j | 0 <= j < i :: results[j] == (if old(results[j]).Undefined? then c.onAbandon(j) else old(results[j]))
        invariant forall j | 0 <= j < i :: aborts[j] == (old(aborts[j]) || old(results[j]).Undefined?)
      {
        if results[i].Undefined? {
          aborts[i] := true;
          results[i] := c.onAbandon(i);
        }
      }
    }

    /** Lines 84 to 94: freeze the array. */
    method HandBack()
      requires Valid() && !finalized
      modifies this`finalized, this`main, this`atFreeze, results, aborts
      ensures Valid() && View() == Freeze(c, old(View()))
    {
      finalized := true;
      main := Returned;
      atFreeze := chains;
      AbandonMissing();
    }

    /** The parent's abort listener, line 36; it is detached once the array is handed back. */
    method ParentAbort()
      requires Valid() && Enabled(c, View(), ParentAborts)
      modifies this, aborts
      ensures Valid() && View() == Apply(c, old(View()), ParentAborts)
    {
      parentAborted := true;
      if !finalized {
        parentReached := true;
        for i := 0 to c.N()
          modifies aborts
          invariant forall j | 0 <= j < i :: aborts[j]
        {
          aborts[i] := true;
        }
      }
    }
  }
}
