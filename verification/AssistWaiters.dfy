/** Waiting for a human in a browser run (packages/core/src/agent/browser-session.ts, lines 90 to 202).

    Every call of the manager and every firing of a timer is one turn. A wait is told by the number of the
    `requestAssist` call that made it. The listeners of the manager's events do not call back into it while
    they are told; what happens when one does is shown at the end. */
module AssistWaiters {
  import opened Common

  datatype SessionState = Active | AssistRequested | ActiveResolved | Stopped

  datatype Outcome = OutcomeResolved | OutcomeTimeout | OutcomeStopped

  /** A pending request: its timer and, in the order its chained resolver reaches them, its waits. */
  datatype Pending = Pending(timer: nat, waiters: seq<nat>)

  /** What a timer's callback holds on to: the session and the one `resolve` that made it. */
  datatype Timer = Timer(session: string, waiter: nat)

  /** One call of a wait's `resolve`. */
  datatype Delivery = Delivery(waiter: nat, outcome: Outcome)

  datatype State = State(
    sessions: map<string, SessionState>,
    pending: map<string, Pending>,
    armed: map<nat, Timer>,
    timersMade: nat,
    calls: nat,
    delivered: seq<Delivery>)

  datatype Event =
    | Register(id: string)
    | RequestAssist(id: string)
    | TimerFires(timer: nat)
    | ResolveAssist(id: string)
    | Stop(id: string)

  const START := State(map[], map[], map[], 0, 0, [])

  predicate Enabled(s: State, e: Event) {
    match e
    case Register(id) => id !in s.sessions
    case TimerFires(t) => t in s.armed
    case _ => true
  }

  function Deliveries(waiters: seq<nat>, outcome: Outcome): seq<Delivery> {
    seq(|waiters|, i requires 0 <= i < |waiters| => Delivery(waiters[i], outcome))
  }

  /** Clears the timer, forgets the request and tells all its waits: lines 177 to 180 and 192 to 195. */
  function Settled(s: State, id: string, outcome: Outcome): State {
    if id !in s.pending then s
    else
      s.(armed := s.armed - {s.pending[id].timer},
         pending := s.pending - {id},
         delivered := s.delivered + Deliveries(s.pending[id].waiters, outcome))
  }

  /** The first part of a new request, up to the event that tells its listeners. */
  function RequestBegins(s: State, id: string): State {
    s.(sessions := s.sessions[id := AssistRequested])
  }

  /** The rest: the timer and the pending entry. */
  function RequestEnds(s: State, id: string): State {
    s.(pending := s.pending[id := Pending(s.timersMade, [s.calls])],
       armed := s.armed[s.timersMade := Timer(id, s.calls)],
       timersMade := s.timersMade + 1,
       calls := s.calls + 1)
  }

  function Apply(s: State, e: Event): State
    requires Enabled(s, e)
  {
    match e
    case Register(id) => s.(sessions := s.sessions[id := Active])
    case RequestAssist(id) =>
      if id !in s.sessions then s.(calls := s.calls + 1, delivered := s.delivered + [Delivery(s.calls, OutcomeStopped)])
      else if id in s.pending then
        s.(calls := s.calls + 1, pending := s.pending[id := s.pending[id].(waiters := s.pending[id].waiters + [s.calls])])
      else RequestEnds(RequestBegins(s, id), id)
    case TimerFires(t) =>
      var id := s.armed[t].session;
      s.(armed := s.armed - {t},
         pending := s.pending - {id},
         sessions := if id in s.sessions && s.sessions[id] == AssistRequested then s.sessions[id := Active] else s.sessions,
         delivered := s.delivered + [Delivery(s.armed[t].waiter, OutcomeTimeout)])
    case ResolveAssist(id) =>
      if id !in s.sessions then s
      else Settled(s.(sessions := s.sessions[id := ActiveResolved]), id, OutcomeResolved)
    case Stop(id) =>
      if id !in s.sessions then s
      else Settled(s, id, OutcomeStopped).(sessions := s.sessions[id := Stopped])
  }

  ghost function Exec(run: seq<Event>): Option<State> {
    if run == [] then Some(START)
    else
      match Exec(Init(run))
      case None => None
      case Some(s) => if Enabled(s, Last(run)) then Some(Apply(s, Last(run))) else None
  }

  // ----- The invariant of every run.

  /** A session has a pending request, with one armed timer of its own, exactly while it asks for a human. */
  ghost predicate Agreement(s: State) {
    && (forall id :: id in s.pending <==> id in s.sessions && s.sessions[id] == AssistRequested)
    && (forall id | id in s.pending :: HasItsTimer(s, id))
    && (forall t | t in s.armed :: t < s.timersMade && s.armed[t].session in s.pending && s.pending[s.armed[t].session].timer == t)
  }

  ghost predicate HasItsTimer(s: State, id: string)
    requires id in s.pending
  {
    var p := s.pending[id];
    p.waiters != [] && p.timer in s.armed && s.armed[p.timer] == Timer(id, p.waiters[0])
  }

  ghost predicate Told(delivered: seq<Delivery>, w: nat) {
    exists i | 0 <= i < |delivered| :: delivered[i].waiter == w
  }

  ghost predicate Waits(s: State, w: nat) {
    exists id | id in s.pending :: w in s.pending[id].waiters
  }

  ghost predicate Distinct(ws: seq<nat>) {
    forall i, j | 0 <= i < j < |ws| :: ws[i] != ws[j]
  }

  /** Waits that are there once each and have not been told. */
  ghost predicate Untold(ws: seq<nat>, calls: nat, delivered: seq<Delivery>) {
    Distinct(ws) && forall i | 0 <= i < |ws| :: ws[i] < calls && !Told(delivered, ws[i])
  }

  /** No wait is told twice, and none that waits has been told or waits in two places. */
  ghost predicate OnceEach(s: State) {
    && (forall i, j | 0 <= i < j < |s.delivered| :: s.delivered[i].waiter != s.delivered[j].waiter)
    && (forall i | 0 <= i < |s.delivered| :: s.delivered[i].waiter < s.calls)
    && (forall id | id in s.pending :: Untold(s.pending[id].waiters, s.calls, s.delivered))
    && (forall id, id', w | id in s.pending && id' in s.pending && w in s.pending[id].waiters && w in s.pending[id'].waiters :: id == id')
  }

  ghost predicate Inv(s: State) {
    Agreement(s) && OnceEach(s)
  }

  lemma RequestAgrees(s: State, id: string)
    requires Agreement(s)
    ensures Agreement(Apply(s, RequestAssist(id)))
  {
    var s' := Apply(s, RequestAssist(id));
    forall other | other in s'.pending ensures HasItsTimer(s', other) {
      assert other in s.pending ==> HasItsTimer(s, other);
    }
  }

  lemma TimeoutAgrees(s: State, t: nat)
    requires Agreement(s) && t in s.armed
    ensures Agreement(Apply(s, TimerFires(t)))
  {
    var s' := Apply(s, TimerFires(t));
    forall other | other in s'.pending ensures HasItsTimer(s', other) {
      assert HasItsTimer(s, other);
    }
  }

  /** A request that is settled, in a session that then asks no more. */
  lemma SettledAgrees(s: State, id: string, outcome: Outcome, s': State)
    requires Agreement(s) && id in s.sessions && id in s'.sessions && s'.sessions[id] != AssistRequested
    requires s'.sessions == s.sessions[id := s'.sessions[id]] && s'.timersMade == s.timersMade
    requires s'.pending == Settled(s, id, outcome).pending && s'.armed == Settled(s, id, outcome).armed
    ensures Agreement(s')
  {
    forall other | other in s'.pending ensures HasItsTimer(s', other) {
      assert HasItsTimer(s, other);
    }
  }

  lemma StepAgreement(s: State, e: Event)
    requires Agreement(s) && Enabled(s, e)
    ensures Agreement(Apply(s, e))
  {
    match e
    case Register(id) =>
      forall other | other in s.pending ensures HasItsTimer(Apply(s, e), other) {
        assert HasItsTimer(s, other);
      }
    case RequestAssist(id) => RequestAgrees(s, id);
    case TimerFires(t) => TimeoutAgrees(s, t);
    case ResolveAssist(id) => if id in s.sessions { SettledAgrees(s, id, OutcomeResolved, Apply(s, e)); }
    case Stop(id) => if id in s.sessions { SettledAgrees(s, id, OutcomeStopped, Apply(s, e)); }
  }

  lemma ToldMore(delivered: seq<Delivery>, more: seq<Delivery>, w: nat)
    ensures Told(delivered + more, w) <==> Told(delivered, w) || Told(more, w)
  {
    var all := delivered + more;
    assert forall i | 0 <= i < |delivered| :: all[i] == delivered[i];
    assert forall i | 0 <= i < |more| :: all[|delivered| + i] == more[i];
  }

  lemma ToldOne(d: Delivery, w: nat)
    ensures Told([d], w) <==> w == d.waiter
  {
    assert [d][0] == d;
  }

  /** Forgetting a request and telling some of its waits. */
  lemma ForgetRequest(s: State, id: string, more: seq<Delivery>, s': State)
    requires OnceEach(s) && id in s.pending
    requires forall i | 0 <= i < |more| :: more[i].waiter in s.pending[id].waiters
    requires forall i, j | 0 <= i < j < |more| :: more[i].waiter != more[j].waiter
    requires s'.pending == s.pending - {id} && s'.delivered == s.delivered + more && s'.calls == s.calls
    ensures OnceEach(s')
  {
    assert Untold(s.pending[id].waiters, s.calls, s.delivered);
    forall other | other in s'.pending ensures Untold(s'.pending[other].waiters, s'.calls, s'.delivered) {
      var ws := s.pending[other].waiters;
      assert Untold(ws, s.calls, s.delivered);
      forall i | 0 <= i < |ws| ensures !Told(s'.delivered, ws[i]) {
        ToldMore(s.delivered, more, ws[i]);
      }
    }
    forall i, j | 0 <= i < j < |s'.delivered| ensures s'.delivered[i].waiter != s'.delivered[j].waiter {
      if i < |s.delivered| <= j {
        assert s'.delivered[j] == more[j - |s.delivered|];
        assert Told(s.delivered, s.delivered[i].waiter);
      }
    }
  }

  /** A new wait joins a request or starts one. */
  lemma NewCall(s: State, id: string, p: Pending, s': State)
    requires OnceEach(s)
    requires p.waiters == (if id in s.pending then s.pending[id].waiters else []) + [s.calls]
    requires s'.pending == s.pending[id := p] && s'.delivered == s.delivered && s'.calls == s.calls + 1
    ensures OnceEach(s')
  {
    assert !Told(s.delivered, s.calls);
    forall other | other in s'.pending ensures Untold(s'.pending[other].waiters, s'.calls, s'.delivered) {
      if other in s.pending { assert Untold(s.pending[other].waiters, s.calls, s.delivered); }
    }
    forall a, b, w | a in s'.pending && b in s'.pending && w in s'.pending[a].waiters && w in s'.pending[b].waiters ensures a == b {
      OldOrNew(s, id, p, a, w);
      OldOrNew(s, id, p, b, w);
      if w == s.calls {
        OldAreOld(s, a, w);
        OldAreOld(s, b, w);
      }
    }
  }

  lemma OldOrNew(s: State, id: string, p: Pending, a: string, w: nat)
    requires p.waiters == (if id in s.pending then s.pending[id].waiters else []) + [s.calls]
    requires a in s.pending[id := p] && w in s.pending[id := p][a].waiters
    ensures (w == s.calls && a == id) || (a in s.pending && w in s.pending[a].waiters)
  {
  }

  lemma OldAreOld(s: State, a: string, w: nat)
    requires OnceEach(s)
    ensures a in s.pending && w in s.pending[a].waiters ==> w < s.calls
  {
    if a in s.pending { assert Untold(s.pending[a].waiters, s.calls, s.delivered); }
  }

  lemma StepOnceEach(s: State, e: Event)
    requires Inv(s) && Enabled(s, e)
    ensures OnceEach(Apply(s, e))
  {
    var s' := Apply(s, e);
    match e
    case Register(_) =>
    case RequestAssist(id) =>
      if id !in s.sessions {
        forall other | other in s'.pending ensures Untold(s'.pending[other].waiters, s'.calls, s'.delivered) {
          var ws := s.pending[other].waiters;
          assert Untold(ws, s.calls, s.delivered);
          forall i | 0 <= i < |ws| ensures !Told(s'.delivered, ws[i]) {
            ToldMore(s.delivered, [Delivery(s.calls, OutcomeStopped)], ws[i]);
            ToldOne(Delivery(s.calls, OutcomeStopped), ws[i]);
          }
        }
      } else {
        NewCall(s, id, s'.pending[id], s');
      }
    case TimerFires(t) =>
      var id := s.armed[t].session;
      assert HasItsTimer(s, id);
      ForgetRequest(s, id, [Delivery(s.armed[t].waiter, OutcomeTimeout)], s');
    case ResolveAssist(id) =>
      if id in s.pending {
        ForgetRequest(s, id, Deliveries(s.pending[id].waiters, OutcomeResolved), s');
      }
    case Stop(id) =>
      if id in s.pending {
        ForgetRequest(s, id, Deliveries(s.pending[id].waiters, OutcomeStopped), s');
      }
  }

  lemma {:induction false} RunInv(run: seq<Event>)
    requires Exec(run).Some?
    ensures Inv(Exec(run).value)
  {
    if run != [] {
      RunInv(Init(run));
      StepAgreement(Exec(Init(run)).value, Last(run));
      StepOnceEach(Exec(Init(run)).value, Last(run));
    }
  }

  /** In every run: a pending entry with exactly one armed timer if and only if a human is asked for. */
  lemma PendingIffRequested(run: seq<Event>, id: string)
    requires Exec(run).Some?
    ensures var s := Exec(run).value;
      && (id in s.pending <==> id in s.sessions && s.sessions[id] == AssistRequested)
      && (id in s.pending ==> s.pending[id].timer in s.armed && s.armed[s.pending[id].timer].session == id)
      && (forall t | t in s.armed && s.armed[t].session == id :: id in s.pending && s.pending[id].timer == t)
  {
    RunInv(run);
    var s := Exec(run).value;
    if id in s.pending {
      assert HasItsTimer(s, id);
    }
  }

  /** In every run no wait is resolved twice. */
  lemma NoWaitIsToldTwice(run: seq<Event>, i: nat, j: nat)
    requires Exec(run).Some? && i < j < |Exec(run).value.delivered|
    ensures Exec(run).value.delivered[i].waiter != Exec(run).value.delivered[j].waiter
  {
    RunInv(run);
  }

  /** Which waits an event tells, and what: a request for an unknown session is told at once that it has stopped; a timer
      tells the wait that armed it; a resolve and a stop of a known session tell all that wait. */
  ghost predicate Tells(s: State, e: Event, w: nat, outcome: Outcome) {
    match e
    case Register(_) => false
    case RequestAssist(id) => id !in s.sessions && w == s.calls && outcome == OutcomeStopped
    case TimerFires(t) => t in s.armed && w == s.armed[t].waiter && outcome == OutcomeTimeout
    case ResolveAssist(id) => id in s.sessions && id in s.pending && w in s.pending[id].waiters && outcome == OutcomeResolved
    case Stop(id) => id in s.sessions && id in s.pending && w in s.pending[id].waiters && outcome == OutcomeStopped
  }

  lemma DeliveryAmong(waiters: seq<nat>, outcome: Outcome, d: Delivery)
    ensures d in Deliveries(waiters, outcome) <==> d.waiter in waiters && d.outcome == outcome
  {
    var all := Deliveries(waiters, outcome);
    if d.waiter in waiters && d.outcome == outcome {
      var i :| 0 <= i < |waiters| && waiters[i] == d.waiter;
      assert all[i] == d;
    }
    if d in all {
      var i :| 0 <= i < |all| && all[i] == d;
      assert waiters[i] == d.waiter;
    }
  }

  /** Every step tells exactly those. */
  lemma StepTells(s: State, e: Event, d: Delivery)
    requires Enabled(s, e)
    ensures d in Apply(s, e).delivered <==> d in s.delivered || Tells(s, e, d.waiter, d.outcome)
  {
    match e
    case ResolveAssist(id) => if id in s.pending { DeliveryAmong(s.pending[id].waiters, OutcomeResolved, d); }
    case Stop(id) => if id in s.pending { DeliveryAmong(s.pending[id].waiters, OutcomeStopped, d); }
    case _ =>
  }

  /** The session an event speaks of, and the state it leaves it in. */
  ghost function SaysOf(s: State, e: Event): (string, SessionState)
    requires Enabled(s, e)
  {
    match e
    case Register(id) => (id, Active)
    case RequestAssist(id) => (id, AssistRequested)
    case TimerFires(t) => (s.armed[t].session, Active)
    case ResolveAssist(id) => (id, ActiveResolved)
    case Stop(id) => (id, SessionState.Stopped)
  }

  /** A session is known once registered, and its state is what the last event that spoke of it says. */
  lemma {:induction false} StateIsLastSaid(run: seq<Event>, id: string)
    requires Exec(run).Some?
    ensures var s := Exec(run).value;
      && (id in s.sessions <==> Register(id) in run)
      && (run != [] && id in s.sessions ==>
            var before, said := Exec(Init(run)).value, SaysOf(Exec(Init(run)).value, Last(run));
            && (said.0 == id ==> s.sessions[id] == said.1)
            && (said.0 != id ==> id in before.sessions && s.sessions[id] == before.sessions[id]))
  {
    if run != [] {
      StateIsLastSaid(Init(run), id);
      RunInv(Init(run));
      assert forall e :: e in run <==> e in Init(run) || e == Last(run);
      StepSays(Exec(Init(run)).value, Last(run), id);
    }
  }

  lemma StepSays(s: State, e: Event, id: string)
    requires Inv(s) && Enabled(s, e)
    ensures var t, said := Apply(s, e), SaysOf(s, e);
      && (id in t.sessions <==> id in s.sessions || e == Register(id))
      && (id in t.sessions ==> t.sessions[id] == if said.0 == id then said.1 else s.sessions[id])
  {
    if e.TimerFires? { assert HasItsTimer(s, s.armed[e.timer].session); }
  }

  /** A resolve or a stop tells every wait joined to the request. */
  lemma ResolveAndStopTellAll(run: seq<Event>, id: string, w: nat)
    requires Exec(run).Some? && id in Exec(run).value.pending && w in Exec(run).value.pending[id].waiters
    ensures var s := Exec(run).value;
      && Delivery(w, OutcomeResolved) in Apply(s, ResolveAssist(id)).delivered
      && Delivery(w, OutcomeStopped) in Apply(s, Stop(id)).delivered
      && Apply(s, ResolveAssist(id)).sessions == s.sessions[id := ActiveResolved]
      && Apply(s, Stop(id)).sessions == s.sessions[id := Stopped]
  {
    RunInv(run);
    var s := Exec(run).value;
    var ws := s.pending[id].waiters;
    var i :| 0 <= i < |ws| && ws[i] == w;
    assert Deliveries(ws, OutcomeResolved)[i] == Delivery(w, OutcomeResolved);
    assert Deliveries(ws, OutcomeStopped)[i] == Delivery(w, OutcomeStopped);
  }

  // ----- Who is never told: exactly those that joined a request which then timed out.

  /** A wait that was begun, was never told, and that nothing will tell. */
  ghost predicate Orphan(s: State, w: nat) {
    w < s.calls && !Told(s.delivered, w) && !Waits(s, w)
  }

  ghost function Joined(s: State, e: Event): set<nat>
    requires Enabled(s, e)
  {
    if !e.TimerFires? then {}
    else if s.armed[e.timer].session !in s.pending then {}
    else set w | w in s.pending[s.armed[e.timer].session].waiters && w != s.armed[e.timer].waiter
  }

  /** The waits left behind by the timeouts of a run. */
  ghost function LeftBehind(run: seq<Event>): set<nat>
    requires Exec(run).Some?
  {
    if run == [] then {} else LeftBehind(Init(run)) + Joined(Exec(Init(run)).value, Last(run))
  }

  lemma WaitsUnless(s: State, s': State, id: string, w: nat)
    requires s'.pending == s.pending - {id}
    requires id in s.pending ==> OnceEach(s)
    ensures Waits(s', w) <==> Waits(s, w) && !(id in s.pending && w in s.pending[id].waiters)
  {
    if Waits(s, w) && !(id in s.pending && w in s.pending[id].waiters) {
      var other :| other in s.pending && w in s.pending[other].waiters;
      assert other in s'.pending;
    }
  }

  lemma AmongDeliveries(waiters: seq<nat>, outcome: Outcome, w: nat)
    ensures Told(Deliveries(waiters, outcome), w) <==> w in waiters
  {
    if w in waiters {
      var i :| 0 <= i < |waiters| && waiters[i] == w;
      assert Deliveries(waiters, outcome)[i].waiter == w;
    }
  }

  /** Each step orphans exactly the waits that joined a request timing out. */
  lemma StepOrphans(s: State, e: Event, w: nat)
    requires Inv(s) && Enabled(s, e)
    ensures Orphan(Apply(s, e), w) <==> Orphan(s, w) || w in Joined(s, e)
  {
    var s' := Apply(s, e);
    match e
    case Register(_) =>
      assert Waits(s', w) <==> Waits(s, w);
    case RequestAssist(id) =>
      RequestOrphansNone(s, id, w);
    case TimerFires(t) =>
      var id := s.armed[t].session;
      assert HasItsTimer(s, id);
      WaitsUnless(s, s', id, w);
      ToldMore(s.delivered, [Delivery(s.armed[t].waiter, OutcomeTimeout)], w);
      ToldOne(Delivery(s.armed[t].waiter, OutcomeTimeout), w);
    case ResolveAssist(id) =>
      if id in s.sessions { SettleOrphansNone(s, id, OutcomeResolved, s', w); }
    case Stop(id) =>
      if id in s.sessions { SettleOrphansNone(s, id, OutcomeStopped, s', w); }
  }

  lemma RequestOrphansNone(s: State, id: string, w: nat)
    requires Inv(s)
    ensures Orphan(Apply(s, RequestAssist(id)), w) <==> Orphan(s, w)
  {
    var s' := Apply(s, RequestAssist(id));
    if id !in s.sessions {
      ToldMore(s.delivered, [Delivery(s.calls, OutcomeStopped)], w);
      assert Waits(s', w) <==> Waits(s, w);
      ToldOne(Delivery(s.calls, OutcomeStopped), w);
    } else {
      assert Told(s'.delivered, w) <==> Told(s.delivered, w);
      assert s'.pending[id].waiters == (if id in s.pending then s.pending[id].waiters else []) + [s.calls];
      if Waits(s, w) {
        var other :| other in s.pending && w in s.pending[other].waiters;
        assert other in s'.pending && w in s'.pending[other].waiters;
      }
      if w == s.calls {
        assert w in s'.pending[id].waiters;
      }
    }
  }

  lemma SettleOrphansNone(s: State, id: string, outcome: Outcome, s': State, w: nat)
    requires OnceEach(s)
    requires s'.pending == Settled(s, id, outcome).pending && s'.delivered == Settled(s, id, outcome).delivered && s'.calls == s.calls
    ensures Orphan(s', w) <==> Orphan(s, w)
  {
    if id in s.pending {
      WaitsUnless(s, s', id, w);
      ToldMore(s.delivered, Deliveries(s.pending[id].waiters, outcome), w);
      AmongDeliveries(s.pending[id].waiters, outcome, w);
    } else {
      assert Waits(s', w) <==> Waits(s, w);
    }
  }

  /** In every run the waits without an outcome, now and forever, are those that joined a request which timed out. */
  lemma {:induction false} OrphanIffLeftBehind(run: seq<Event>, w: nat)
    requires Exec(run).Some?
    ensures Orphan(Exec(run).value, w) <==> w in LeftBehind(run)
  {
    if run != [] {
      OrphanIffLeftBehind(Init(run), w);
      RunInv(Init(run));
      StepOrphans(Exec(Init(run)).value, Last(run), w);
    }
  }

  /** Once left behind, never told: however the run goes on. */
  lemma {:induction false} LeftBehindForever(run: seq<Event>, more: seq<Event>, w: nat)
    requires Exec(run + more).Some? && Exec(run).Some? && w in LeftBehind(run)
    ensures !Told(Exec(run + more).value.delivered, w)
    decreases |more|
  {
    if more == [] {
      assert run + more == run;
      OrphanIffLeftBehind(run, w);
    } else {
      assert Init(run + more) == run + Init(more);
      LeftBehindStays(run, more, w);
      OrphanIffLeftBehind(run + more, w);
    }
  }

  lemma {:induction false} LeftBehindStays(run: seq<Event>, more: seq<Event>, w: nat)
    requires Exec(run + more).Some? && Exec(run).Some? && w in LeftBehind(run)
    ensures w in LeftBehind(run + more)
    decreases |more|
  {
    if more == [] {
      assert run + more == run;
    } else {
      assert Init(run + more) == run + Init(more);
      LeftBehindStays(run, Init(more), w);
    }
  }

  /** A second request for the same help is promised the same wait; after a timeout it never ends. */
  lemma TimeoutLeavesTheSecondWaiting(id: string)
    ensures var run := [Register(id), RequestAssist(id), RequestAssist(id), TimerFires(0)];
      Exec(run).Some? && Delivery(0, OutcomeTimeout) in Exec(run).value.delivered && Orphan(Exec(run).value, 1)
  {
    var r1, r2, r3 := [Register(id)], [Register(id), RequestAssist(id)], [Register(id), RequestAssist(id), RequestAssist(id)];
    var run := r3 + [TimerFires(0)];
    assert Init(r1) == [] && Init(r2) == r1 && Init(r3) == r2 && Init(run) == r3;
    var s1 := START.(sessions := map[id := Active]);
    assert Exec(r1) == Some(s1);
    var s2 := Apply(s1, RequestAssist(id));
    assert Exec(r2) == Some(s2);
    assert s2.pending == map[id := Pending(0, [0])] && s2.armed == map[0 := Timer(id, 0)];
    var s3 := Apply(s2, RequestAssist(id));
    assert Exec(r3) == Some(s3);
    assert [0] + [1] == [0, 1];
    assert s3.pending[id] == Pending(0, [0, 1]) && s3.armed == s2.armed;
    var s4 := Apply(s3, TimerFires(0));
    assert Exec(run) == Some(s4);
    assert s4.delivered == [Delivery(0, OutcomeTimeout)] && s4.pending == map[] && s4.calls == 2;
    assert run == [Register(id), RequestAssist(id), RequestAssist(id), TimerFires(0)];
  }

  /** A listener that resolves the request while it is told of it leaves a pending entry behind in a session that
      no longer asks for help. */
  lemma ListenerThatResolvesAtOnce(s: State, id: string)
    requires Inv(s) && id in s.sessions && id !in s.pending
    ensures Apply(s, RequestAssist(id)) == RequestEnds(RequestBegins(s, id), id)
    ensures var s' := RequestEnds(Apply(RequestBegins(s, id), ResolveAssist(id)), id);
      id in s'.pending && s'.sessions[id] == ActiveResolved && !Agreement(s')
  {
    var s' := RequestEnds(Apply(RequestBegins(s, id), ResolveAssist(id)), id);
    assert id in s'.pending && s'.sessions[id] == ActiveResolved;
  }

  // ----- The manager's own state, updated in place.

  class Manager {
    var sessions: map<string, SessionState>
    var pending: map<string, Pending>
    var armed: map<nat, Timer>
    var timersMade: nat
    var calls: nat
    var delivered: seq<Delivery>

    ghost function View(): State
      reads this
    {
      State(sessions, pending, armed, timersMade, calls, delivered)
    }

    /** What holds between two turns. */
    ghost predicate Valid()
      reads this
    {
      Inv(View())
    }

    ghost method Keeps(e: Event)
      requires Valid() && Enabled(View(), e)
      ensures Inv(Apply(View(), e))
    {
      StepAgreement(View(), e);
      StepOnceEach(View(), e);
    }

    constructor ()
      ensures Valid() && View() == START
    {
      sessions, pending, armed, timersMade, calls, delivered := map[], map[], map[], 0, 0, [];
    }

    method RegisterSession(id: string)
      requires Valid() && id !in sessions
      modifies this
      ensures Valid()
      ensures View() == Apply(old(View()), Register(id))
    {
      Keeps(Register(id));
      sessions := sessions[id := Active];
    }

    /** The state, the timer and the pending entry of a new request, lines 135 to 158. */
    method NewRequest(id: string) returns (wait: nat)
      requires id in sessions && id !in pending
      modifies this
      ensures View() == RequestEnds(RequestBegins(old(View()), id), id) && wait == old(calls)
    {
      wait := calls;
      calls := calls + 1;
      sessions := sessions[id := AssistRequested];
      var timer := timersMade;
      timersMade := timersMade + 1;
      armed := armed[timer := Timer(id, wait)];
      pending := pending[id := Pending(timer, [wait])];
    }

    /** One more wait on a pending request, lines 127 to 133. */
    method JoinRequest(id: string) returns (wait: nat)
      requires id in sessions && id in pending
      modifies this`calls, this`pending
      ensures View() == Apply(old(View()), RequestAssist(id)) && wait == old(calls)
    {
      wait := calls;
      calls := calls + 1;
      pending := pending[id := pending[id].(waiters := pending[id].waiters + [wait])];
    }

    method RequestHelp(id: string) returns (wait: nat)
      requires Valid()
      modifies this
      ensures Valid()
      ensures View() == Apply(old(View()), RequestAssist(id)) && wait == old(calls)
    {
      Keeps(RequestAssist(id));
      if id !in sessions {
        wait := calls;
        calls := calls + 1;
        delivered := delivered + [Delivery(wait, OutcomeStopped)];
      } else if id in pending {
        wait := JoinRequest(id);
      } else {
        wait := NewRequest(id);
      }
    }

    /** The timer's callback. */
    method TimeOut(timer: nat)
      requires Valid() && timer in armed
      modifies this
      ensures Valid()
      ensures View() == Apply(old(View()), TimerFires(timer))
    {
      Keeps(TimerFires(timer));
      var t := armed[timer];
      armed := armed - {timer};
      pending := pending - {t.session};
      if t.session in sessions && sessions[t.session] == AssistRequested {
        sessions := sessions[t.session := Active];
      }
      delivered := delivered + [Delivery(t.waiter, OutcomeTimeout)];
    }

    method Resolve(id: string) returns (known: bool)
      requires Valid()
      modifies this
      ensures Valid()
      ensures View() == Apply(old(View()), ResolveAssist(id)) && (known <==> id in old(sessions))
    {
      Keeps(ResolveAssist(id));
      if id !in sessions { return false; }
      sessions := sessions[id := ActiveResolved];
      if id in pending { Settle(id, OutcomeResolved); }
      known := true;
    }

    method StopSession(id: string)
      requires Valid()
      modifies this
      ensures Valid()
      ensures View() == Apply(old(View()), Stop(id))
    {
      Keeps(Stop(id));
      if id !in sessions { return; }
      if id in pending { Settle(id, OutcomeStopped); }
      sessions := sessions[id := Stopped];
    }

    /** Clears the timer and calls the chained resolver, which reaches the waits in the order they joined. */
    method Settle(id: string, outcome: Outcome)
      requires id in pending
      modifies this`armed, this`pending, this`delivered
      ensures View() == Settled(old(View()), id, outcome)
    {
      var p := pending[id];
      armed := armed - {p.timer};
      pending := pending - {id};
      ghost var before := delivered;
      for i := 0 to |p.waiters|
        modifies this`delivered
        invariant delivered == before + Deliveries(p.waiters[..i], outcome)
      {
        assert Deliveries(p.waiters[..i + 1], outcome) == Deliveries(p.waiters[..i], outcome) + [Delivery(p.waiters[i], outcome)];
        delivered := delivered + [Delivery(p.waiters[i], outcome)];
      }
      assert p.waiters[..|p.waiters|] == p.waiters;
    }
  }
}
