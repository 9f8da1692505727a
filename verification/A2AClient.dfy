/** The A2A client's peer registry (packages/core/src/a2a/client.ts).

    Starts, stops, config reloads, timer ticks and card fetches interleave freely. An event is one
    JavaScript turn; a card fetch answers whenever it likes, also after a restart. */
module A2AClient {
  import opened Common

  datatype Peer = Peer(id: string, enabled: bool)
  datatype Config = Config(enabled: bool, peers: seq<Peer>, refreshIntervalMs: nat)

  /** The ids a refresh polls, in config order, repeated ids included: line 151. */
  function Desired(config: Config): seq<string> {
    if config.enabled then EnabledIds(config.peers) else []
  }

  function EnabledIds(peers: seq<Peer>): seq<string> {
    if peers == [] then []
    else (if peers[0].enabled then [peers[0].id] else []) + EnabledIds(peers[1..])
  }

  function Ids(s: seq<string>): set<string> {
    set id | id in s
  }

  lemma {:induction false} EnabledIdsIff(peers: seq<Peer>, id: string)
    ensures id in EnabledIds(peers) <==> exists p | p in peers :: p.enabled && p.id == id
  {
    if peers != [] {
      EnabledIdsIff(peers[1..], id);
      assert forall p :: p in peers <==> p == peers[0] || p in peers[1..];
    }
  }

  /** A config wants a peer exactly if it is on and holds one of that id that is switched on. */
  lemma DesiredIff(config: Config, id: string)
    ensures id in Desired(config) <==> config.enabled && exists p | p in config.peers :: p.enabled && p.id == id
  {
    EnabledIdsIff(config.peers, id);
  }

  const PREFIX := "a2a__"
  const SEPARATOR := "__"

  /** The virtual sub-agent's name: line 221. */
  function Name(peer: string, skill: string): string {
    PREFIX + peer + SEPARATOR + skill
  }

  lemma NameIs(peer: string, skill: string)
    ensures Name(peer, skill) == "a2a__" + peer + "__" + skill
  {
  }

  function Names(peer: string, skills: seq<string>): (names: seq<string>)
    ensures |names| == |skills| && forall i | 0 <= i < |skills| :: names[i] == Name(peer, skills[i])
  {
    if skills == [] then [] else [Name(peer, skills[0])] + Names(peer, skills[1..])
  }

  datatype Fetch = Fetch(run: nat, id: string)

  /** A start waiting for the polls it launched. */
  datatype StartCall = StartCall(config: Config, waiting: set<nat>)

  datatype State = State(
    config: Config,
    run: nat,
    // registered peers, each with the names of its virtual agents
    peers: map<string, seq<string>>,
    // the registered virtual agents
    agents: set<string>,
    timer: Option<nat>,
    // every interval that still ticks
    live: set<nat>,
    nextTimer: nat,
    fetches: map<nat, Fetch>,
    nextFetch: nat,
    // by the run each start captured
    starts: map<nat, StartCall>,
    // history: the run that set the timer, the config of the last start, and the ids
    // polled since that start
    timerRun: nat,
    startConfig: Option<Config>,
    polled: set<string>)

  /** What a poll gets: no card, a card with its skill ids, or one whose list of skills breaks off after some: the
      loop over it throws, and `allSettled` swallows that. */
  datatype Answer = Failed | Full(skills: seq<string>) | Broken(skills: seq<string>)

  datatype Event =
    | Reload(config: Config)
    | Start
    | Stop
    | Tick(timer: nat)
    | CardArrives(fetch: nat, answer: Answer)
    | StartReturns(run: nat)

  function Idle(config: Config): State {
    State(config, 0, map[], {}, None, {}, 0, map[], 0, map[], 0, None, {})
  }

  /** Every name some peer lists. */
  function Listed(peers: map<string, seq<string>>): set<string> {
    set id, n | id in peers && n in peers[id] :: n
  }

  function Kept(peers: map<string, seq<string>>, ids: set<string>): map<string, seq<string>> {
    map id | id in peers && id in ids :: peers[id]
  }

  function Dropped(peers: map<string, seq<string>>, ids: set<string>): map<string, seq<string>> {
    map id | id in peers && id !in ids :: peers[id]
  }

  function Launched(run: nat, ids: seq<string>, first: nat): (r: map<nat, Fetch>)
    ensures forall f :: f in r <==> first <= f < first + |ids|
    ensures forall f | f in r :: r[f] == Fetch(run, ids[f - first])
  {
    if ids == [] then map[] else Launched(run, Init(ids), first)[first + |ids| - 1 := Fetch(run, Last(ids))]
  }

  /** `refreshAllPeers` up to its await: lines 147 to 161. */
  function Refresh(s: State): State {
    var ids := Desired(s.config);
    s.(peers := Kept(s.peers, Ids(ids)),
       agents := s.agents - Listed(Dropped(s.peers, Ids(ids))),
       fetches := s.fetches + Launched(s.run, ids, s.nextFetch),
       nextFetch := s.nextFetch + |ids|,
       polled := s.polled + Ids(ids))
  }

  /** `stopA2AClient`: lines 138 to 144. */
  function Stopped(s: State): State {
    s.(run := s.run + 1, timer := None, live := if s.timer.Some? then s.live - {s.timer.value} else s.live)
  }

  /** `refreshPeer` once its card is there, or has failed: lines 196 to 243. */
  function Register(s: State, id: string, answer: Answer): State {
    if answer.Broken? then s.(agents := s.agents + Ids(Names(id, answer.skills)))
    else
      var before := if id in s.peers then Ids(s.peers[id]) else {};
      var names := if answer.Full? then Names(id, answer.skills) else [];
      s.(agents := s.agents + Ids(names) - (before - Ids(names)),
         peers := s.peers[id := names])
  }

  predicate Enabled(s: State, e: Event) {
    match e
    case Tick(t) => t in s.live
    case CardArrives(f, _) => f in s.fetches
    case StartReturns(r) => r in s.starts && s.starts[r].waiting !! s.fetches.Keys
    case _ => true
  }

  function Apply(s: State, e: Event): State
    requires Enabled(s, e)
  {
    match e
    case Reload(config) => s.(config := config)
    case Stop => Stopped(s)
    case Start =>
      var t := Refresh(Stopped(s).(startConfig := Some(s.config), polled := {}));
      t.(starts := t.starts[t.run := StartCall(s.config, t.fetches.Keys - s.fetches.Keys)])
    case Tick(_) => Refresh(s)
    case CardArrives(f, answer) =>
      var t := s.(fetches := s.fetches - {f});
      if s.fetches[f].run != s.run then t else Register(t, s.fetches[f].id, answer)
    case StartReturns(r) =>
      var t := s.(starts := s.starts - {r});
      var config := s.starts[r].config;
      if r != s.run || !config.enabled || config.refreshIntervalMs == 0 then t
      else t.(timer := Some(s.nextTimer), live := s.live + {s.nextTimer}, nextTimer := s.nextTimer + 1, timerRun := r)
  }

  /** The state after a run, or None when one of its events could not happen. */
  ghost function Exec(config: Config, run: seq<Event>): Option<State> {
    if run == [] then Some(Idle(config))
    else
      match Exec(config, Init(run))
      case None => None
      case Some(s) => if Enabled(s, Last(run)) then Some(Apply(s, Last(run))) else None
  }

  // ---- Epoch safety ----

  /** Peers, and polls that may still register one, belong to what was polled since the last start. */
  ghost predicate EpochInv(s: State) {
    && s.peers.Keys <= s.polled
    && (forall f | f in s.fetches :: f < s.nextFetch && s.fetches[f].run <= s.run)
    && (forall f | f in s.fetches && s.fetches[f].run == s.run :: s.fetches[f].id in s.polled)
  }

  /** At most one interval ticks; the current run set it, and its start has returned. */
  ghost predicate TimerInv(s: State) {
    && s.live == (if s.timer.Some? then {s.timer.value} else {})
    && (forall t | t in s.live :: t < s.nextTimer)
    && (forall r | r in s.starts :: r <= s.run)
    && (s.run in s.starts ==> s.startConfig == Some(s.starts[s.run].config))
    && (s.timer.Some? ==> s.timerRun == s.run && s.run !in s.starts && s.startConfig.Some?
                          && s.startConfig.value.enabled && s.startConfig.value.refreshIntervalMs > 0)
  }

  lemma StepEpoch(s: State, e: Event)
    requires EpochInv(s) && Enabled(s, e)
    ensures EpochInv(Apply(s, e))
  {
  }

  lemma StepTimer(s: State, e: Event)
    requires TimerInv(s) && Enabled(s, e)
    ensures TimerInv(Apply(s, e))
  {
  }

  lemma {:induction false} RunInv(config: Config, run: seq<Event>)
    requires Exec(config, run).Some?
    ensures EpochInv(Exec(config, run).value) && TimerInv(Exec(config, run).value)
  {
    if run != [] {
      RunInv(config, Init(run));
      StepEpoch(Exec(config, Init(run)).value, Last(run));
      StepTimer(Exec(config, Init(run)).value, Last(run));
    }
  }

  /** After the last start, as long as neither a reload nor another start happens. */
  predicate Undisturbed(run: seq<Event>) {
    forall e | e in run :: !e.Start? && !e.Reload?
  }

  lemma {:induction false} PolledSinceStart(config: Config, before: seq<Event>, after: seq<Event>)
    requires Undisturbed(after)
    requires Exec(config, before + [Start]).Some? && Exec(config, before + [Start] + after).Some?
    ensures var s, t := Exec(config, before + [Start]).value, Exec(config, before + [Start] + after).value;
      t.config == s.config && t.polled == Ids(Desired(s.config))
    decreases |after|
  {
    var run := before + [Start];
    if after == [] {
      assert run + after == run;
      assert Init(run) == before;
    } else {
      assert Init(run + after) == run + Init(after);
      assert Last(after) in after;
      PolledSinceStart(config, before, Init(after));
      PolledStays(Exec(config, run + Init(after)).value, Last(after));
    }
  }

  lemma PolledStays(s: State, e: Event)
    requires Enabled(s, e) && Undisturbed([e]) && s.polled == Ids(Desired(s.config))
    ensures Apply(s, e).config == s.config && Apply(s, e).polled == s.polled
  {
    assert e in [e];
  }

  /** With the config unchanged since the last start, every registered peer is one that start wants
      (none when A2A is off), whatever order fetches, ticks, stops and older starts finish in. */
  lemma EpochSafety(config: Config, before: seq<Event>, after: seq<Event>)
    requires Undisturbed(after)
    requires Exec(config, before + [Start]).Some? && Exec(config, before + [Start] + after).Some?
    ensures Exec(config, before + [Start] + after).value.peers.Keys
         <= Ids(Desired(Exec(config, before + [Start]).value.config))
  {
    RunInv(config, before + [Start] + after);
    PolledSinceStart(config, before, after);
  }

  /** In every run at most one interval ticks, `_refreshTimer` holds it, and the current run set it
      after its own start had returned, for a config that is on and wants an interval. */
  lemma OneLiveTimer(config: Config, run: seq<Event>)
    requires Exec(config, run).Some?
    ensures var s := Exec(config, run).value;
      && (forall t, u | t in s.live && u in s.live :: t == u)
      && (s.live != {} ==>
            && s.timer.Some? && s.timer.value in s.live && s.timerRun == s.run && s.run !in s.starts
            && s.startConfig.Some? && s.startConfig.value.enabled && s.startConfig.value.refreshIntervalMs > 0)
      && (s.timer.Some? ==> s.timer.value in s.live)
  {
    RunInv(config, run);
  }

  predicate StartsOrStops(e: Event) {
    e.Start? || e.Stop?
  }

  lemma StepTimerIff(s: State, e: Event, config: Config)
    requires TimerInv(s) && Enabled(s, e) && !StartsOrStops(e)
    requires s.run in s.starts ==> s.starts[s.run].config == config
    ensures var t := Apply(s, e);
      && t.run == s.run && (t.run in t.starts <==> s.run in s.starts && e != StartReturns(s.run))
      && (t.run in t.starts ==> t.starts[t.run].config == config)
      && (t.live != {} <==> s.live != {} || (e == StartReturns(s.run) && config.enabled && config.refreshIntervalMs > 0))
  {
    if e == StartReturns(s.run) && config.enabled && config.refreshIntervalMs > 0 {
      assert s.nextTimer in Apply(s, e).live;
    }
  }

  /** Between a start and the next stop or start an interval ticks exactly if that start has returned, and the config it
      began with is on and wants an interval. */
  lemma {:induction false} TicksIff(config: Config, before: seq<Event>, after: seq<Event>)
    requires forall e | e in after :: !StartsOrStops(e)
    requires Exec(config, before).Some? && Exec(config, before + [Start] + after).Some?
    ensures var s, t := Exec(config, before).value, Exec(config, before + [Start] + after).value;
      && t.run == s.run + 1
      && (t.run in t.starts <==> StartReturns(t.run) !in after) && (t.run in t.starts ==> t.starts[t.run].config == s.config)
      && (t.live != {} <==> StartReturns(t.run) in after && s.config.enabled && s.config.refreshIntervalMs > 0)
    decreases |after|
  {
    var run, s := before + [Start], Exec(config, before).value;
    assert Init(run) == before;
    if after == [] {
      assert run + after == run;
      RunInv(config, before);
    } else {
      var e, mid := Last(after), run + Init(after);
      assert Init(run + after) == mid && e in after && forall x :: x in after <==> x in Init(after) || x == e;
      TicksIff(config, before, Init(after));
      RunInv(config, mid);
      StepTimerIff(Exec(config, mid).value, e, s.config);
    }
  }

  /** From a stop on, until the next start, nothing registers, unregisters or ticks any more. */
  lemma {:induction false} StoppedStaysQuiet(config: Config, before: seq<Event>, after: seq<Event>)
    requires forall e | e in after :: !e.Start?
    requires Exec(config, before + [Stop]).Some? && Exec(config, before + [Stop] + after).Some?
    ensures var s, t := Exec(config, before + [Stop]).value, Exec(config, before + [Stop] + after).value;
      t.peers == s.peers && t.agents == s.agents && t.live == {}
      && (forall f | f in t.fetches :: t.fetches[f].run < t.run) && (forall r | r in t.starts :: r < t.run)
    decreases |after|
  {
    var run := before + [Stop];
    if after == [] {
      assert run + after == run;
      assert Init(run) == before;
      RunInv(config, before);
    } else {
      assert Init(run + after) == run + Init(after);
      assert Last(after) in after;
      StoppedStaysQuiet(config, before, Init(after));
    }
  }

  // ---- Registry agreement ----

  /** Two ids whose virtual-agent names can coincide. */
  predicate Clash(p: string, q: string) {
    p != q && (p + SEPARATOR <= q + SEPARATOR || q + SEPARATOR <= p + SEPARATOR)
  }

  lemma NameParts(p: string, s: string)
    ensures Name(p, s) == PREFIX + ((p + SEPARATOR) + s)
  {
  }

  /** The separator does not separate: exactly the clashing ids share a name for some pair of skills. */
  lemma ClashIsSharedName(p: string, q: string)
    requires p != q
    ensures Clash(p, q) <==> exists s, t :: Name(p, s) == Name(q, t)
  {
    if Clash(p, q) {
      if p + SEPARATOR <= q + SEPARATOR {
        var _ := SharedSkill(p, q);
      } else {
        var s := SharedSkill(q, p);
        assert Name(p, "") == Name(q, s);
      }
    }
    if s, t :| Name(p, s) == Name(q, t) {
      SharedNameClashes(p, s, q, t);
    }
  }

  lemma SharedSkill(p: string, q: string) returns (s: string)
    requires p + SEPARATOR <= q + SEPARATOR
    ensures Name(p, s) == Name(q, "")
  {
    s := (q + SEPARATOR)[|p + SEPARATOR|..];
    assert (p + SEPARATOR) + s == q + SEPARATOR == (q + SEPARATOR) + "";
    NameParts(p, s);
    NameParts(q, "");
  }

  lemma SharedNameClashes(p: string, s: string, q: string, t: string)
    requires Name(p, s) == Name(q, t)
    ensures p == q || Clash(p, q)
  {
    var ps, qs := p + SEPARATOR, q + SEPARATOR;
    assert Name(p, s)[|PREFIX|..] == ps + s;
    assert Name(q, t)[|PREFIX|..] == qs + t;
    if |ps| <= |qs| {
      assert ps == (ps + s)[..|ps|] == (qs + t)[..|ps|] == qs[..|ps|];
      if |ps| == |qs| {
        assert p == ps[..|p|] == qs[..|q|] == q;
      }
    } else {
      assert qs == (qs + t)[..|qs|] == (ps + s)[..|qs|] == ps[..|qs|];
    }
  }

  predicate ContainsSeparator(id: string) {
    exists i :: 0 <= i < |id| - 1 && id[i] == '_' && id[i + 1] == '_'
  }

  /** Ids that neither contain `__` nor end in `_` never clash, so `Name` is injective on them. */
  lemma PlainIdsDoNotClash(p: string, s: string, q: string, t: string)
    requires !ContainsSeparator(p) && !ContainsSeparator(q)
    requires (p != "" ==> p[|p| - 1] != '_') && (q != "" ==> q[|q| - 1] != '_')
    ensures !Clash(p, q)
    ensures Name(p, s) == Name(q, t) <==> p == q && s == t
  {
    if p != q && p + SEPARATOR <= q + SEPARATOR {
      PrefixHasSeparator(p, q);
    }
    if p != q && q + SEPARATOR <= p + SEPARATOR {
      PrefixHasSeparator(q, p);
    }
    if Name(p, s) == Name(q, t) {
      SharedNameClashes(p, s, q, t);
      assert s == Name(p, s)[|PREFIX| + |p| + |SEPARATOR|..];
      assert t == Name(q, t)[|PREFIX| + |q| + |SEPARATOR|..];
    }
  }

  lemma PrefixHasSeparator(p: string, q: string)
    requires p != q && p + SEPARATOR <= q + SEPARATOR
    ensures ContainsSeparator(q) || (q != "" && q[|q| - 1] == '_')
  {
    var qs := q + SEPARATOR;
    assert qs[|p|] == (p + SEPARATOR)[|p|] == '_' && qs[|p| + 1] == (p + SEPARATOR)[|p| + 1] == '_';
    assert p == (p + SEPARATOR)[..|p|] == qs[..|p|];
    if |p| + 1 < |q| {
      assert q[|p|] == '_' && q[|p| + 1] == '_';
    }
  }

  ghost predicate ClashFree(ids: set<string>) {
    forall p, q | p in ids && q in ids :: !Clash(p, q)
  }

  /** The registry is exactly what the peers list, and every peer lists names of its own id. */
  ghost predicate Agreement(s: State) {
    s.agents == Listed(s.peers)
  }

  ghost predicate OwnNames(s: State) {
    forall id, n | id in s.peers && n in s.peers[id] :: exists skill :: n == Name(id, skill)
  }

  ghost predicate ConfigsWithin(config: Config, run: seq<Event>, ids: set<string>) {
    Ids(Desired(config)) <= ids && forall e | e in run && e.Reload? :: Ids(Desired(e.config)) <= ids
  }

  ghost predicate Within(s: State, ids: set<string>) {
    && OwnNames(s)
    && Ids(Desired(s.config)) <= ids && s.peers.Keys <= ids
    && (forall f | f in s.fetches :: s.fetches[f].id in ids)
  }

  ghost predicate RegistryInv(s: State, ids: set<string>) {
    Agreement(s) && Within(s, ids)
  }

  ghost predicate Lists(s: State, id: string, n: string) {
    id in s.peers && n in s.peers[id]
  }

  /** An answer of the current run that breaks off behind a skill whose agent its peer does not list already. */
  ghost predicate Stray(s: State, e: Event) {
    && e.CardArrives? && e.answer.Broken? && e.fetch in s.fetches && s.fetches[e.fetch].run == s.run
    && exists skill | skill in e.answer.skills :: !Lists(s, s.fetches[e.fetch].id, Name(s.fetches[e.fetch].id, skill))
  }

  lemma DisjointNames(s: State, ids: set<string>, p: string, q: string, n: string)
    requires ClashFree(ids) && p in ids && q in ids && p != q
    requires exists skill :: n == Name(p, skill)
    ensures !exists skill :: n == Name(q, skill)
  {
    var a :| n == Name(p, a);
    if b :| n == Name(q, b) {
      SharedNameClashes(p, a, q, b);
    }
  }

  lemma RefreshAgrees(s: State, ids: set<string>)
    requires ClashFree(ids) && RegistryInv(s, ids)
    ensures RegistryInv(Refresh(s), ids)
  {
    var t := Refresh(s);
    var wanted := Ids(Desired(s.config));
    forall n | n in s.agents
      ensures n in t.agents <==> n in Listed(t.peers)
    {
      var p :| p in s.peers && n in s.peers[p];
      if p in wanted {
        assert n in t.peers[p];
        if n in Listed(Dropped(s.peers, wanted)) {
          var q :| q in Dropped(s.peers, wanted) && n in Dropped(s.peers, wanted)[q];
          DisjointNames(s, ids, p, q, n);
        }
      } else {
        assert n in Dropped(s.peers, wanted)[p];
        if n in Listed(t.peers) {
          var q :| q in t.peers && n in t.peers[q];
          DisjointNames(s, ids, p, q, n);
        }
      }
    }
  }

  lemma RegisterAgrees(s: State, ids: set<string>, id: string, answer: Answer)
    requires ClashFree(ids) && RegistryInv(s, ids) && id in ids && !answer.Broken?
    ensures RegistryInv(Register(s, id, answer), ids)
  {
    var t := Register(s, id, answer);
    var names := t.peers[id];
    forall n | n in t.agents
      ensures n in Listed(t.peers)
    {
      if n !in names {
        var p :| p in s.peers && n in s.peers[p];
        assert n in t.peers[p];
      }
    }
    forall n | n in Listed(t.peers)
      ensures n in t.agents
    {
      var p :| p in t.peers && n in t.peers[p];
      if p != id {
        if id in s.peers && n in s.peers[id] {
          DisjointNames(s, ids, p, id, n);
        }
        assert n in s.agents;
      }
    }
  }

  lemma RegisteredIffListed(s: State, ids: set<string>, id: string, skill: string)
    requires ClashFree(ids) && RegistryInv(s, ids) && id in ids
    ensures Name(id, skill) in s.agents <==> Lists(s, id, Name(id, skill))
  {
    var n := Name(id, skill);
    if n in s.agents {
      var p :| p in s.peers && n in s.peers[p];
      if p != id { DisjointNames(s, ids, id, p, n); }
    }
  }

  lemma NamesAre(id: string, skills: seq<string>, n: string)
    ensures n in Ids(Names(id, skills)) <==> exists skill | skill in skills :: n == Name(id, skill)
  {
    var names := Names(id, skills);
    if n in Ids(names) {
      var i :| 0 <= i < |names| && names[i] == n;
      assert skills[i] in skills && n == Name(id, skills[i]);
    }
    if skill :| skill in skills && n == Name(id, skill) {
      var i :| 0 <= i < |skills| && skills[i] == skill;
      assert names[i] == n;
    }
  }

  /** A list that breaks off keeps the registry exact only if all it got to is listed. */
  lemma BrokenAgreesIff(s: State, ids: set<string>, id: string, skills: seq<string>)
    requires ClashFree(ids) && RegistryInv(s, ids) && id in ids
    ensures Within(Register(s, id, Broken(skills)), ids)
    ensures Agreement(Register(s, id, Broken(skills))) <==> forall skill | skill in skills :: Lists(s, id, Name(id, skill))
  {
    var t := Register(s, id, Broken(skills));
    forall skill | skill in skills
      ensures Name(id, skill) in t.agents && (Name(id, skill) in s.agents <==> Lists(s, id, Name(id, skill)))
    {
      NamesAre(id, skills, Name(id, skill));
      RegisteredIffListed(s, ids, id, skill);
    }
    forall n | n in t.agents && n !in s.agents ensures exists skill | skill in skills :: n == Name(id, skill) {
      NamesAre(id, skills, n);
    }
  }

  /** A step keeps the registry exact exactly unless it is a stray answer. */
  lemma StepAgreesIff(s: State, ids: set<string>, e: Event)
    requires ClashFree(ids) && RegistryInv(s, ids) && Enabled(s, e)
    requires e.Reload? ==> Ids(Desired(e.config)) <= ids
    ensures Within(Apply(s, e), ids)
    ensures Agreement(Apply(s, e)) <==> !Stray(s, e)
  {
    match e
    case Start => RefreshAgrees(Stopped(s).(startConfig := Some(s.config), polled := {}), ids);
    case Tick(_) => RefreshAgrees(s, ids);
    case CardArrives(f, answer) =>
      if s.fetches[f].run == s.run {
        var t, id := s.(fetches := s.fetches - {f}), s.fetches[f].id;
        if answer.Broken? {
          BrokenAgreesIff(t, ids, id, answer.skills);
        } else {
          RegisterAgrees(t, ids, id, answer);
        }
      }
    case _ =>
  }

  /** No event of the run is a stray answer. */
  ghost predicate NoStray(config: Config, run: seq<Event>) {
    run == [] || (NoStray(config, Init(run)) && (Exec(config, Init(run)).Some? ==> !Stray(Exec(config, Init(run)).value, Last(run))))
  }

  /** The registry is exact at the start and after every event. */
  ghost predicate AlwaysExact(config: Config, run: seq<Event>) {
    Exec(config, run).Some? && Agreement(Exec(config, run).value) && (run == [] || AlwaysExact(config, Init(run)))
  }

  /** After every event of every run over clash-free peer ids in which no answer breaks off behind a skill that is not
      listed, the registered virtual agents are exactly the union of what the peers list. */
  lemma {:induction false} RegistryAgreement(config: Config, run: seq<Event>, ids: set<string>)
    requires ClashFree(ids) && ConfigsWithin(config, run, ids) && NoStray(config, run)
    requires Exec(config, run).Some?
    ensures RegistryInv(Exec(config, run).value, ids)
  {
    if run != [] {
      assert Last(run) in run && forall e | e in Init(run) :: e in run;
      RegistryAgreement(config, Init(run), ids);
      StepAgreesIff(Exec(config, Init(run)).value, ids, Last(run));
    }
  }

  /** And only in those: over clash-free ids the registry stays exact through a run if and only if no answer of the run
      then current breaks off behind a skill that is not listed already. */
  lemma {:induction false} RegistryExactIff(config: Config, run: seq<Event>, ids: set<string>)
    requires ClashFree(ids) && ConfigsWithin(config, run, ids)
    requires Exec(config, run).Some?
    ensures AlwaysExact(config, run) <==> NoStray(config, run)
  {
    if run != [] {
      assert Last(run) in run && forall e | e in Init(run) :: e in run;
      RegistryExactIff(config, Init(run), ids);
      if NoStray(config, Init(run)) {
        RegistryAgreement(config, Init(run), ids);
        StepAgreesIff(Exec(config, Init(run)).value, ids, Last(run));
      }
    }
  }

  lemma {:induction false} UnbrokenIsNoStray(config: Config, run: seq<Event>)
    requires forall e | e in run && e.CardArrives? :: !e.answer.Broken?
    ensures NoStray(config, run)
  {
    if run != [] {
      assert Last(run) in run && forall e | e in Init(run) :: e in run;
      UnbrokenIsNoStray(config, Init(run));
    }
  }

  lemma ExecStep(config: Config, run: seq<Event>, e: Event)
    requires Exec(config, run).Some? && Enabled(Exec(config, run).value, e)
    ensures Exec(config, run + [e]) == Some(Apply(Exec(config, run).value, e))
  {
    assert Init(run + [e]) == run;
  }

  lemma BothDesired(p: string, q: string)
    ensures Desired(Config(true, [Peer(q, true)], 0)) == [q]
    ensures Desired(Config(true, [Peer(p, true), Peer(q, true)], 0)) == [p, q]
  {
    assert EnabledIds([Peer(q, true)]) == [q] + EnabledIds([]);
    assert [Peer(p, true), Peer(q, true)][1..] == [Peer(q, true)];
  }

  lemma FirstStart(config: Config)
    ensures var ids := Desired(config);
      Apply(Idle(config), Start)
      == State(config, 1, map[], {}, None, {}, 0, Launched(1, ids, 0), |ids|,
               map[1 := StartCall(config, Launched(1, ids, 0).Keys)], 0, Some(config), Ids(ids))
  {
    assert Listed(map[]) == {};
    assert Idle(config).fetches + Launched(1, Desired(config), 0) == Launched(1, Desired(config), 0);
  }

  lemma FreshCard(s: State, f: nat, skill: string)
    requires f in s.fetches && s.fetches[f].run == s.run && s.fetches[f].id !in s.peers
    ensures var id := s.fetches[f].id;
      Apply(s, CardArrives(f, Full([skill])))
      == s.(fetches := s.fetches - {f}, agents := s.agents + {Name(id, skill)}, peers := s.peers[id := [Name(id, skill)]])
  {
    var id := s.fetches[f].id;
    assert Names(id, [skill]) == [Name(id, skill)];
    assert Ids([Name(id, skill)]) == {Name(id, skill)};
  }

  /** Both peers answer with a skill of the same virtual name. */
  lemma BothRegister(p: string, s: string, q: string, t: string) returns (config: Config, run: seq<Event>)
    requires p != q && Name(p, s) == Name(q, t)
    ensures config == Config(true, [Peer(p, true), Peer(q, true)], 0)
    ensures forall e | e in run :: !e.Reload? && (e.CardArrives? ==> !e.answer.Broken?)
    ensures Exec(config, run).Some?
    ensures Exec(config, run).value.peers == map[p := [Name(p, s)], q := [Name(p, s)]]
    ensures Exec(config, run).value.agents == {Name(p, s)}
  {
    config := Config(true, [Peer(p, true), Peer(q, true)], 0);
    BothDesired(p, q);
    FirstStart(config);
    ExecStep(config, [], Start);
    var s1 := Apply(Idle(config), Start);
    FreshCard(s1, 0, s);
    ExecStep(config, [] + [Start], CardArrives(0, Full([s])));
    var s2 := Apply(s1, CardArrives(0, Full([s])));
    FreshCard(s2, 1, t);
    ExecStep(config, [] + [Start] + [CardArrives(0, Full([s]))], CardArrives(1, Full([t])));
    run := [] + [Start] + [CardArrives(0, Full([s]))] + [CardArrives(1, Full([t]))];
  }

  /** Conversely, every clashing pair of ids breaks the agreement: two peers list the same agent, and taking
      the first out of the config unregisters the agent the second still lists. */
  lemma ClashBreaksAgreement(p: string, s: string, q: string, t: string)
    returns (config: Config, run: seq<Event>)
    requires p != q && Name(p, s) == Name(q, t)
    ensures ConfigsWithin(config, run, {p, q}) && NoStray(config, run)
    ensures Exec(config, run).Some? && !Agreement(Exec(config, run).value)
  {
    config, run := BothRegister(p, s, q, t);
    BothDesired(p, q);
    var fewer := Config(true, [Peer(q, true)], 0);
    ExecStep(config, run, Reload(fewer));
    run := run + [Reload(fewer)];
    var s4 := Exec(config, run).value;
    ExecStep(config, run, Start);
    run := run + [Start];
    assert p in Dropped(s4.peers, {q}) && Name(p, s) in Dropped(s4.peers, {q})[p];
    var s5 := Exec(config, run).value;
    assert q in s5.peers && Name(p, s) in s5.peers[q];
    assert Name(p, s) in Listed(s5.peers);
    UnbrokenIsNoStray(config, run);
  }

  /** So the registry stays exact in every run over two ids without a stray answer if and only if they do not clash. */
  lemma AgreementIffNoClash(p: string, q: string)
    ensures !Clash(p, q) <==>
      forall config, run | ConfigsWithin(config, run, {p, q}) && NoStray(config, run) && Exec(config, run).Some? ::
        Agreement(Exec(config, run).value)
  {
    if Clash(p, q) {
      ClashIsSharedName(p, q);
      var s, t :| Name(p, s) == Name(q, t);
      var _, _ := ClashBreaksAgreement(p, s, q, t);
    } else {
      assert ClashFree({p, q});
      forall config, run | ConfigsWithin(config, run, {p, q}) && NoStray(config, run) && Exec(config, run).Some?
        ensures Agreement(Exec(config, run).value)
      {
        RegistryAgreement(config, run, {p, q});
      }
    }
  }

  /** A failed poll does not keep the peer's agents, as the header comment has it: it unregisters every one
      of them, while the peer itself stays. */
  lemma FailedPollUnregisters(s: State, f: nat)
    requires f in s.fetches && s.fetches[f].run == s.run
    ensures var id, t := s.fetches[f].id, Apply(s, CardArrives(f, Failed));
      && id in t.peers && t.peers[id] == []
      && t.agents == s.agents - (if id in s.peers then Ids(s.peers[id]) else {})
  {
    assert Ids([]) == {};
  }

  /** A poll of the current run registers what its answer offers. Of the rest it takes out exactly what the peer listed,
      unless the answer breaks off: then it takes out nothing. */
  lemma PollKeepsIff(s: State, f: nat, answer: Answer, n: string)
    requires f in s.fetches && s.fetches[f].run == s.run
    ensures var id, t := s.fetches[f].id, Apply(s, CardArrives(f, answer));
      var offered := !answer.Failed? && exists skill | skill in answer.skills :: n == Name(id, skill);
      n in t.agents <==> offered || (n in s.agents && (answer.Broken? || !Lists(s, id, n)))
  {
    if !answer.Failed? {
      NamesAre(s.fetches[f].id, answer.skills, n);
    } else {
      assert Ids([]) == {};
    }
  }

  // ---- Exactly how long an agent stays registered ----

  /** A poll of the current run for this id answers, without breaking off, or fails. */
  ghost predicate Answers(s: State, e: Event, id: string) {
    e.CardArrives? && e.fetch in s.fetches && s.fetches[e.fetch] == Fetch(s.run, id) && !e.answer.Broken?
  }

  lemma SameName(id: string, a: string, b: string)
    ensures Name(id, a) == Name(id, b) <==> a == b
  {
    assert Name(id, a)[|PREFIX| + |id| + |SEPARATOR|..] == a;
    assert Name(id, b)[|PREFIX| + |id| + |SEPARATOR|..] == b;
  }

  lemma NamedIff(id: string, skills: seq<string>, skill: string)
    ensures Name(id, skill) in Names(id, skills) <==> skill in skills
  {
    NamesAre(id, skills, Name(id, skill));
    forall other | other in skills ensures Name(id, skill) == Name(id, other) <==> skill == other {
      SameName(id, skill, other);
    }
  }

  /** While the config wants an id, only an answer changes what its peer lists: to what the card offers. */
  lemma StepLists(s: State, e: Event, id: string, skill: string)
    requires Enabled(s, e) && !e.Reload? && id in Desired(s.config)
    ensures Apply(s, e).config == s.config
    ensures Lists(Apply(s, e), id, Name(id, skill)) <==>
      if Answers(s, e, id) then e.answer.Full? && skill in e.answer.skills else Lists(s, id, Name(id, skill))
  {
    if e.CardArrives? && e.answer.Full? {
      NamedIff(id, e.answer.skills, skill);
    }
  }

  /** What the last poll for this id got that answered among `after`. */
  ghost function LastAnswer(config: Config, run: seq<Event>, after: seq<Event>, id: string): Option<Answer> {
    if after == [] then None
    else if Exec(config, run + Init(after)).Some? && Answers(Exec(config, run + Init(after)).value, Last(after), id) then Some(Last(after).answer)
    else LastAnswer(config, run, Init(after), id)
  }

  lemma {:induction false} ListedIff(config: Config, run: seq<Event>, after: seq<Event>, id: string, skill: string)
    requires Exec(config, run + after).Some? && forall e | e in after :: !e.Reload?
    ensures Exec(config, run).Some?
    ensures var s, t, last := Exec(config, run).value, Exec(config, run + after).value, LastAnswer(config, run, after, id);
      id in Desired(s.config) ==>
        && t.config == s.config
        && (Lists(t, id, Name(id, skill)) <==>
             if last.None? then Lists(s, id, Name(id, skill)) else last.value.Full? && skill in last.value.skills)
    decreases |after|
  {
    if after == [] {
      assert run + after == run;
    } else {
      assert Init(run + after) == run + Init(after);
      assert Last(after) in after && forall e | e in Init(after) :: e in after;
      ListedIff(config, run, Init(after), id, skill);
      if id in Desired(Exec(config, run).value.config) {
        StepLists(Exec(config, run + Init(after)).value, Last(after), id, skill);
      }
    }
  }

  lemma {:induction false} NoStrayBefore(config: Config, run: seq<Event>, after: seq<Event>)
    requires NoStray(config, run + after)
    ensures NoStray(config, run)
    decreases |after|
  {
    if after == [] {
      assert run + after == run;
    } else {
      assert Init(run + after) == run + Init(after);
      NoStrayBefore(config, run, Init(after));
    }
  }

  /** In every run over ids that do not clash and without a stray answer, while the config wants a peer: an agent of the
      peer is registered later exactly if the last poll that answered in full or failed since then got a card with its
      skill, or, when there was none, if it was registered before. */
  lemma StaysRegisteredIff(config: Config, run: seq<Event>, after: seq<Event>, ids: set<string>, id: string, skill: string)
    requires ClashFree(ids) && ConfigsWithin(config, run + after, ids) && NoStray(config, run + after)
    requires Exec(config, run + after).Some? && (forall e | e in after :: !e.Reload?)
    requires Exec(config, run).Some? && id in Desired(Exec(config, run).value.config)
    ensures var s, t, last := Exec(config, run).value, Exec(config, run + after).value, LastAnswer(config, run, after, id);
      Name(id, skill) in t.agents <==>
        if last.None? then Name(id, skill) in s.agents else last.value.Full? && skill in last.value.skills
  {
    assert forall e | e in run :: e in run + after;
    NoStrayBefore(config, run, after);
    RegistryAgreement(config, run, ids);
    RegistryAgreement(config, run + after, ids);
    ListedIff(config, run, after, id, skill);
    RegisteredIffListed(Exec(config, run).value, ids, id, skill);
    RegisteredIffListed(Exec(config, run + after).value, ids, id, skill);
  }

  /** A stray agent outlives its peer: the card breaks off behind one skill, the peer leaves the config, and after the
      restart the agent is still registered, listed by nobody. */
  lemma StrayAgentStays(id: string, skill: string) returns (config: Config, run: seq<Event>)
    ensures Desired(config) == [id] && |run| == 4
    ensures Exec(config, run).Some? && Desired(Exec(config, run).value.config) == []
    ensures Exec(config, run).value.peers == map[] && Exec(config, run).value.agents == {Name(id, skill)}
  {
    config := Config(true, [Peer(id, true)], 0);
    BothDesired(id, id);
    FirstStart(config);
    ExecStep(config, [], Start);
    var s1 := Apply(Idle(config), Start);
    var breaks := CardArrives(0, Broken([skill]));
    ExecStep(config, [] + [Start], breaks);
    var s2 := Apply(s1, breaks);
    assert Names(id, [skill]) == [Name(id, skill)] && Ids([Name(id, skill)]) == {Name(id, skill)};
    assert s2.agents == {Name(id, skill)} && s2.peers == map[];
    var none := Config(true, [], 0);
    ExecStep(config, [] + [Start] + [breaks], Reload(none));
    var s3 := Apply(s2, Reload(none));
    assert Dropped(s3.peers, {}) == map[] && Listed(map[]) == {} && Kept(s3.peers, {}) == map[] && Ids([]) == {};
    ExecStep(config, [] + [Start] + [breaks] + [Reload(none)], Start);
    run := [] + [Start] + [breaks] + [Reload(none)] + [Start];
  }

  lemma FailedFirstCard(s: State, f: nat)
    requires f in s.fetches && s.fetches[f].run == s.run && s.fetches[f].id !in s.peers
    ensures Apply(s, CardArrives(f, Failed)) == s.(fetches := s.fetches - {f}, peers := s.peers[s.fetches[f].id := []])
  {
    assert Ids([]) == {};
  }

  lemma TickPolls(s: State, timer: nat)
    requires timer in s.live && s.peers.Keys <= Ids(Desired(s.config))
    ensures Apply(s, Tick(timer))
         == s.(fetches := s.fetches + Launched(s.run, Desired(s.config), s.nextFetch), nextFetch := s.nextFetch + |Desired(s.config)|,
               polled := s.polled + Ids(Desired(s.config)))
  {
    assert Dropped(s.peers, Ids(Desired(s.config))) == map[];
    assert Kept(s.peers, Ids(Desired(s.config))) == s.peers;
    assert Listed(map[]) == {};
  }

  /** One peer, polled once, and an interval set for it: the state in which its first tick polls it again. */
  lemma FirstTick(id: string) returns (config: Config, run: seq<Event>)
    ensures config == Config(true, [Peer(id, true)], 1)
    ensures Exec(config, run).Some? && forall e | e in run :: !e.Stop?
    ensures var s := Exec(config, run).value;
      s.config == config && s.run == 1 && s.live == {0} && s.fetches == map[1 := Fetch(1, id)] && s.nextFetch == 2
  {
    var three;
    config, three := FirstReturn(id);
    var s3 := Exec(config, three).value;
    TickPolls(s3, 0);
    ExecStep(config, three, Tick(0));
    run := three + [Tick(0)];
    var s4 := Apply(s3, Tick(0));
    assert s4.fetches == map[] + Launched(1, [id], 1) && s4.nextFetch == 2 && s4.live == {0};
    assert Launched(1, [id], 1) == map[1 := Fetch(1, id)];
  }

  /** The state before that tick. */
  lemma FirstReturn(id: string) returns (config: Config, run: seq<Event>)
    ensures config == Config(true, [Peer(id, true)], 1) && Desired(config) == [id]
    ensures Exec(config, run).Some? && forall e | e in run :: !e.Stop?
    ensures var s := Exec(config, run).value;
      s.config == config && s.run == 1 && s.live == {0} && s.fetches == map[] && s.nextFetch == 1 && s.peers.Keys <= Ids(Desired(config))
  {
    config := Config(true, [Peer(id, true)], 1);
    assert Desired(config) == [id] by {
      assert EnabledIds([Peer(id, true)]) == [id] + EnabledIds([]);
    }
    FirstStart(config);
    ExecStep(config, [], Start);
    var s1 := Apply(Idle(config), Start);
    FailedFirstCard(s1, 0);
    ExecStep(config, [] + [Start], CardArrives(0, Failed));
    var s2 := Apply(s1, CardArrives(0, Failed));
    assert s2.fetches == map[];
    ExecStep(config, [] + [Start] + [CardArrives(0, Failed)], StartReturns(1));
    run := [] + [Start] + [CardArrives(0, Failed)] + [StartReturns(1)];
    assert id in Ids([id]);
  }

  /** Without a restart the safety is lost: a tick that still polls a peer overlaps the reload that removes
      it and the tick that drops it, and registers the peer again. */
  lemma OverlappingTickReregisters(id: string) returns (config: Config, run: seq<Event>)
    ensures Exec(config, run).Some? && forall e | e in run :: !e.Stop?
    ensures var s := Exec(config, run).value;
      s.config.enabled && Desired(s.config) == [] && id in s.peers
  {
    config, run := FirstTick(id);
    var none := Config(true, [], 1);
    var s4 := Exec(config, run).value;
    ExecStep(config, run, Reload(none));
    var s5 := Apply(s4, Reload(none));
    ExecStep(config, run + [Reload(none)], Tick(0));
    var s6 := Apply(s5, Tick(0));
    assert s6.peers == map[] && s6.fetches == s5.fetches && s6.run == 1;
    ExecStep(config, run + [Reload(none)] + [Tick(0)], CardArrives(1, Failed));
    FailedFirstCard(s6, 1);
    run := run + [Reload(none)] + [Tick(0)] + [CardArrives(1, Failed)];
  }

  // ---- Exactly when a reload without a restart lets an unwanted peer in ----

  /** Every registered peer is wanted by the config of the moment. */
  ghost predicate Contained(s: State) {
    s.peers.Keys <= Ids(Desired(s.config))
  }

  /** A poll of the current run answers for an id the config no longer wants. */
  ghost predicate UnwantedAnswer(s: State, e: Event) {
    && e.CardArrives? && !e.answer.Broken? && e.fetch in s.fetches && s.fetches[e.fetch].run == s.run
    && s.fetches[e.fetch].id !in Desired(s.config)
  }

  predicate Refreshes(e: Event) {
    e.Start? || e.Tick?
  }

  /** The only steps that end containment: such an answer, or a reload that drops a peer that is registered. */
  lemma StepContained(s: State, e: Event)
    requires Enabled(s, e)
    ensures Refreshes(e) ==> Contained(Apply(s, e))
    ensures !Refreshes(e) && !e.Reload? ==> (Contained(Apply(s, e)) <==> Contained(s) && !UnwantedAnswer(s, e))
    ensures e.Reload? ==> (Contained(Apply(s, e)) <==> s.peers.Keys <= Ids(Desired(e.config)))
  {
    if e.CardArrives? && s.fetches[e.fetch].run == s.run && !e.answer.Broken? {
      var t := Apply(s, e);
      assert t.peers.Keys == s.peers.Keys + {s.fetches[e.fetch].id} && t.config == s.config;
    }
    if Refreshes(e) {
      var t := Apply(s, e);
      assert t.config == s.config && t.peers == Kept(s.peers, Ids(Desired(s.config)));
    }
  }

  /** No answer among `after` is for an id that is unwanted by then. */
  ghost predicate NoUnwantedAnswer(config: Config, before: seq<Event>, after: seq<Event>) {
    forall k | 0 <= k < |after| ::
      Exec(config, before + after[..k]).Some? ==> !UnwantedAnswer(Exec(config, before + after[..k]).value, after[k])
  }

  lemma NoUnwantedMore(config: Config, before: seq<Event>, after: seq<Event>)
    requires after != [] && Exec(config, before + Init(after)).Some?
    ensures NoUnwantedAnswer(config, before, after) <==>
      NoUnwantedAnswer(config, before, Init(after)) && !UnwantedAnswer(Exec(config, before + Init(after)).value, Last(after))
  {
    assert forall k | 0 <= k < |Init(after)| :: Init(after)[..k] == after[..k];
    assert after[..|after| - 1] == Init(after);
  }

  /** In any run, since its last start or tick and reload before it: the registered peers are all wanted exactly if no
      poll of the run then current has answered since for an id that is not. */
  lemma {:induction false} ContainedIff(config: Config, before: seq<Event>, refresh: Event, after: seq<Event>)
    requires Refreshes(refresh) && forall e | e in after :: !Refreshes(e) && !e.Reload?
    requires Exec(config, before + [refresh] + after).Some?
    ensures Contained(Exec(config, before + [refresh] + after).value) <==> NoUnwantedAnswer(config, before + [refresh], after)
    decreases |after|
  {
    var run := before + [refresh];
    if after == [] {
      assert run + after == run && Init(run) == before;
      StepContained(Exec(config, before).value, refresh);
    } else {
      assert Init(run + after) == run + Init(after);
      assert Last(after) in after && forall e | e in Init(after) :: e in after;
      ContainedIff(config, before, refresh, Init(after));
      StepContained(Exec(config, run + Init(after)).value, Last(after));
      NoUnwantedMore(config, run, after);
    }
  }

  // ---- The client: module state changed in place ----

  lemma IdsSnoc(ids: seq<string>, id: string)
    ensures Ids(ids + [id]) == Ids(ids) + {id}
  {
    var more := ids + [id];
    assert forall x :: x in more <==> x in ids || x == id;
  }

  class Client {
    var config: Config
    var run: nat
    var peers: map<string, seq<string>>
    var agents: set<string>
    var timer: Option<nat>
    var live: set<nat>
    var nextTimer: nat
    var fetches: map<nat, Fetch>
    var nextFetch: nat
    var starts: map<nat, StartCall>
    ghost var timerRun: nat
    ghost var startConfig: Option<Config>
    ghost var polled: set<string>

    ghost function View(): State
      reads this
    {
      State(config, run, peers, agents, timer, live, nextTimer, fetches, nextFetch, starts, timerRun, startConfig, polled)
    }

    /** What holds between two turns. */
    ghost predicate Valid()
      reads this
    {
      EpochInv(View()) && TimerInv(View())
    }

    constructor (config: Config)
      ensures Valid() && View() == Idle(config)
    {
      this.config, run, peers, agents, timer, live, nextTimer := config, 0, map[], {}, None, {}, 0;
      fetches, nextFetch, starts := map[], 0, map[];
      timerRun, startConfig, polled := 0, None, {};
    }

    ghost method Keeps(e: Event)
      requires Valid() && Enabled(View(), e)
      ensures EpochInv(Apply(View(), e)) && TimerInv(Apply(View(), e))
    {
      StepEpoch(View(), e);
      StepTimer(View(), e);
    }

    method StopRun()
      modifies this`run, this`timer, this`live
      ensures View() == Stopped(old(View()))
    {
      run := run + 1;
      if timer.Some? {
        live := live - {timer.value};
        timer := None;
      }
    }

    /** `stopA2AClient` */
    method StopClient()
      requires Valid()
      modifies this`run, this`timer, this`live
      ensures Valid()
      ensures View() == Apply(old(View()), Stop)
    {
      Keeps(Stop);
      StopRun();
    }

    /** `unregisterPeer`, lines 252 to 260 */
    method UnregisterPeer(id: string)
      modifies this`peers, this`agents
      ensures peers == old(peers) - {id}
      ensures agents == old(agents) - (if id in old(peers) then Ids(old(peers)[id]) else {})
    {
      if id !in peers { return; }
      UnregisterAll(peers[id]);
      peers := peers - {id};
    }

    method UnregisterAll(names: seq<string>)
      modifies this`agents
      ensures agents == old(agents) - Ids(names)
    {
      for i := 0 to |names|
        invariant agents == old(agents) - Ids(names[..i])
      {
        agents := agents - {names[i]};
        assert Ids(names[..i + 1]) == Ids(names[..i]) + {names[i]};
      }
      assert names[..|names|] == names;
    }

    /** Lines 154 to 159: drop the peers that left the config. */
    method DropGonePeers(desired: seq<string>)
      modifies this`peers, this`agents
      ensures peers == Kept(old(peers), Ids(desired))
      ensures agents == old(agents) - Listed(Dropped(old(peers), Ids(desired)))
    {
      var left := peers.Keys;
      while left != {}
        invariant left <= peers.Keys <= old(peers).Keys
        invariant forall id | id in peers :: peers[id] == old(peers)[id]
        invariant forall id | id in old(peers) :: id in peers <==> id in left || id in desired
        invariant agents == old(agents) - Listed(Dropped(old(peers), peers.Keys))
        decreases left
      {
        var id :| id in left;
        left := left - {id};
        if id !in desired {
          DropOneMore(old(peers), peers.Keys, id);
          UnregisterPeer(id);
        }
      }
      assert Dropped(old(peers), peers.Keys) == Dropped(old(peers), Ids(desired));
    }

    /** `refreshAllPeers` up to its await: then a poll is launched for each desired peer. */
    method RefreshAllPeers()
      modifies this`peers, this`agents, this`fetches, this`nextFetch, this`polled
      ensures View() == Refresh(old(View()))
    {
      var desired := Desired(config);
      DropGonePeers(desired);
      fetches := fetches + Launched(run, desired, nextFetch);
      nextFetch := nextFetch + |desired|;
      polled := polled + Ids(desired);
    }

    /** The interval's callback */
    method TimerTicks(timer: nat)
      requires Valid() && timer in live
      modifies this`peers, this`agents, this`fetches, this`nextFetch, this`polled
      ensures Valid()
      ensures View() == Apply(old(View()), Tick(timer))
    {
      Keeps(Tick(timer));
      RefreshAllPeers();
    }

    /** The refresh a start waits for. */
    method FirstRefresh()
      modifies this
      ensures var t := Refresh(old(View()).(startConfig := Some(old(config)), polled := {}));
        View() == t.(starts := t.starts[t.run := StartCall(old(config), t.fetches.Keys - old(fetches).Keys)])
    {
      startConfig, polled := Some(config), {};
      var before := fetches.Keys;
      RefreshAllPeers();
      starts := starts[run := StartCall(config, fetches.Keys - before)];
    }

    /** `startA2AClient` up to its await */
    method StartClient()
      requires Valid()
      modifies this
      ensures Valid()
      ensures View() == Apply(old(View()), Start)
    {
      Keeps(Start);
      StopRun();
      FirstRefresh();
    }

    method SetTimer(r: nat)
      modifies this`timer, this`live, this`nextTimer, this`timerRun
      ensures View() == old(View()).(timer := Some(old(nextTimer)), live := old(live) + {old(nextTimer)},
                                     nextTimer := old(nextTimer) + 1, timerRun := r)
    {
      timer, live, nextTimer, timerRun := Some(nextTimer), live + {nextTimer}, nextTimer + 1, r;
    }

    /** What `startA2AClient` does once its polls have settled: lines 115 to 122. */
    method StartContinues(r: nat)
      requires Valid()
      requires Enabled(View(), StartReturns(r))
      modifies this
      ensures Valid()
      ensures View() == Apply(old(View()), StartReturns(r))
    {
      Keeps(StartReturns(r));
      var captured := starts[r].config;
      starts := starts - {r};
      if r != run || !captured.enabled { return; }
      if captured.refreshIntervalMs > 0 { SetTimer(r); }
    }

    /** Lines 218 to 226: register the card's skills, keeping score of the names that went stale. */
    method RegisterSkills(id: string, skills: seq<string>, before: set<string>)
      returns (virtualAgents: seq<string>, stale: set<string>)
      modifies this`agents
      ensures virtualAgents == Names(id, skills)
      ensures agents == old(agents) + Ids(virtualAgents) && stale == before - Ids(virtualAgents)
    {
      virtualAgents, stale := [], before;
      for i := 0 to |skills|
        invariant virtualAgents == Names(id, skills)[..i]
        invariant agents == old(agents) + Ids(virtualAgents)
        invariant stale == before - Ids(virtualAgents)
      {
        var name := Name(id, skills[i]);
        agents := agents + {name};
        IdsSnoc(virtualAgents, name);
        virtualAgents := virtualAgents + [name];
        stale := stale - {name};
      }
    }

    /** Lines 199 to 243: register the card's skills, unregister those it lost. When the list breaks off the loop over it
        throws, and neither the stale names nor the record is reached. */
    method RegisterCard(id: string, answer: Answer)
      modifies this`peers, this`agents
      ensures View() == Register(old(View()), id, answer)
    {
      var stale := if id in peers then Ids(peers[id]) else {};
      var virtualAgents: seq<string> := [];
      if !answer.Failed? {
        virtualAgents, stale := RegisterSkills(id, answer.skills, stale);
      }
      if answer.Broken? { return; }
      assert Ids([]) == {};
      agents := agents - stale;
      peers := peers[id := virtualAgents];
    }

    /** `refreshPeer` from the run check on. */
    method CardReturns(f: nat, answer: Answer)
      requires Valid() && Enabled(View(), CardArrives(f, answer))
      modifies this`fetches, this`peers, this`agents
      ensures Valid()
      ensures View() == Apply(old(View()), CardArrives(f, answer))
    {
      Keeps(CardArrives(f, answer));
      var fetch := fetches[f];
      fetches := fetches - {f};
      if fetch.run == run { RegisterCard(fetch.id, answer); }
    }
  }

  lemma DropOneMore(peers: map<string, seq<string>>, kept: set<string>, id: string)
    requires id in kept && id in peers
    ensures Listed(Dropped(peers, kept - {id})) == Listed(Dropped(peers, kept)) + Ids(peers[id])
  {
    var fewer, more := Dropped(peers, kept), Dropped(peers, kept - {id});
    forall n
      ensures n in Listed(more) <==> n in Listed(fewer) || n in Ids(peers[id])
    {
      if n in Listed(fewer) {
        var p :| p in fewer && n in fewer[p];
        assert n in more[p];
      }
      if n in Ids(peers[id]) {
        assert n in more[id];
      }
    }
  }
}
