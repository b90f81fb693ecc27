/** The draining pipeline (clusterman/draining/queue.py) as a transition system over its queues,
    its dedupe cache and a history of what was done. */
module Draining {
  import opened Arithmetic
  import opened Wrappers

  type Id = int

  type Pool = int

  datatype Scheduler = Mesos | Kubernetes | Other

  /** A host message, when it becomes visible, and its history: when it was submitted or refreshed and
      the hops it has made since. */
  datatype Msg = Msg(instance: Id, agent: Option<int>, scheduler: Scheduler, pool: Pool, start: int, attempt: int,
                     visibleAt: int, submitted: int, redrains: nat, refreshes: nat)

  datatype PoolConfig = PoolConfig(forceTerminate: bool, threshold: int, delay: int)

  /** What EC2 says about an instance; a description without a DNS name makes the lookup fail. */
  datatype Described = NotFound | Found(agent: Option<int>, scheduler: Scheduler) | Fails

  /** The outside answers one drain step may ask for. */
  datatype Answer = Answer(drained: bool, described: Described)

  datatype Asked = Asked(msg: Msg, now: int, answer: Answer)

  datatype State = State(warning: multiset<Id>, drain: multiset<Msg>, term: multiset<Msg>, cache: map<Id, int>,
                         now: int, asked: seq<Asked>, submitted: set<Id>, terminated: set<Id>, missing: set<Id>,
                         uncordoned: set<Id>)

  type Config = Pool -> PoolConfig

  const DrainCacheSeconds := 1800

  // ---- the steps -------------------------------------------------------------------------

  function Redrain(m: Msg, now: int, delay: int): Msg {
    m.(attempt := m.attempt + 1, visibleAt := now + delay, redrains := m.redrains + 1)
  }

  function Refresh(m: Msg, now: int, agent: Option<int>, scheduler: Scheduler): Msg {
    Msg(m.instance, agent, scheduler, m.pool, now, m.attempt + 1, now, now, m.redrains, m.refreshes + 1)
  }

  predicate Expired(c: PoolConfig, m: Msg, now: int) {
    now - m.start > c.threshold
  }

  /** A first attempt at an instance that is in the cache is a duplicate. */
  predicate Duplicate(cache: map<Id, int>, m: Msg) {
    m.instance in cache && m.attempt <= 1
  }

  /** What is to become of a message that is not a duplicate. */
  datatype Decision = ToTermination | Nonexistent | Again(msg: Msg) | Uncordon | Keep

  function Decide(c: PoolConfig, m: Msg, now: int, a: Answer): Decision {
    if m.scheduler != Kubernetes then ToTermination
    else if m.agent.None? then
      match a.described
      case NotFound => Nonexistent
      case Found(None, _) => ToTermination
      case Found(Some(agent), scheduler) => Again(Refresh(m, now, Some(agent), scheduler))
      case Fails => Keep
    else if Expired(c, m, now) then (if c.forceTerminate then ToTermination else Uncordon)
    else if a.drained then ToTermination
    else Again(Redrain(m, now, c.delay))
  }

  function Forget(cache: map<Id, int>, id: Id): map<Id, int> {
    cache - {id}
  }

  /** Carrying out a decision; except when the lookup failed, the message is deleted at the end. */
  function Apply(s: State, m: Msg, d: Decision): State {
    match d
    case ToTermination => s.(drain := s.drain - multiset{m}, term := s.term + multiset{m})
    case Nonexistent => s.(drain := s.drain - multiset{m}, missing := s.missing + {m.instance})
    case Again(next) => s.(drain := s.drain + multiset{next} - multiset{m})
    case Uncordon => s.(drain := s.drain - multiset{m}, cache := Forget(s.cache, m.instance),
                        uncordoned := s.uncordoned + {m.instance})
    case Keep => s
  }

  /** The state with the instance put into the cache and the answer recorded. */
  function Begun(s: State, m: Msg, a: Answer): State {
    s.(cache := s.cache[m.instance := s.now + DrainCacheSeconds], asked := s.asked + [Asked(m, s.now, a)])
  }

  function DrainStep(cfg: Config, s: State, m: Msg, a: Answer): State {
    if Duplicate(s.cache, m) then s.(drain := s.drain - multiset{m})
    else Apply(Begun(s, m, a), m, Decide(cfg(m.pool), m, s.now, a))
  }

  /** A termination message is deleted once terminating the host has succeeded. */
  function TerminateStep(s: State, m: Msg, ok: bool): State {
    if ok then s.(term := s.term - multiset{m}, terminated := s.terminated + {m.instance}) else s
  }

  function FirstMsg(s: State, instance: Id, agent: Option<int>, scheduler: Scheduler, pool: Pool, start: int): Msg {
    Msg(instance, agent, scheduler, pool, start, 1, s.now, s.now, 0, 0)
  }

  function SubmitStep(s: State, instance: Id, agent: Option<int>, scheduler: Scheduler, pool: Pool, start: int): State
  {
    var m := FirstMsg(s, instance, agent, scheduler, pool, start);
    s.(drain := s.drain + multiset{m}, submitted := s.submitted + {instance})
  }

  /** A spot warning is passed on to the drain queue if the host is described and in a target group;
      in every case but a failed lookup the warning is deleted. */
  function WarnStep(s: State, instance: Id, described: Described, inGroup: bool, noPool: Pool): State {
    match described
    case NotFound => s.(warning := s.warning - multiset{instance})
    case Fails => s
    case Found(agent, scheduler) =>
      var t := s.(warning := s.warning - multiset{instance});
      if inGroup then SubmitStep(t, instance, agent, scheduler, noPool, s.now) else t
  }

  /** Entries past their expiration time are removed. */
  function CleanStep(s: State): State {
    s.(cache := map id | id in s.cache && s.now <= s.cache[id] :: s.cache[id])
  }

  datatype Step =
    | Submit(instance: Id, agent: Option<int>, scheduler: Scheduler, pool: Pool, start: int)
    | SpotWarning(instance: Id)
    | Warn(instance: Id, described: Described, inGroup: bool, noPool: Pool)
    | Drain(msg: Msg, answer: Answer)
    | Terminate(msg: Msg, ok: bool)
    | Clean
    | Tick(time: int)

  predicate Enabled(s: State, step: Step) {
    match step
    case Warn(id, _, _, _) => id in s.warning
    case Drain(m, _) => m in s.drain && m.visibleAt <= s.now
    case Terminate(m, _) => m in s.term
    case Tick(t) => s.now <= t
    case _ => true
  }

  function Next(cfg: Config, s: State, step: Step): State {
    match step
    case Submit(id, agent, scheduler, pool, start) => SubmitStep(s, id, agent, scheduler, pool, start)
    case SpotWarning(id) => s.(warning := s.warning + multiset{id})
    case Warn(id, described, inGroup, noPool) => WarnStep(s, id, described, inGroup, noPool)
    case Drain(m, a) => DrainStep(cfg, s, m, a)
    case Terminate(m, ok) => TerminateStep(s, m, ok)
    case Clean => CleanStep(s)
    case Tick(t) => s.(now := t)
  }

  /** A drain step in which the lookup of an orphan fails half-way. */
  predicate LookupFails(s: State, step: Step) {
    step.Drain? && step.answer.described.Fails? && step.msg.agent.None? && step.msg.scheduler == Kubernetes
      && !Duplicate(s.cache, step.msg)
  }

  // ---- what a receipt does, in the fields of its message ----------------------------------

  /** The recorded answer justifies terminating the Kubernetes host it was asked for. */
  ghost predicate Justifies(c: PoolConfig, e: Asked) {
    if e.msg.agent.None? then e.answer.described.Found? && e.answer.described.agent.None?
    else if e.now - e.msg.start > c.threshold then c.forceTerminate
    else e.answer.drained
  }

  /** The host is to be terminated. */
  ghost predicate Ends(c: PoolConfig, e: Asked) {
    e.msg.scheduler != Kubernetes || Justifies(c, e)
  }

  /** The host was looked up and does not exist. */
  ghost predicate NotThere(e: Asked) {
    e.msg.scheduler == Kubernetes && e.msg.agent.None? && e.answer.described.NotFound?
  }

  /** The threshold has passed, and terminating is not forced. */
  ghost predicate GivenUp(c: PoolConfig, e: Asked) {
    e.msg.scheduler == Kubernetes && e.msg.agent.Some? && e.now - e.msg.start > c.threshold && !c.forceTerminate
  }

  /** Draining did not succeed within the threshold, and is tried again after the delay. */
  ghost predicate Redrained(c: PoolConfig, e: Asked, next: Msg) {
    var m := e.msg;
    && m.scheduler == Kubernetes && m.agent.Some? && e.now - m.start <= c.threshold && !e.answer.drained
    && next == Msg(m.instance, m.agent, Kubernetes, m.pool, m.start, m.attempt + 1, e.now + c.delay, m.submitted,
                   m.redrains + 1, m.refreshes)
  }

  /** The lookup found an agent id, and draining starts anew with it. */
  ghost predicate Refreshed(e: Asked, next: Msg) {
    var m, d := e.msg, e.answer.described;
    && m.scheduler == Kubernetes && m.agent.None? && d.Found? && d.agent.Some?
    && next == Msg(m.instance, d.agent, d.scheduler, m.pool, e.now, m.attempt + 1, e.now, e.now, m.redrains,
                   m.refreshes + 1)
  }

  /** What is put on the drain queue for a message that is taken off it. */
  ghost predicate SentBack(c: PoolConfig, e: Asked, sent: multiset<Msg>) {
    || (sent == multiset{e.msg} &&
        e.msg.scheduler == Kubernetes && e.msg.agent.None? && e.answer.described.Fails?)
    || (exists next :: (Redrained(c, e, next) || Refreshed(e, next)) && sent == multiset{next})
    || (sent == multiset{} && (Ends(c, e) || NotThere(e) || GivenUp(c, e)))
  }

  /** The message is taken off the drain queue, and what is sent back is put on it. */
  ghost predicate Replaced(c: PoolConfig, e: Asked, before: multiset<Msg>, after: multiset<Msg>) {
    exists sent :: SentBack(c, e, sent) && after == before - multiset{e.msg} + sent
  }

  /** s becomes t when m is received and is not a duplicate. */
  ghost predicate Handled(c: PoolConfig, s: State, m: Msg, a: Answer, t: State) {
    var e := Asked(m, s.now, a);
    && t.asked == s.asked + [e]
    && Replaced(c, e, s.drain, t.drain)
    && t.term == (if Ends(c, e) then s.term + multiset{m} else s.term)
    && t.missing == (if NotThere(e) then s.missing + {m.instance} else s.missing)
    && t.uncordoned == (if GivenUp(c, e) then s.uncordoned + {m.instance} else s.uncordoned)
    && t.cache == (if GivenUp(c, e) then s.cache - {m.instance} else s.cache[m.instance := s.now + 1800])
    && t.warning == s.warning && t.now == s.now && t.submitted == s.submitted && t.terminated == s.terminated
  }

  /** What a decision puts on the drain queue. */
  ghost function Sent(m: Msg, d: Decision): multiset<Msg> {
    match d
    case Again(next) => multiset{next}
    case Keep => multiset{m}
    case _ => multiset{}
  }

  lemma DecisionSends(c: PoolConfig, m: Msg, now: int, a: Answer)
    ensures SentBack(c, Asked(m, now, a), Sent(m, Decide(c, m, now, a)))
  {
    var e, d := Asked(m, now, a), Decide(c, m, now, a);
    if d.Again? { assert Redrained(c, e, d.msg) || Refreshed(e, d.msg); }
  }

  lemma DecisionEnds(c: PoolConfig, m: Msg, now: int, a: Answer)
    ensures var e, d := Asked(m, now, a), Decide(c, m, now, a);
      (d == ToTermination <==> Ends(c, e)) && (d == Nonexistent <==> NotThere(e)) && (d == Uncordon <==> GivenUp(c, e))
  {
  }

  lemma ApplyDrain(s: State, m: Msg, d: Decision)
    requires m in s.drain
    ensures Apply(s, m, d).drain == s.drain - multiset{m} + Sent(m, d)
  {
  }

  /** The parts of the state a decision changes. */
  lemma ApplyParts(s: State, m: Msg, d: Decision)
    ensures var t := Apply(s, m, d);
      && t == s.(drain := t.drain, term := t.term, missing := t.missing, uncordoned := t.uncordoned, cache := t.cache)
      && t.term == (if d == ToTermination then s.term + multiset{m} else s.term)
      && t.missing == (if d == Nonexistent then s.missing + {m.instance} else s.missing)
      && t.uncordoned == (if d == Uncordon then s.uncordoned + {m.instance} else s.uncordoned)
      && t.cache == (if d == Uncordon then s.cache - {m.instance} else s.cache)
  {
    match d
    case ToTermination =>
    case Nonexistent =>
    case Again(next) =>
    case Uncordon =>
    case Keep =>
  }

  lemma HandledIs(c: PoolConfig, s: State, m: Msg, a: Answer)
    requires m in s.drain
    ensures Handled(c, s, m, a, Apply(Begun(s, m, a), m, Decide(c, m, s.now, a)))
  {
    var d := Decide(c, m, s.now, a);
    DecisionSends(c, m, s.now, a);
    DecisionEnds(c, m, s.now, a);
    HandledBy(c, s, m, a, d);
  }

  lemma HandledBy(c: PoolConfig, s: State, m: Msg, a: Answer, d: Decision)
    requires m in s.drain && SentBack(c, Asked(m, s.now, a), Sent(m, d))
    requires var e := Asked(m, s.now, a);
      (d == ToTermination <==> Ends(c, e)) && (d == Nonexistent <==> NotThere(e)) && (d == Uncordon <==> GivenUp(c, e))
    ensures Handled(c, s, m, a, Apply(Begun(s, m, a), m, d))
  {
    var b := Begun(s, m, a);
    ApplyDrain(b, m, d);
    ApplyParts(b, m, d);
    BegunParts(s, m, a);
    PartsHandled(c, s, m, a, d, b, Apply(b, m, d));
  }

  lemma BegunParts(s: State, m: Msg, a: Answer)
    ensures var b := Begun(s, m, a);
      && b.asked == s.asked + [Asked(m, s.now, a)] && b.cache == s.cache[m.instance := s.now + 1800]
      && b == s.(asked := b.asked, cache := b.cache)
  {
  }

  lemma PartsHandled(c: PoolConfig, s: State, m: Msg, a: Answer, d: Decision, b: State, t: State)
    requires b.asked == s.asked + [Asked(m, s.now, a)] && b.cache == s.cache[m.instance := s.now + 1800]
    requires b == s.(asked := b.asked, cache := b.cache)
    requires SentBack(c, Asked(m, s.now, a), Sent(m, d)) && t.drain == b.drain - multiset{m} + Sent(m, d)
    requires var e := Asked(m, s.now, a);
      (d == ToTermination <==> Ends(c, e)) && (d == Nonexistent <==> NotThere(e)) && (d == Uncordon <==> GivenUp(c, e))
    requires
      && t.term == (if d == ToTermination then b.term + multiset{m} else b.term)
      && t.missing == (if d == Nonexistent then b.missing + {m.instance} else b.missing)
      && t.uncordoned == (if d == Uncordon then b.uncordoned + {m.instance} else b.uncordoned)
      && t.cache == (if d == Uncordon then b.cache - {m.instance} else b.cache)
      && t.warning == b.warning && t.now == b.now && t.submitted == b.submitted && t.terminated == b.terminated
      && t.asked == b.asked
    ensures Handled(c, s, m, a, t)
  {
    var e := Asked(m, s.now, a);
    assert Replaced(c, e, s.drain, t.drain);
    assert (s.cache[m.instance := s.now + 1800]) - {m.instance} == s.cache - {m.instance};
  }

  /** A first attempt at an instance in the cache is dropped; every other receipt is handled. */
  ghost predicate Received(cfg: Config, s: State, m: Msg, a: Answer, t: State) {
    if m.instance in s.cache && m.attempt <= 1 then t == s.(drain := s.drain - multiset{m})
    else Handled(cfg(m.pool), s, m, a, t)
  }

  lemma ReceivedIs(cfg: Config, s: State, m: Msg, a: Answer)
    requires m in s.drain
    ensures Received(cfg, s, m, a, DrainStep(cfg, s, m, a))
  {
    HandledIs(cfg(m.pool), s, m, a);
  }

  /** A host moves from the drain queue to the termination queue exactly when it is not a Kubernetes
      host or the answer justifies it. */
  lemma TerminatedIff(cfg: Config, s: State, m: Msg, a: Answer)
    requires m in s.drain && (m.instance !in s.cache || m.attempt > 1)
    ensures var t := DrainStep(cfg, s, m, a);
      t.drain == s.drain - multiset{m} && t.term == s.term + multiset{m} <==>
        m.scheduler != Kubernetes || Justifies(cfg(m.pool), Asked(m, s.now, a))
  {
    ReceivedIs(cfg, s, m, a);
    assert (s.term + multiset{m})[m] == s.term[m] + 1;
  }

  // ---- what every run keeps --------------------------------------------------------------

  /** What accounts for an instance in the cache. */
  ghost predicate Witness(s: State, id: Id) {
    || (exists m :: m in s.drain && m.instance == id && m.attempt > 1)
    || (exists m :: m in s.term && m.instance == id)
    || id in s.terminated
    || id in s.missing
  }

  /** A submitted instance is on its way or its draining has come to an end. */
  ghost predicate Tracked(s: State, id: Id) {
    || (exists m :: m in s.drain && m.instance == id)
    || (exists m :: m in s.term && m.instance == id)
    || id in s.terminated || id in s.missing || id in s.uncordoned
  }

  /** The hops of a message: every attempt after the first is a refresh or a redrain, only a message
      without agent id is refreshed, and redrains are a delay apart and within the threshold. */
  ghost predicate Hops(c: PoolConfig, now: int, m: Msg) {
    && m.attempt == 1 + m.refreshes + m.redrains && m.refreshes <= 1 && m.submitted <= now
    && (m.agent.None? ==> m.attempt == 1)
    && (m.redrains > 0 && c.delay >= 0 ==>
          && m.submitted + Multiple(c.delay, m.redrains) <= m.visibleAt
          && m.submitted + Multiple(c.delay, m.redrains - 1) <= m.start + c.threshold)
  }

  ghost predicate Justified(cfg: Config, asked: seq<Asked>, m: Msg) {
    m.scheduler == Kubernetes ==>
      exists i :: 0 <= i < |asked| && asked[i].msg == m && Justifies(cfg(m.pool), asked[i])
  }

  ghost predicate CacheOk(s: State) { forall id :: id in s.cache ==> Witness(s, id) }

  ghost predicate HopsOk(cfg: Config, s: State) { forall m :: m in s.drain ==> Hops(cfg(m.pool), s.now, m) }

  ghost predicate TermOk(cfg: Config, s: State) { forall m :: m in s.term ==> Justified(cfg, s.asked, m) }

  ghost predicate TrackedOk(s: State) { forall id :: id in s.submitted ==> Tracked(s, id) }

  /** What every run keeps, whatever the lookups answer. */
  ghost predicate QueuesOk(cfg: Config, s: State) {
    HopsOk(cfg, s) && TermOk(cfg, s)
  }

  ghost predicate Inv(cfg: Config, s: State) {
    CacheOk(s) && QueuesOk(cfg, s) && TrackedOk(s)
  }

  function Init(now: int): State {
    State(multiset{}, multiset{}, multiset{}, map[], now, [], {}, {}, {}, {})
  }

  /** Other instances keep their witness when m is taken off the drain queue. */
  lemma WitnessElsewhere(s: State, m: Msg, t: State, id: Id)
    requires Witness(s, id)
    requires s.terminated <= t.terminated && s.missing <= t.missing
    requires forall k :: k in s.drain && k != m ==> k in t.drain
    requires forall k :: k in s.term ==> k in t.term
    requires id != m.instance || m.attempt <= 1
    ensures Witness(t, id)
  {
    if k :| k in s.drain && k.instance == id && k.attempt > 1 {
      assert k in t.drain;
    } else if k :| k in s.term && k.instance == id {
      assert k in t.term;
    }
  }

  /** A message that is sent again counts one attempt more. */
  lemma AgainIsRetry(c: PoolConfig, m: Msg, now: int, a: Answer)
    requires Decide(c, m, now, a).Again?
    ensures Decide(c, m, now, a).msg.instance == m.instance && Decide(c, m, now, a).msg.attempt == m.attempt + 1
  {
  }

  /** Carrying out a decision leaves the instance with a witness, unless its lookup failed. */
  lemma AppliedWitness(s: State, m: Msg, d: Decision)
    requires m.attempt >= 1 && d != Keep
    requires d.Again? ==> d.msg.instance == m.instance && d.msg.attempt == m.attempt + 1
    ensures var t := Apply(s, m, d); m.instance in t.cache ==> Witness(t, m.instance)
  {
    var t := Apply(s, m, d);
    match d
    case ToTermination => assert m in t.term;
    case Again(next) => assert next in t.drain;
    case _ =>
  }

  /** t is s after taking m off the drain queue and adding to the rest. */
  ghost predicate TakenFrom(s: State, m: Msg, t: State) {
    && s.terminated <= t.terminated && s.missing <= t.missing && s.uncordoned <= t.uncordoned
    && (forall k :: k in s.drain && k != m ==> k in t.drain)
    && (forall k :: k in s.term ==> k in t.term)
    && t.cache.Keys <= s.cache.Keys + {m.instance} && t.submitted == s.submitted
  }

  lemma ApplyTakes(s: State, m: Msg, d: Decision)
    ensures TakenFrom(s, m, Apply(s, m, d))
  {
  }

  lemma DrainTakes(cfg: Config, s: State, m: Msg, a: Answer)
    ensures TakenFrom(s, m, DrainStep(cfg, s, m, a))
  {
    ApplyTakes(Begun(s, m, a), m, Decide(cfg(m.pool), m, s.now, a));
  }

  lemma TakenKeepsCache(s: State, m: Msg, t: State)
    requires CacheOk(s) && TakenFrom(s, m, t)
    requires m.instance in t.cache ==> Witness(t, m.instance)
    ensures CacheOk(t)
  {
    forall id | id in t.cache ensures Witness(t, id) {
      if id != m.instance { WitnessElsewhere(s, m, t, id); }
    }
  }

  /** A failing lookup leaves all witnesses as they were. */
  lemma KeptWitness(cfg: Config, s: State, m: Msg, a: Answer, id: Id)
    requires LookupFails(s, Drain(m, a))
    ensures Witness(DrainStep(cfg, s, m, a), id) <==> Witness(s, id)
  {
    var t := DrainStep(cfg, s, m, a);
    assert t.drain == s.drain && t.term == s.term && t.terminated == s.terminated && t.missing == s.missing;
  }

  lemma DrainKeepsCache(cfg: Config, s: State, m: Msg, a: Answer)
    requires CacheOk(s) && HopsOk(cfg, s) && m in s.drain
    requires LookupFails(s, Drain(m, a)) ==> Witness(s, m.instance)
    ensures CacheOk(DrainStep(cfg, s, m, a))
  {
    assert Hops(cfg(m.pool), s.now, m);
    DrainTakes(cfg, s, m, a);
    if Duplicate(s.cache, m) {
      WitnessElsewhere(s, m, DrainStep(cfg, s, m, a), m.instance);
    } else if LookupFails(s, Drain(m, a)) {
      KeptWitness(cfg, s, m, a, m.instance);
    } else {
      var d := Decide(cfg(m.pool), m, s.now, a);
      if d.Again? { AgainIsRetry(cfg(m.pool), m, s.now, a); }
      AppliedWitness(Begun(s, m, a), m, d);
    }
    TakenKeepsCache(s, m, DrainStep(cfg, s, m, a));
  }

  /** Whatever is on the drain queue afterwards was there before or is the message sent again. */
  lemma ApplyAdds(s: State, m: Msg, d: Decision)
    ensures forall k :: k in Apply(s, m, d).drain ==> k in s.drain || (d.Again? && k == d.msg)
  {
  }

  lemma AgainHops(c: PoolConfig, now: int, m: Msg, a: Answer)
    requires Hops(c, now, m) && m.visibleAt <= now && Decide(c, m, now, a).Again?
    ensures Hops(c, now, Decide(c, m, now, a).msg) && Decide(c, m, now, a).msg.pool == m.pool
  {
    if m.agent.Some? { RedrainHops(c, now, m); }
  }

  lemma DrainKeepsHops(cfg: Config, s: State, m: Msg, a: Answer)
    requires HopsOk(cfg, s) && m in s.drain && m.visibleAt <= s.now
    ensures HopsOk(cfg, DrainStep(cfg, s, m, a))
  {
    if !Duplicate(s.cache, m) {
      var d, t := Decide(cfg(m.pool), m, s.now, a), DrainStep(cfg, s, m, a);
      if d.Again? { AgainHops(cfg(m.pool), s.now, m, a); }
      ApplyAdds(Begun(s, m, a), m, d);
      assert t.now == s.now;
      forall k | k in t.drain ensures Hops(cfg(k.pool), s.now, k) {
        assert k in s.drain || k == d.msg;
      }
    }
  }

  /** A redrain keeps the start time and comes a delay later, and only within the threshold. */
  lemma RedrainHops(c: PoolConfig, now: int, m: Msg)
    requires Hops(c, now, m) && m.agent.Some? && m.visibleAt <= now && !Expired(c, m, now)
    ensures Hops(c, now, Redrain(m, now, c.delay))
  {
    assert Multiple(c.delay, m.redrains + 1) == Multiple(c.delay, m.redrains) + c.delay;
  }

  lemma JustifiedLater(cfg: Config, asked: seq<Asked>, e: Asked, m: Msg)
    requires Justified(cfg, asked, m)
    ensures Justified(cfg, asked + [e], m)
  {
    if m.scheduler == Kubernetes {
      var i :| 0 <= i < |asked| && asked[i].msg == m && Justifies(cfg(m.pool), asked[i]);
      assert (asked + [e])[i] == asked[i];
    }
  }

  lemma DrainKeepsTerm(cfg: Config, s: State, m: Msg, a: Answer)
    requires TermOk(cfg, s) && m in s.drain
    ensures TermOk(cfg, DrainStep(cfg, s, m, a))
  {
    ReceivedIs(cfg, s, m, a);
    if m.instance !in s.cache || m.attempt > 1 {
      HandledTerm(cfg, s, m, a, DrainStep(cfg, s, m, a));
    }
  }

  lemma HandledTerm(cfg: Config, s: State, m: Msg, a: Answer, t: State)
    requires TermOk(cfg, s) && Handled(cfg(m.pool), s, m, a, t)
    ensures TermOk(cfg, t)
  {
    var e := Asked(m, s.now, a);
    forall k | k in t.term ensures Justified(cfg, t.asked, k) {
      if k in s.term {
        JustifiedLater(cfg, s.asked, e, k);
      } else {
        assert k == m && t.asked[|s.asked|] == e;
      }
    }
  }

  /** Other instances stay tracked, and so does an instance whose own message is not the one taken. */
  lemma TrackedElsewhere(s: State, m: Msg, t: State, id: Id)
    requires Tracked(s, id) && id != m.instance
    requires s.terminated <= t.terminated && s.missing <= t.missing && s.uncordoned <= t.uncordoned
    requires forall k :: k in s.drain && k != m ==> k in t.drain
    requires forall k :: k in s.term ==> k in t.term
    ensures Tracked(t, id)
  {
    if k :| k in s.drain && k.instance == id {
      assert k in t.drain;
    } else if k :| k in s.term && k.instance == id {
      assert k in t.term;
    }
  }

  lemma WitnessTracks(s: State, id: Id)
    requires Witness(s, id)
    ensures Tracked(s, id)
  {
  }

  lemma DrainKeepsTracked(cfg: Config, s: State, m: Msg, a: Answer)
    requires TrackedOk(s) && CacheOk(s) && HopsOk(cfg, s) && m in s.drain
    requires LookupFails(s, Drain(m, a)) ==> Witness(s, m.instance)
    ensures TrackedOk(DrainStep(cfg, s, m, a))
  {
    DrainKeepsCache(cfg, s, m, a);
    DrainTakes(cfg, s, m, a);
    Uncordons(cfg, s, m, a);
    TakenKeepsTracked(s, m, DrainStep(cfg, s, m, a));
  }

  /** An instance leaves the cache in a drain step only when it is uncordoned. */
  lemma Uncordons(cfg: Config, s: State, m: Msg, a: Answer)
    ensures var t := DrainStep(cfg, s, m, a); m.instance in t.cache || m.instance in t.uncordoned
  {
  }

  lemma TakenKeepsTracked(s: State, m: Msg, t: State)
    requires TrackedOk(s) && CacheOk(t) && TakenFrom(s, m, t)
    requires m.instance in t.cache || m.instance in t.uncordoned
    ensures TrackedOk(t)
  {
    forall id | id in t.submitted ensures Tracked(t, id) {
      if id != m.instance {
        TrackedElsewhere(s, m, t, id);
      } else if id in t.cache {
        WitnessTracks(t, id);
      }
    }
  }

  lemma TerminateKeeps(cfg: Config, s: State, m: Msg, ok: bool)
    requires CacheOk(s) && TrackedOk(s) && m in s.term
    ensures CacheOk(TerminateStep(s, m, ok)) && TrackedOk(TerminateStep(s, m, ok))
  {
    var t := TerminateStep(s, m, ok);
    forall k | k in s.term && k != m ensures k in t.term {}
    forall id | id in t.cache ensures Witness(t, id) {
      assert Witness(s, id);
      if id != m.instance {
        if k :| k in s.term && k.instance == id { assert k in t.term; }
      }
    }
    forall id | id in t.submitted ensures Tracked(t, id) {
      assert Tracked(s, id);
      if id != m.instance {
        if k :| k in s.term && k.instance == id { assert k in t.term; }
      }
    }
  }

  lemma SubmitKeeps(s: State, id: Id, agent: Option<int>, scheduler: Scheduler, pool: Pool, start: int)
    requires CacheOk(s) && TrackedOk(s)
    ensures var t := SubmitStep(s, id, agent, scheduler, pool, start); CacheOk(t) && TrackedOk(t)
  {
    var m := FirstMsg(s, id, agent, scheduler, pool, start);
    var t := SubmitStep(s, id, agent, scheduler, pool, start);
    assert m in t.drain;
    forall i | i in t.cache ensures Witness(t, i) {
      WitnessElsewhere(s, m, t, i);
    }
    forall i | i in t.submitted ensures Tracked(t, i) {
      if i != id { TrackedElsewhere(s, m, t, i); }
    }
  }

  /** Changes that leave queues and history alone, and do not add to the cache, keep everything. */
  lemma QuietKeeps(s: State, t: State)
    requires CacheOk(s) && TrackedOk(s) && t.cache.Keys <= s.cache.Keys
    requires t == s.(warning := t.warning, cache := t.cache, now := t.now)
    ensures CacheOk(t) && TrackedOk(t)
  {
    forall id | id in t.cache ensures Witness(t, id) {
      assert Witness(s, id);
    }
    forall id | id in t.submitted ensures Tracked(t, id) {
      assert Tracked(s, id);
    }
  }

  /** Time passing, and messages that leave the queues, keep the hops and the justifications. */
  lemma QueuesLater(cfg: Config, s: State, t: State)
    requires QueuesOk(cfg, s) && s.now <= t.now && t.asked == s.asked
    requires (forall m :: m in t.drain ==> m in s.drain) && (forall m :: m in t.term ==> m in s.term)
    ensures QueuesOk(cfg, t)
  {
    forall m | m in t.drain ensures Hops(cfg(m.pool), t.now, m) {
      assert Hops(cfg(m.pool), s.now, m);
    }
  }

  lemma SubmitQueues(cfg: Config, s: State, id: Id, agent: Option<int>, scheduler: Scheduler, pool: Pool, start: int)
    requires QueuesOk(cfg, s)
    ensures QueuesOk(cfg, SubmitStep(s, id, agent, scheduler, pool, start))
  {
    var m := FirstMsg(s, id, agent, scheduler, pool, start);
    var t := SubmitStep(s, id, agent, scheduler, pool, start);
    forall k | k in t.drain ensures Hops(cfg(k.pool), t.now, k) {
      assert k == m || k in s.drain;
    }
  }

  /** Every enabled step keeps the hops and the justifications, also one whose lookup fails. */
  lemma StepKeepsQueues(cfg: Config, s: State, step: Step)
    requires QueuesOk(cfg, s) && Enabled(s, step)
    ensures QueuesOk(cfg, Next(cfg, s, step))
  {
    match step
    case Submit(id, agent, scheduler, pool, start) => SubmitQueues(cfg, s, id, agent, scheduler, pool, start);
    case Warn(id, described, inGroup, noPool) =>
      var t := s.(warning := s.warning - multiset{id});
      QueuesLater(cfg, s, t);
      if described.Found? && inGroup { SubmitQueues(cfg, t, id, described.agent, described.scheduler, noPool, s.now); }
    case Drain(m, a) =>
      DrainKeepsHops(cfg, s, m, a);
      DrainKeepsTerm(cfg, s, m, a);
    case Terminate(m, ok) => QueuesLater(cfg, s, TerminateStep(s, m, ok));
    case _ => QueuesLater(cfg, s, Next(cfg, s, step));
  }

  /** Every enabled step keeps the invariant, if a lookup fails only for an instance with a witness. */
  lemma StepKeeps(cfg: Config, s: State, step: Step)
    requires Inv(cfg, s) && Enabled(s, step)
    requires LookupFails(s, step) ==> Witness(s, step.msg.instance)
    ensures Inv(cfg, Next(cfg, s, step))
  {
    StepKeepsQueues(cfg, s, step);
    match step
    case Submit(id, agent, scheduler, pool, start) => SubmitKeeps(s, id, agent, scheduler, pool, start);
    case Warn(id, described, inGroup, noPool) =>
      var t := s.(warning := s.warning - multiset{id});
      QuietKeeps(s, t);
      if described.Found? && inGroup { SubmitKeeps(t, id, described.agent, described.scheduler, noPool, s.now); }
    case Drain(m, a) =>
      DrainKeepsCache(cfg, s, m, a);
      DrainKeepsTracked(cfg, s, m, a);
    case Terminate(m, ok) => TerminateKeeps(cfg, s, m, ok);
    case _ => QuietKeeps(s, Next(cfg, s, step));
  }

  /** And exactly then. */
  lemma StepKeepsIff(cfg: Config, s: State, step: Step)
    requires Inv(cfg, s) && Enabled(s, step)
    ensures Inv(cfg, Next(cfg, s, step)) <==> (LookupFails(s, step) ==> Witness(s, step.msg.instance))
  {
    if LookupFails(s, step) {
      KeptWitness(cfg, s, step.msg, step.answer, step.msg.instance);
      assert step.msg.instance in Next(cfg, s, step).cache;
    }
    if LookupFails(s, step) ==> Witness(s, step.msg.instance) {
      StepKeeps(cfg, s, step);
    }
  }

  // ---- runs ------------------------------------------------------------------------------

  /** The state after a sequence of steps. */
  function Run(cfg: Config, s: State, steps: seq<Step>): State {
    if steps == [] then s else Next(cfg, Run(cfg, s, steps[..|steps| - 1]), steps[|steps| - 1])
  }

  /** One run after another is a run, and a run of one step is that step. */
  lemma {:induction false} RunJoin(cfg: Config, s: State, a: seq<Step>, b: seq<Step>, step: Step)
    ensures Run(cfg, s, a + b) == Run(cfg, Run(cfg, s, a), b)
    ensures Run(cfg, s, [step]) == Next(cfg, s, step)
    decreases |b|
  {
    assert [step][..0] == [];
    if b == [] {
      assert a + b == a;
    } else {
      var c := b[..|b| - 1];
      RunJoin(cfg, s, a, c, step);
      assert (a + b)[..|a + b| - 1] == a + c;
    }
  }

  /** Every step of the run is enabled when it is taken. */
  predicate Possible(cfg: Config, s: State, steps: seq<Step>) {
    steps == [] ||
    (Possible(cfg, s, steps[..|steps| - 1]) &&
     Enabled(Run(cfg, s, steps[..|steps| - 1]), steps[|steps| - 1]))
  }

  /** Whenever a lookup fails in the run, its instance has a witness at that moment. */
  ghost predicate Backed(cfg: Config, s: State, steps: seq<Step>) {
    steps == [] ||
    var t, step := Run(cfg, s, steps[..|steps| - 1]), steps[|steps| - 1];
    Backed(cfg, s, steps[..|steps| - 1]) && (LookupFails(t, step) ==> Witness(t, step.msg.instance))
  }

  lemma {:induction false} RunQueues(cfg: Config, now: int, steps: seq<Step>)
    requires Possible(cfg, Init(now), steps)
    ensures QueuesOk(cfg, Run(cfg, Init(now), steps))
  {
    if steps != [] {
      RunQueues(cfg, now, steps[..|steps| - 1]);
      StepKeepsQueues(cfg, Run(cfg, Init(now), steps[..|steps| - 1]), steps[|steps| - 1]);
    }
  }

  lemma {:induction false} RunInvariant(cfg: Config, now: int, steps: seq<Step>)
    requires Possible(cfg, Init(now), steps) && Backed(cfg, Init(now), steps)
    ensures Inv(cfg, Run(cfg, Init(now), steps))
  {
    if steps != [] {
      RunInvariant(cfg, now, steps[..|steps| - 1]);
      StepKeeps(cfg, Run(cfg, Init(now), steps[..|steps| - 1]), steps[|steps| - 1]);
    }
  }

  /** The invariant holds in every state of the run. */
  ghost predicate Throughout(cfg: Config, now: int, steps: seq<Step>) {
    Inv(cfg, Run(cfg, Init(now), steps)) && (steps != [] ==> Throughout(cfg, now, steps[..|steps| - 1]))
  }

  /** It does exactly when lookups fail in the run only for instances with a witness. */
  lemma {:induction false} RunInvariantIff(cfg: Config, now: int, steps: seq<Step>)
    requires Possible(cfg, Init(now), steps)
    ensures Backed(cfg, Init(now), steps) <==> Throughout(cfg, now, steps)
  {
    if steps == [] {
      RunInvariant(cfg, now, []);
    } else {
      var p, step := steps[..|steps| - 1], steps[|steps| - 1];
      RunInvariantIff(cfg, now, p);
      if Throughout(cfg, now, p) { LastStepIff(cfg, now, p, step, Run(cfg, Init(now), p)); }
    }
  }

  lemma LastStepIff(cfg: Config, now: int, p: seq<Step>, step: Step, s: State)
    requires s == Run(cfg, Init(now), p) && Throughout(cfg, now, p) && Enabled(s, step)
    ensures Inv(cfg, Next(cfg, s, step)) <==> (LookupFails(s, step) ==> Witness(s, step.msg.instance))
  {
    StepKeepsIff(cfg, s, step);
  }

  /** A message discarded as a duplicate always belongs to an instance that is being redrained, is
      queued for termination, was terminated, or was found not to exist; no submitted instance is
      ever lost. */
  lemma NeverLost(cfg: Config, now: int, steps: seq<Step>, m: Msg)
    requires Possible(cfg, Init(now), steps) && Backed(cfg, Init(now), steps)
    ensures var s := Run(cfg, Init(now), steps);
            && (m in s.drain && Duplicate(s.cache, m) ==> Witness(Without(s, m), m.instance))
            && (forall id :: id in s.submitted ==> Tracked(s, id))
  {
    RunInvariant(cfg, now, steps);
    var s := Run(cfg, Init(now), steps);
    if m in s.drain && Duplicate(s.cache, m) {
      WitnessElsewhere(s, m, Without(s, m), m.instance);
    }
  }

  /** The state without one copy of m on the drain queue. */
  function Without(s: State, m: Msg): State {
    s.(drain := s.drain - multiset{m})
  }

  /** At most one refresh and floor(threshold / delay) + 1 redrains, where a start time in the future
      adds to the threshold. */
  predicate FewHops(c: PoolConfig, m: Msg)
    requires c.delay >= 1
  {
    var late := if m.submitted < m.start then m.start - m.submitted else 0;
    var redrains := (c.threshold + late) / c.delay + 1;
    m.refreshes <= 1 && m.redrains <= redrains && m.attempt <= redrains + 2
  }

  /** In every run, whatever the lookups answer, one submission makes few hops. */
  lemma BoundedHops(cfg: Config, now: int, steps: seq<Step>, m: Msg)
    requires Possible(cfg, Init(now), steps) && m in Run(cfg, Init(now), steps).drain
    requires cfg(m.pool).delay >= 1 && cfg(m.pool).threshold >= 0
    ensures FewHops(cfg(m.pool), m)
  {
    var c := cfg(m.pool);
    var t := RunHops(cfg, now, steps, m);
    HopsBound(c, t, m);
  }

  lemma RunHops(cfg: Config, now: int, steps: seq<Step>, m: Msg) returns (t: int)
    requires Possible(cfg, Init(now), steps) && m in Run(cfg, Init(now), steps).drain
    ensures Hops(cfg(m.pool), t, m)
  {
    RunQueues(cfg, now, steps);
    t := Run(cfg, Init(now), steps).now;
  }

  lemma HopsBound(c: PoolConfig, now: int, m: Msg)
    requires Hops(c, now, m) && c.delay >= 1 && c.threshold >= 0
    ensures FewHops(c, m)
  {
    var before := if m.redrains > 0 then m.redrains - 1 else 0;
    MultipleClosed(c.delay, before);
    QuotientBound(before, c.delay, c.threshold + if m.submitted < m.start then m.start - m.submitted else 0);
  }

  /** In every run, whatever the lookups answer: every Kubernetes host queued for termination was
      drained, or had expired with termination forced, or has no agent id according to EC2. */
  lemma TerminationJustified(cfg: Config, now: int, steps: seq<Step>, m: Msg)
    requires Possible(cfg, Init(now), steps)
    requires m in Run(cfg, Init(now), steps).term && m.scheduler == Kubernetes
    ensures exists i :: 0 <= i < |Run(cfg, Init(now), steps).asked| &&
                        Run(cfg, Init(now), steps).asked[i].msg == m &&
                        Justifies(cfg(m.pool), Run(cfg, Init(now), steps).asked[i])
  {
    RunQueues(cfg, now, steps);
  }

  // ---- what the recorded answers lead to --------------------------------------------------

  ghost predicate EverNotThere(asked: seq<Asked>, id: Id) {
    exists e :: e in asked && e.msg.instance == id && NotThere(e)
  }

  ghost predicate EverGivenUp(cfg: Config, asked: seq<Asked>, id: Id) {
    exists e :: e in asked && e.msg.instance == id && GivenUp(cfg(e.msg.pool), e)
  }

  ghost predicate EverEnded(cfg: Config, asked: seq<Asked>, id: Id) {
    exists e :: e in asked && e.msg.instance == id && Ends(cfg(e.msg.pool), e)
  }

  /** The answer sends next back to the drain queue. */
  ghost predicate Follows(cfg: Config, e: Asked, next: Msg) {
    Redrained(cfg(e.msg.pool), e, next) || Refreshed(e, next)
  }

  ghost predicate SentFrom(cfg: Config, asked: seq<Asked>, next: Msg) {
    exists e :: e in asked && Follows(cfg, e, next)
  }

  ghost predicate EverReceived(asked: seq<Asked>, m: Msg) {
    exists e :: e in asked && e.msg == m
  }

  /** The hosts that were not there, and those given up, are the ones answered so. */
  ghost predicate SetsRecorded(cfg: Config, s: State) {
    && (forall id :: id in s.missing <==> EverNotThere(s.asked, id))
    && (forall id :: id in s.uncordoned <==> EverGivenUp(cfg, s.asked, id))
  }

  /** Only hosts with an answer that ends draining are terminated, and all of them are or are queued for it. */
  ghost predicate EndsRecorded(cfg: Config, s: State) {
    && (forall m :: m in s.term ==> EverEnded(cfg, s.asked, m.instance))
    && (forall id :: id in s.terminated ==> EverEnded(cfg, s.asked, id))
    && (forall e :: e in s.asked && Ends(cfg(e.msg.pool), e) ==>
          e.msg in s.term || e.msg.instance in s.terminated)
  }

  /** Every later attempt on the drain queue was sent by an answer, and every answer that sends one is on
      the drain queue or was received there. */
  ghost predicate AttemptsRecorded(cfg: Config, s: State) {
    && (forall m :: m in s.drain ==> m.attempt == 1 || SentFrom(cfg, s.asked, m))
    && (forall e, next :: e in s.asked && Follows(cfg, e, next) ==> next in s.drain || EverReceived(s.asked, next))
    && (forall e :: e in s.asked ==> e.msg.attempt >= 1)
  }

  /** A cache entry expires half an hour after a recorded receipt of its host. */
  ghost predicate CacheRecorded(s: State) {
    forall id :: id in s.cache ==>
      exists e :: e in s.asked && e.msg.instance == id && s.cache[id] == e.now + 1800
  }

  ghost predicate Recorded(cfg: Config, s: State) {
    SetsRecorded(cfg, s) && EndsRecorded(cfg, s) && AttemptsRecorded(cfg, s) && CacheRecorded(s)
  }

  lemma HandledSets(cfg: Config, s: State, m: Msg, a: Answer, t: State)
    requires SetsRecorded(cfg, s) && Handled(cfg(m.pool), s, m, a, t)
    ensures SetsRecorded(cfg, t)
  {
    var e := Asked(m, s.now, a);
    forall id ensures EverNotThere(t.asked, id) <==> EverNotThere(s.asked, id) || (id == m.instance && NotThere(e)) {
      assert e in t.asked;
    }
    forall id
      ensures EverGivenUp(cfg, t.asked, id) <==>
              EverGivenUp(cfg, s.asked, id) || (id == m.instance && GivenUp(cfg(m.pool), e))
    {
      assert e in t.asked;
    }
  }

  lemma EndedLater(cfg: Config, asked: seq<Asked>, e: Asked, id: Id)
    requires EverEnded(cfg, asked, id)
    ensures EverEnded(cfg, asked + [e], id)
  {
    var x :| x in asked && x.msg.instance == id && Ends(cfg(x.msg.pool), x);
    assert x in asked + [e];
  }

  lemma HandledEnds(cfg: Config, s: State, m: Msg, a: Answer, t: State)
    requires EndsRecorded(cfg, s) && Handled(cfg(m.pool), s, m, a, t)
    ensures EndsRecorded(cfg, t)
  {
    var e := Asked(m, s.now, a);
    assert e in t.asked;
    forall k | k in t.term ensures EverEnded(cfg, t.asked, k.instance) {
      if k in s.term { EndedLater(cfg, s.asked, e, k.instance); }
    }
    forall id | id in t.terminated ensures EverEnded(cfg, t.asked, id) {
      EndedLater(cfg, s.asked, e, id);
    }
    forall x | x in t.asked && Ends(cfg(x.msg.pool), x) ensures x.msg in t.term || x.msg.instance in t.terminated {
      assert x in s.asked || x == e;
    }
  }

  lemma SentLater(cfg: Config, asked: seq<Asked>, e: Asked, m: Msg)
    requires SentFrom(cfg, asked, m)
    ensures SentFrom(cfg, asked + [e], m)
  {
    var x :| x in asked && Follows(cfg, x, m);
    assert x in asked + [e];
  }

  lemma HandledAttempts(cfg: Config, s: State, m: Msg, a: Answer, t: State)
    requires AttemptsRecorded(cfg, s) && m in s.drain && m.attempt >= 1 && Handled(cfg(m.pool), s, m, a, t)
    ensures AttemptsRecorded(cfg, t)
  {
    var e := Asked(m, s.now, a);
    var sent :| SentBack(cfg(m.pool), e, sent) && t.drain == s.drain - multiset{m} + sent;
    assert e in t.asked;
    forall k | k in t.drain ensures k.attempt == 1 || SentFrom(cfg, t.asked, k) {
      if k in s.drain {
        if k.attempt != 1 { SentLater(cfg, s.asked, e, k); }
      } else {
        assert Follows(cfg, e, k);
      }
    }
    forall x, next | x in t.asked && Follows(cfg, x, next) ensures next in t.drain || EverReceived(t.asked, next) {
      if x in s.asked {
        StillThere(s, t, e, sent, next);
      } else {
        OneFollows(cfg(m.pool), e, next, sent);
      }
    }
  }

  /** What was on the drain queue or received is so still. */
  lemma StillThere(s: State, t: State, e: Asked, sent: multiset<Msg>, next: Msg)
    requires t.asked == s.asked + [e] && t.drain == s.drain - multiset{e.msg} + sent
    requires next in s.drain || EverReceived(s.asked, next)
    ensures next in t.drain || EverReceived(t.asked, next)
  {
    assert e in t.asked;
    if next in s.drain {
      assert next != e.msg ==> next in t.drain;
    } else {
      var x :| x in s.asked && x.msg == next;
      assert x in t.asked;
    }
  }

  lemma OneFollows(c: PoolConfig, e: Asked, next: Msg, sent: multiset<Msg>)
    requires (Redrained(c, e, next) || Refreshed(e, next)) && SentBack(c, e, sent)
    ensures next in sent
  {
  }

  lemma HandledCache(cfg: Config, s: State, m: Msg, a: Answer, t: State)
    requires CacheRecorded(s) && Handled(cfg(m.pool), s, m, a, t)
    ensures CacheRecorded(t)
  {
    var e := Asked(m, s.now, a);
    assert e in t.asked;
    forall id | id in t.cache ensures exists x :: x in t.asked && x.msg.instance == id && t.cache[id] == x.now + 1800 {
      if id != m.instance {
        var x :| x in s.asked && x.msg.instance == id && s.cache[id] == x.now + 1800;
        assert x in t.asked;
      }
    }
  }

  /** Dropping a first attempt loses nothing that an answer sent. */
  lemma DroppedRecords(cfg: Config, s: State, m: Msg)
    requires Recorded(cfg, s) && m.attempt <= 1
    ensures Recorded(cfg, Without(s, m))
  {
    var t := Without(s, m);
    forall e, next | e in t.asked && Follows(cfg, e, next) ensures next in t.drain || EverReceived(t.asked, next) {
      assert next.attempt > 1;
    }
  }

  lemma DrainRecords(cfg: Config, s: State, m: Msg, a: Answer)
    requires Recorded(cfg, s) && HopsOk(cfg, s) && m in s.drain
    ensures Recorded(cfg, DrainStep(cfg, s, m, a))
  {
    var t := DrainStep(cfg, s, m, a);
    ReceivedIs(cfg, s, m, a);
    assert Hops(cfg(m.pool), s.now, m);
    if m.instance in s.cache && m.attempt <= 1 {
      DroppedRecords(cfg, s, m);
    } else {
      HandledSets(cfg, s, m, a, t);
      HandledEnds(cfg, s, m, a, t);
      HandledAttempts(cfg, s, m, a, t);
      HandledCache(cfg, s, m, a, t);
    }
  }

  lemma TerminateRecords(cfg: Config, s: State, m: Msg, ok: bool)
    requires Recorded(cfg, s) && m in s.term
    ensures Recorded(cfg, TerminateStep(s, m, ok))
  {
    if ok { TerminatedEnds(cfg, s, m, TerminateStep(s, m, ok)); }
  }

  lemma TerminatedEnds(cfg: Config, s: State, m: Msg, t: State)
    requires EndsRecorded(cfg, s) && m in s.term
    requires t.asked == s.asked && t.term == s.term - multiset{m} && t.terminated == s.terminated + {m.instance}
    ensures EndsRecorded(cfg, t)
  {
    forall e | e in t.asked && Ends(cfg(e.msg.pool), e) ensures e.msg in t.term || e.msg.instance in t.terminated {
      assert e.msg in s.term && e.msg != m ==> e.msg in t.term;
    }
  }

  /** A step that only adds first attempts to the drain queue or removes cache entries. */
  ghost predicate Quiet(s: State, t: State) {
    && t == s.(warning := t.warning, drain := t.drain, cache := t.cache, now := t.now, submitted := t.submitted)
    && (forall m :: m in s.drain ==> m in t.drain)
    && (forall m :: m in t.drain ==> m in s.drain || m.attempt == 1)
    && (forall id :: id in t.cache ==> id in s.cache && t.cache[id] == s.cache[id])
  }

  lemma SubmitQuiet(s: State, id: Id, agent: Option<int>, scheduler: Scheduler, pool: Pool, start: int)
    ensures Quiet(s, SubmitStep(s, id, agent, scheduler, pool, start))
  {
  }

  lemma WarnQuiet(s: State, id: Id, described: Described, inGroup: bool, noPool: Pool)
    ensures Quiet(s, WarnStep(s, id, described, inGroup, noPool))
  {
  }

  lemma QuietParts(cfg: Config, s: State, step: Step)
    requires !step.Drain? && !step.Terminate?
    ensures Quiet(s, Next(cfg, s, step))
  {
    match step
    case Submit(id, agent, scheduler, pool, start) => SubmitQuiet(s, id, agent, scheduler, pool, start);
    case Warn(id, described, inGroup, noPool) => WarnQuiet(s, id, described, inGroup, noPool);
    case _ =>
  }

  /** New first attempts, and steps that touch neither queues nor history. */
  lemma OtherRecords(cfg: Config, s: State, t: State)
    requires Recorded(cfg, s) && Quiet(s, t)
    ensures Recorded(cfg, t)
  {
  }

  lemma StepRecords(cfg: Config, s: State, step: Step)
    requires Recorded(cfg, s) && HopsOk(cfg, s) && Enabled(s, step)
    ensures Recorded(cfg, Next(cfg, s, step))
  {
    match step
    case Drain(m, a) => DrainRecords(cfg, s, m, a);
    case Terminate(m, ok) => TerminateRecords(cfg, s, m, ok);
    case _ =>
      QuietParts(cfg, s, step);
      OtherRecords(cfg, s, Next(cfg, s, step));
  }

  /** In every run, whatever the lookups answer: a host is missing, or uncordoned, exactly when an answer
      says so; it is queued for termination or terminated exactly when an answer ends its draining; every
      further attempt comes from an answer, and none that an answer sends is lost before it is received. */
  lemma {:induction false} RunRecorded(cfg: Config, now: int, steps: seq<Step>)
    requires Possible(cfg, Init(now), steps)
    ensures Recorded(cfg, Run(cfg, Init(now), steps))
  {
    if steps != [] {
      var p := steps[..|steps| - 1];
      RunRecorded(cfg, now, p);
      RunQueues(cfg, now, p);
      StepRecords(cfg, Run(cfg, Init(now), p), steps[|steps| - 1]);
    }
  }

  // ---- the step that breaks the dedupe cache ---------------------------------------------

  /** The first receipt of m fails to look the instance up, and m is received again. */
  function TwiceReceived(cfg: Config, s: State, m: Msg, first: Answer, second: Answer): State {
    DrainStep(cfg, DrainStep(cfg, s, m, first), m, second)
  }

  /** When a lookup fails, the next receipt of the message drops it, whatever is answered then; the
      instance is still accounted for exactly when it was so without this message. */
  lemma FailedLookup(cfg: Config, s: State, m: Msg, first: Answer, second: Answer)
    requires HopsOk(cfg, s) && m in s.drain && LookupFails(s, Drain(m, first))
    ensures var t := TwiceReceived(cfg, s, m, first, second);
            && t.drain == s.drain - multiset{m} && t.term == s.term
            && (Tracked(t, m.instance) <==> Tracked(Without(s, m), m.instance))
  {
    assert Hops(cfg(m.pool), s.now, m);
    var s' := DrainStep(cfg, s, m, first);
    assert s'.drain == s.drain && Duplicate(s'.cache, m);
    var t, u := TwiceReceived(cfg, s, m, first, second), Without(s, m);
    assert t.drain == u.drain && t.term == u.term && t.terminated == u.terminated;
    assert t.missing == u.missing && t.uncordoned == u.uncordoned;
  }

  /** So a submitted host whose only message this is, and which has not come to an end otherwise, is
      lost. */
  lemma FailedLookupLosesHost(cfg: Config, s: State, m: Msg, first: Answer, second: Answer)
    requires HopsOk(cfg, s) && s.drain[m] == 1 && LookupFails(s, Drain(m, first))
    requires forall k :: k in s.drain && k.instance == m.instance ==> k == m
    requires !Witness(s, m.instance) && m.instance !in s.uncordoned && m.instance in s.submitted
    ensures var t := TwiceReceived(cfg, s, m, first, second);
            m.instance in t.submitted && !Tracked(t, m.instance)
  {
    FailedLookup(cfg, s, m, first, second);
    var u := Without(s, m);
    assert u.drain[m] == 0;
    TwiceSubmitted(cfg, s, m, first, second);
  }

  lemma TwiceSubmitted(cfg: Config, s: State, m: Msg, first: Answer, second: Answer)
    ensures TwiceReceived(cfg, s, m, first, second).submitted == s.submitted
  {
    DrainTakes(cfg, s, m, first);
    DrainTakes(cfg, DrainStep(cfg, s, m, first), m, second);
  }

  /** A host that is submitted without agent id, and whose description has no DNS name, is such a case:
      its message is received twice. */
  lemma OrphanLost(cfg: Config, now: int, id: Id, pool: Pool, start: int) returns (steps: seq<Step>)
    ensures Possible(cfg, Init(now), steps)
    ensures exists m :: steps == [Submit(id, None, Kubernetes, pool, start), Drain(m, Answer(false, Fails)),
                                  Drain(m, Answer(false, Fails))]
    ensures var t := Run(cfg, Init(now), steps); id in t.submitted && !Tracked(t, id)
  {
    var m := FirstMsg(Init(now), id, None, Kubernetes, pool, start);
    var s := SubmitStep(Init(now), id, None, Kubernetes, pool, start);
    var a := Answer(false, Fails);
    SubmitQueues(cfg, Init(now), id, None, Kubernetes, pool, start);
    FailedLookupLosesHost(cfg, s, m, a, a);
    assert m in DrainStep(cfg, s, m, a).drain;
    steps := [Submit(id, None, Kubernetes, pool, start), Drain(m, a), Drain(m, a)];
    ThreeSteps(cfg, Init(now), steps[0], steps[1], steps[2]);
  }

  lemma ThreeSteps(cfg: Config, s: State, a: Step, b: Step, c: Step)
    requires Enabled(s, a) && Enabled(Next(cfg, s, a), b) && Enabled(Next(cfg, Next(cfg, s, a), b), c)
    ensures Possible(cfg, s, [a, b, c])
    ensures Run(cfg, s, [a, b, c]) == Next(cfg, Next(cfg, Next(cfg, s, a), b), c)
  {
    var t, u := Next(cfg, s, a), Next(cfg, Next(cfg, s, a), b);
    RunSnoc(cfg, s, [], a, s);
    RunSnoc(cfg, s, [a], b, t);
    RunSnoc(cfg, s, [a, b], c, u);
    assert [] + [a] == [a] && [a] + [b] == [a, b] && [a, b] + [c] == [a, b, c];
  }

  lemma RunSnoc(cfg: Config, s: State, steps: seq<Step>, step: Step, t: State)
    requires Possible(cfg, s, steps) && Run(cfg, s, steps) == t && Enabled(t, step)
    ensures Possible(cfg, s, steps + [step]) && Run(cfg, s, steps + [step]) == Next(cfg, t, step)
  {
    assert (steps + [step])[..|steps|] == steps;
  }

  // ---- the client ------------------------------------------------------------------------

  /** The client's queues and cache; the clock and the history make it a state of the system. */
  class DrainingClient {
    var warningQueue: multiset<Id>
    var drainQueue: multiset<Msg>
    var terminationQueue: multiset<Msg>
    var drainingHostTtlCache: map<Id, int>
    var now: int
    ghost var asked: seq<Asked>
    ghost var submitted: set<Id>
    ghost var terminated: set<Id>
    ghost var missing: set<Id>
    ghost var uncordoned: set<Id>

    ghost function Abs(): State
      reads this
    {
      State(warningQueue, drainQueue, terminationQueue, drainingHostTtlCache, now, asked, submitted, terminated,
            missing, uncordoned)
    }

    constructor (now: int)
      ensures Abs() == Init(now)
    {
      warningQueue, drainQueue, terminationQueue, drainingHostTtlCache := multiset{}, multiset{}, multiset{}, map[];
      this.now := now;
      asked, submitted, terminated, missing, uncordoned := [], {}, {}, {}, {};
    }

    method SubmitInstanceForDraining(instance: Id, agent: Option<int>, scheduler: Scheduler, pool: Pool,
                                     drainingStartTime: int)
      modifies this
      ensures Abs() == SubmitStep(old(Abs()), instance, agent, scheduler, pool, drainingStartTime)
      ensures drainQueue == old(drainQueue) +
                            multiset{Msg(instance, agent, scheduler, pool, drainingStartTime, 1, now, now, 0, 0)}
    {
      drainQueue := drainQueue + multiset{Msg(instance, agent, scheduler, pool, drainingStartTime, 1, now, now, 0, 0)};
      submitted := submitted + {instance};
    }

    /** One received message, or none; the result says whether there was one. */
    method ProcessDrainQueue(cfg: Config, received: Option<Msg>, answer: Answer) returns (messageExist: bool)
      requires received.Some? ==> received.value in drainQueue
      modifies this
      ensures messageExist <==> received.Some?
      ensures Abs() == if received.Some? then DrainStep(cfg, old(Abs()), received.value, answer) else old(Abs())
      ensures received.Some? ==> Received(cfg, old(Abs()), received.value, answer, Abs())
    {
      messageExist := false;
      if received.Some? {
        ReceivedIs(cfg, Abs(), received.value, answer);
      }
      if received.Some? && (received.value.instance !in drainingHostTtlCache || received.value.attempt > 1) {
        ProcessHost(cfg(received.value.pool), received.value, answer);
        messageExist := true;
      } else if received.Some? {
        drainQueue := drainQueue - multiset{received.value};
        messageExist := true;
      }
    }

    /** A host that is not a duplicate. */
    method ProcessHost(c: PoolConfig, m: Msg, answer: Answer)
      requires m in drainQueue
      modifies this
      ensures Abs() == Apply(Begun(old(Abs()), m, answer), m, Decide(c, m, old(now), answer))
      ensures Handled(c, old(Abs()), m, answer, Abs())
    {
      ghost var before := Abs();
      drainingHostTtlCache := drainingHostTtlCache[m.instance := now + DrainCacheSeconds];
      asked := asked + [Asked(m, now, answer)];
      ghost var begun, d := Abs(), Decide(c, m, now, answer);
      assert begun == Begun(before, m, answer);
      if m.scheduler == Mesos {
        Terminating(m);
      } else if m.scheduler == Kubernetes {
        if m.agent.None? {
          DrainOrphan(m, answer.described);
        } else {
          DrainKnown(c, m, answer.drained);
        }
      } else {
        Terminating(m);
      }
      assert Abs() == Apply(begun, m, d);
      HandledIs(c, before, m, answer);
    }

    /** Submits the host for termination and deletes its drain message. */
    method Terminating(m: Msg)
      modifies this`terminationQueue, this`drainQueue
      ensures Abs() == Apply(old(Abs()), m, ToTermination)
    {
      terminationQueue := terminationQueue + multiset{m};
      drainQueue := drainQueue - multiset{m};
    }

    /** Submits the host for draining again and deletes its old message. */
    method Resubmit(m: Msg, next: Msg)
      modifies this`drainQueue
      ensures Abs() == Apply(old(Abs()), m, Again(next))
    {
      drainQueue := drainQueue + multiset{next};
      drainQueue := drainQueue - multiset{m};
    }

    /** A host without agent id is looked up; its message is kept when the lookup fails. */
    method DrainOrphan(m: Msg, described: Described)
      modifies this
      ensures Abs() == Apply(old(Abs()), m,
                             match described
                             case NotFound => Nonexistent
                             case Found(None, _) => ToTermination
                             case Found(Some(agent), scheduler) => Again(Refresh(m, old(now), Some(agent), scheduler))
                             case Fails => Keep)
    {
      match described {
        case NotFound =>
          missing := missing + {m.instance};
          drainQueue := drainQueue - multiset{m};
        case Found(None, _) =>
          Terminating(m);
        case Found(Some(agent), scheduler) =>
          Resubmit(m, Refresh(m, now, Some(agent), scheduler));
        case Fails =>
      }
    }

    /** Uncordons the host, forgets it and deletes its message. */
    method Uncordoning(m: Msg)
      modifies this`drainingHostTtlCache, this`uncordoned, this`drainQueue
      ensures drainQueue == old(drainQueue) - multiset{m} && uncordoned == old(uncordoned) + {m.instance}
      ensures drainingHostTtlCache == Forget(old(drainingHostTtlCache), m.instance)
    {
      drainingHostTtlCache := Forget(drainingHostTtlCache, m.instance);
      uncordoned := uncordoned + {m.instance};
      drainQueue := drainQueue - multiset{m};
    }

    /** A host with agent id: expired, drained, or to be drained again after the delay. */
    method DrainKnown(c: PoolConfig, m: Msg, drained: bool)
      modifies this
      ensures Abs() == Apply(old(Abs()), m,
                             if Expired(c, m, old(now)) then (if c.forceTerminate then ToTermination else Uncordon)
                             else if drained then ToTermination
                             else Again(Redrain(m, old(now), c.delay)))
    {
      if now - m.start > c.threshold {
        if c.forceTerminate {
          Terminating(m);
        } else {
          Uncordoning(m);
        }
      } else if drained {
        Terminating(m);
      } else {
        Resubmit(m, Redrain(m, now, c.delay));
      }
    }

    method ProcessTerminationQueue(received: Option<Msg>, ok: bool) returns (messageExist: bool)
      requires received.Some? ==> received.value in terminationQueue
      modifies this
      ensures messageExist <==> received.Some?
      ensures Abs() == if received.Some? then TerminateStep(old(Abs()), received.value, ok) else old(Abs())
      ensures terminated == if received.Some? && ok then old(terminated) + {received.value.instance}
                            else old(terminated)
      ensures terminationQueue == if received.Some? && ok then old(terminationQueue) - multiset{received.value}
                                  else old(terminationQueue)
    {
      messageExist := received.Some?;
      if received.Some? && ok {
        terminated := terminated + {received.value.instance};
        terminationQueue := terminationQueue - multiset{received.value};
      }
    }

    method ProcessWarningQueue(received: Option<Id>, described: Described, inGroup: bool, noPool: Pool)
      returns (messageExist: bool)
      requires received.Some? ==> received.value in warningQueue
      modifies this
      ensures messageExist <==> received.Some? && described.Found?
      ensures Abs() == if received.Some? then WarnStep(old(Abs()), received.value, described, inGroup, noPool)
                       else old(Abs())
      ensures received.Some? ==>
                && warningQueue == (if described.Fails? then old(warningQueue)
                                    else old(warningQueue) - multiset{received.value})
                && drainQueue == old(drainQueue) +
                                 if described.Found? && inGroup
                                 then multiset{Msg(received.value, described.agent, described.scheduler, noPool,
                                                   now, 1, now, now, 0, 0)}
                                 else multiset{}
    {
      messageExist := false;
      if received.Some? && !described.Fails? {
        if described.Found? {
          messageExist := true;
          if inGroup {
            SubmitInstanceForDraining(received.value, described.agent, described.scheduler, noPool, now);
          }
        }
        warningQueue := warningQueue - multiset{received.value};
      }
    }

    /** Collects the expired entries first, then deletes them; order is any enumeration of the cache. */
    method CleanProcessingHostsCache(order: seq<Id>)
      requires drainingHostTtlCache.Keys == set id | id in order
      modifies this`drainingHostTtlCache
      ensures Abs() == CleanStep(old(Abs()))
      ensures drainingHostTtlCache == map id | id in old(drainingHostTtlCache) && now <= old(drainingHostTtlCache)[id]
                                          :: old(drainingHostTtlCache)[id]
    {
      var toRemove: set<Id> := {};
      var i := 0;
      while i < |order|
        invariant i <= |order|
        invariant forall id :: id in toRemove <==>
                    id in order[..i] && id in drainingHostTtlCache && now > drainingHostTtlCache[id]
      {
        assert order[i] in drainingHostTtlCache.Keys;
        if now > drainingHostTtlCache[order[i]] {
          toRemove := toRemove + {order[i]};
        }
        i := i + 1;
      }
      assert order[..i] == order;
      forall id ensures id in toRemove <==> id in drainingHostTtlCache && now > drainingHostTtlCache[id] {
        assert id in drainingHostTtlCache <==> id in order;
      }
      drainingHostTtlCache := drainingHostTtlCache - toRemove;
    }
  }
}
