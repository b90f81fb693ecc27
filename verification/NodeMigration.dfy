/** The supervisor of migration workers (clusterman/batch/node_migration.py): its process table, its
    ledger of events in progress, and the statuses of the event resources in the cluster. */
module NodeMigration {

  /** Resource names identify events. */
  datatype MigrationEvent = MigrationEvent(resourceName: string, cluster: string, pool: string)

  datatype Status = Pending | InProgress | Completed | Skipped

  datatype Resource = Resource(event: MigrationEvent, status: Status)

  datatype Routine = EventRun(event: MigrationEvent) | UptimeRun(pool: string)

  datatype Life = Alive | Exited(code: int)

  datatype Process = Process(routine: Routine, life: Life)

  /** Ghost history: how often each of these has happened. */
  datatype Fact =
    | Started(event: MigrationEvent)    // a process for the event was started or restarted
    | Succeeded(event: MigrationEvent)  // such a process exited 0
    | MarkedDone(event: MigrationEvent) // the event was marked completed
    | MarkedSkipped(event: MigrationEvent)

  datatype Config = Config(cluster: string, accepting: set<string>, setups: set<string>, slots: real)

  datatype State = State(
    workers: map<string, Process>,
    ledger: map<string, MigrationEvent>,
    resources: map<string, Resource>,
    log: multiset<Fact>)

  const Initial := State(map[], map[], map[], multiset{})

  const MinUptimeChurningSeconds := 60 * 60 * 24

  // ---- labels ----------------------------------------------------------------------------

  function EventLabel(e: MigrationEvent): string {
    "event" + ":" + e.cluster + ":" + e.pool
  }

  function UptimeLabel(cluster: string, pool: string): string {
    "uptime" + ":" + cluster + ":" + pool
  }

  predicate IsEventLabel(name: string) {
    "event" <= name
  }

  lemma LabelKinds(e: MigrationEvent, cluster: string, pool: string)
    ensures IsEventLabel(EventLabel(e)) && !IsEventLabel(UptimeLabel(cluster, pool))
  {
    assert UptimeLabel(cluster, pool)[0] == 'u';
    var l := EventLabel(e);
    assert l == "event" + (":" + e.cluster + ":" + e.pool);
  }

  /** Within one cluster a label stands for one pool. */
  lemma LabelPools(e: MigrationEvent, f: MigrationEvent)
    requires e.cluster == f.cluster
    ensures EventLabel(e) == EventLabel(f) <==> e.pool == f.pool
    ensures UptimeLabel(e.cluster, e.pool) == UptimeLabel(f.cluster, f.pool) <==> e.pool == f.pool
  {
    SameTail("event" + ":" + e.cluster + ":", e.pool, f.pool);
    SameTail("uptime" + ":" + e.cluster + ":", e.pool, f.pool);
  }

  lemma SameTail(head: string, a: string, b: string)
    ensures head + a == head + b <==> a == b
  {
    assert (head + a)[|head|..] == a && (head + b)[|head|..] == b;
  }

  // ---- operations ------------------------------------------------------------------------

  predicate Running(s: State, name: string) {
    name in s.workers && s.workers[name].life == Alive
  }

  function RunningWorkers(s: State): nat {
    |set l | l in s.workers && s.workers[l].life == Alive|
  }

  /** Whether a new process is started under a label; uptime workers do not wait for a slot. */
  predicate CanSpawn(cfg: Config, s: State, name: string) {
    && !Running(s, name)
    && (IsEventLabel(name) ==> (RunningWorkers(s) as real) < cfg.slots)
  }

  /** The update may fail, which is logged and otherwise ignored. */
  function Mark(resources: map<string, Resource>, e: MigrationEvent, status: Status, ok: bool): map<string, Resource> {
    if ok && e.resourceName in resources
    then resources[e.resourceName := resources[e.resourceName].(status := status)]
    else resources
  }

  predicate Processable(cfg: Config, e: MigrationEvent) {
    e.pool in cfg.accepting && e.pool in cfg.setups && e.cluster == cfg.cluster
  }

  function SpawnEvent(cfg: Config, s: State, e: MigrationEvent, ok: bool): State {
    var name := EventLabel(e);
    if !Processable(cfg, e) then
      s.(resources := Mark(s.resources, e, Skipped, ok), log := s.log + multiset{MarkedSkipped(e)})
    else if CanSpawn(cfg, s, name) then
      State(s.workers[name := Process(EventRun(e), Alive)], s.ledger[name := e],
            Mark(s.resources, e, InProgress, ok), s.log + multiset{Started(e)})
    else s
  }

  function SpawnUptime(cfg: Config, s: State, pool: string, uptime: int): State {
    var name := UptimeLabel(cfg.cluster, pool);
    if uptime >= MinUptimeChurningSeconds && pool in cfg.setups && CanSpawn(cfg, s, name)
    then s.(workers := s.workers[name := Process(UptimeRun(pool), Alive)])
    else s
  }

  /** The events handed out: those listed and not in the ledger; a failed listing is empty. */
  function Fetch(s: State, ok: bool): set<MigrationEvent> {
    if ok
    then (set n | n in s.resources && s.resources[n].status in {Pending, InProgress} :: s.resources[n].event)
      - s.ledger.Values
    else {}
  }

  /** Handling of one worker found to have exited 0. */
  function Complete(s: State, name: string, ok: bool): State
    requires IsEventLabel(name) ==> name in s.ledger
  {
    if IsEventLabel(name) then
      State(s.workers - {name}, s.ledger - {name}, Mark(s.resources, s.ledger[name], Completed, ok),
            s.log + multiset{MarkedDone(s.ledger[name])})
    else s.(workers := s.workers - {name})
  }

  function StartFacts(r: Routine): multiset<Fact> {
    if r.EventRun? then multiset{Started(r.event)} else multiset{}
  }

  function Restart(s: State, name: string): State
    requires name in s.workers
  {
    var r := s.workers[name].routine;
    s.(workers := s.workers[name := Process(r, Alive)], log := s.log + StartFacts(r))
  }

  /** The environment: a worker process ends. */
  function Exit(s: State, name: string, code: int): State
    requires name in s.workers
  {
    var r := s.workers[name].routine;
    s.(workers := s.workers[name := Process(r, Exited(code))],
       log := s.log + if r.EventRun? && code == 0 then multiset{Succeeded(r.event)} else multiset{})
  }

  // ---- the invariant ---------------------------------------------------------------------

  /** The ledger's keys are the event labels in the process table, and each such process runs the
      recorded event. */
  ghost predicate LedgerOk(cfg: Config, s: State) {
    && (forall l :: l in s.ledger <==> l in s.workers && IsEventLabel(l))
    && (forall l :: l in s.ledger ==>
          && s.workers[l].routine == EventRun(s.ledger[l])
          && l == EventLabel(s.ledger[l])
          && Processable(cfg, s.ledger[l]))
    && (forall l :: l in s.workers && !IsEventLabel(l) ==> s.workers[l].routine.UptimeRun?)
  }

  /** The process under the event's name runs the event and is alive, or has succeeded unnoticed so far. */
  function Live(s: State, e: MigrationEvent): nat {
    var l := EventLabel(e);
    if l in s.workers && s.workers[l] == Process(EventRun(e), Alive) then 1 else 0
  }

  function Unnoticed(s: State, e: MigrationEvent): nat {
    var l := EventLabel(e);
    if l in s.workers && s.workers[l] == Process(EventRun(e), Exited(0)) then 1 else 0
  }

  /** Every completion has a success of its own, and every success a start of its own; an event is
      never both started and skipped. */
  ghost predicate AccountedFor(cfg: Config, s: State, e: MigrationEvent) {
    && s.log[MarkedDone(e)] + Unnoticed(s, e) <= s.log[Succeeded(e)]
    && s.log[Succeeded(e)] + Live(s, e) <= s.log[Started(e)]
    && (s.log[Started(e)] > 0 ==> Processable(cfg, e))
    && (s.log[MarkedSkipped(e)] > 0 ==> !Processable(cfg, e))
  }

  ghost predicate Accounted(cfg: Config, s: State) {
    forall e :: AccountedFor(cfg, s, e)
  }

  ghost predicate Inv(cfg: Config, s: State) {
    LedgerOk(cfg, s) && Accounted(cfg, s)
  }

  lemma SpawnEventKeeps(cfg: Config, s: State, e: MigrationEvent, ok: bool)
    requires Inv(cfg, s)
    ensures Inv(cfg, SpawnEvent(cfg, s, e, ok))
  {
    LabelKinds(e, "", "");
    forall e' ensures AccountedFor(cfg, SpawnEvent(cfg, s, e, ok), e') {
      SpawnEventAccounts(cfg, s, e, ok, e');
    }
  }

  lemma SpawnEventAccounts(cfg: Config, s: State, e: MigrationEvent, ok: bool, e': MigrationEvent)
    requires Inv(cfg, s)
    ensures AccountedFor(cfg, SpawnEvent(cfg, s, e, ok), e')
  {
    LabelKinds(e, "", "");
    assert AccountedFor(cfg, s, e');
  }

  lemma SpawnUptimeKeeps(cfg: Config, s: State, pool: string, uptime: int)
    requires Inv(cfg, s)
    ensures Inv(cfg, SpawnUptime(cfg, s, pool, uptime))
  {
    LabelKinds(MigrationEvent("", "", ""), cfg.cluster, pool);
    forall e ensures AccountedFor(cfg, SpawnUptime(cfg, s, pool, uptime), e) {
      LabelKinds(e, cfg.cluster, pool);
      assert AccountedFor(cfg, s, e);
    }
  }

  /** Popping the ledger never fails: the label is there. */
  lemma CompleteKeeps(cfg: Config, s: State, name: string, ok: bool)
    requires Inv(cfg, s) && name in s.workers && s.workers[name].life == Exited(0)
    ensures IsEventLabel(name) ==> name in s.ledger
    ensures Inv(cfg, Complete(s, name, ok))
  {
    forall e ensures AccountedFor(cfg, Complete(s, name, ok), e) {
      LabelKinds(e, "", "");
      assert AccountedFor(cfg, s, e);
    }
  }

  lemma RestartKeeps(cfg: Config, s: State, name: string)
    requires Inv(cfg, s) && name in s.workers && s.workers[name].life != Alive
    ensures Inv(cfg, Restart(s, name))
  {
    forall e ensures AccountedFor(cfg, Restart(s, name), e) {
      LabelKinds(e, "", "");
      assert AccountedFor(cfg, s, e);
    }
  }

  lemma ExitKeeps(cfg: Config, s: State, name: string, code: int)
    requires Inv(cfg, s) && name in s.workers && s.workers[name].life == Alive
    ensures Inv(cfg, Exit(s, name, code))
  {
    forall e ensures AccountedFor(cfg, Exit(s, name, code), e) {
      LabelKinds(e, "", "");
      assert AccountedFor(cfg, s, e);
    }
  }

  // ---- monitoring ------------------------------------------------------------------------

  predicate Distinct(names: seq<string>) {
    forall i, j :: 0 <= i < j < |names| ==> names[i] != names[j]
  }

  /** The names, in order, of the workers that ended with 0, or ended otherwise. */
  function Ended(s: State, order: seq<string>, zero: bool): (r: seq<string>)
    requires Distinct(order) && forall n :: n in order ==> n in s.workers
    ensures Distinct(r)
    ensures forall n :: n in r <==>
              n in order && s.workers[n].life.Exited? && (s.workers[n].life == Exited(0) <==> zero)
  {
    if order == [] then []
    else
      var rest, n := Ended(s, order[..|order| - 1], zero), order[|order| - 1];
      assert order == order[..|order| - 1] + [n];
      if s.workers[n].life.Exited? && (s.workers[n].life == Exited(0) <==> zero) then rest + [n] else rest
  }

  function CompleteAll(s: State, names: seq<string>, ok: string -> bool): State
    requires Distinct(names) && forall n :: n in names && IsEventLabel(n) ==> n in s.ledger
    decreases |names|
  {
    if names == [] then s else CompleteAll(Complete(s, names[0], ok(names[0])), names[1..], ok)
  }

  function RestartAll(s: State, names: seq<string>): State
    requires forall n :: n in names ==> n in s.workers
    decreases |names|
  {
    if names == [] then s else RestartAll(Restart(s, names[0]), names[1..])
  }

  /** Completed workers first, then restarts; order is any enumeration of the process table. */
  function Monitor(s: State, order: seq<string>, ok: string -> bool): State
    requires Distinct(order) && (forall n :: n in order <==> n in s.workers)
    requires forall n :: n in s.workers && IsEventLabel(n) ==> n in s.ledger
  {
    var done, failed := Ended(s, order, true), Ended(s, order, false);
    CompleteAllIs(s, done, ok);
    RestartAll(CompleteAll(s, done, ok), failed)
  }

  lemma {:induction false} CompleteAllIs(s: State, names: seq<string>, ok: string -> bool)
    requires Distinct(names) && forall n :: n in names && IsEventLabel(n) ==> n in s.ledger
    ensures var t := CompleteAll(s, names, ok);
      && (forall n :: n in t.workers <==> n in s.workers && n !in names)
      && (forall n :: n in t.workers ==> t.workers[n] == s.workers[n])
    decreases |names|
  {
    if names != [] {
      CompleteAllIs(Complete(s, names[0], ok(names[0])), names[1..], ok);
      assert names == [names[0]] + names[1..];
    }
  }

  lemma {:induction false} RestartAllIs(s: State, names: seq<string>)
    requires forall n :: n in names ==> n in s.workers
    ensures var t := RestartAll(s, names);
      && t.workers.Keys == s.workers.Keys && t.ledger == s.ledger && t.resources == s.resources
      && (forall n :: n in s.workers ==>
            t.workers[n] == if n in names then Process(s.workers[n].routine, Alive) else s.workers[n])
    decreases |names|
  {
    if names != [] {
      RestartAllIs(Restart(s, names[0]), names[1..]);
      assert names == [names[0]] + names[1..];
    }
  }

  /** After monitoring every worker left is alive and runs what it ran; exactly those that had exited
      0 are gone. */
  lemma MonitorIs(s: State, order: seq<string>, ok: string -> bool)
    requires Distinct(order) && (forall n :: n in order <==> n in s.workers)
    requires forall n :: n in s.workers && IsEventLabel(n) ==> n in s.ledger
    ensures var t := Monitor(s, order, ok);
      && (forall n :: n in t.workers <==> n in s.workers && s.workers[n].life != Exited(0))
      && (forall n :: n in t.workers ==> t.workers[n] == Process(s.workers[n].routine, Alive))
  {
    var done, failed := Ended(s, order, true), Ended(s, order, false);
    CompleteAllIs(s, done, ok);
    RestartAllIs(CompleteAll(s, done, ok), failed);
  }

  lemma {:induction false} CompleteAllKeeps(cfg: Config, s: State, names: seq<string>, ok: string -> bool)
    requires Inv(cfg, s) && Distinct(names)
    requires forall n :: n in names ==> n in s.workers && s.workers[n].life == Exited(0)
    ensures Inv(cfg, CompleteAll(s, names, ok))
    decreases |names|
  {
    if names != [] {
      CompleteKeeps(cfg, s, names[0], ok(names[0]));
      assert names == [names[0]] + names[1..];
      CompleteAllKeeps(cfg, Complete(s, names[0], ok(names[0])), names[1..], ok);
    }
  }

  lemma {:induction false} RestartAllKeeps(cfg: Config, s: State, names: seq<string>)
    requires Inv(cfg, s) && Distinct(names)
    requires forall n :: n in names ==> n in s.workers && s.workers[n].life != Alive
    ensures Inv(cfg, RestartAll(s, names))
    decreases |names|
  {
    if names != [] {
      RestartKeeps(cfg, s, names[0]);
      assert names == [names[0]] + names[1..];
      RestartAllKeeps(cfg, Restart(s, names[0]), names[1..]);
    }
  }

  lemma MonitorKeeps(cfg: Config, s: State, order: seq<string>, ok: string -> bool)
    requires Inv(cfg, s) && Distinct(order) && forall n :: n in order <==> n in s.workers
    ensures Inv(cfg, Monitor(s, order, ok))
  {
    var done, failed := Ended(s, order, true), Ended(s, order, false);
    CompleteAllIs(s, done, ok);
    CompleteAllKeeps(cfg, s, done, ok);
    RestartAllKeeps(cfg, CompleteAll(s, done, ok), failed);
  }

  // ---- the event resources ---------------------------------------------------------------

  predicate Known(s: State, e: MigrationEvent) {
    e.resourceName in s.resources && s.resources[e.resourceName].event == e
  }

  /** What a resource's status says has happened. */
  ghost predicate Backed(s: State, r: Resource) {
    match r.status
    case Pending => true
    case InProgress => s.log[Started(r.event)] > 0
    case Completed => s.log[MarkedDone(r.event)] > 0
    case Skipped => s.log[MarkedSkipped(r.event)] > 0
  }

  ghost predicate ResourcesOk(s: State) {
    && (forall n :: n in s.resources ==> s.resources[n].event.resourceName == n)
    && (forall n :: n in s.resources ==> Backed(s, s.resources[n]))
    && (forall l :: l in s.ledger ==> Known(s, s.ledger[l]))
  }

  lemma MarkKeeps(s: State, e: MigrationEvent, status: Status, ok: bool, t: State)
    requires ResourcesOk(s) && Known(s, e)
    requires t.resources == Mark(s.resources, e, status, ok) && s.log <= t.log
    requires Backed(t, Resource(e, status))
    requires forall l :: l in t.ledger ==> t.ledger[l] == e || (l in s.ledger && t.ledger[l] == s.ledger[l])
    ensures ResourcesOk(t)
  {
    forall n | n in t.resources ensures Backed(t, t.resources[n]) {
      BackedLater(s, t, s.resources[n]);
    }
  }

  lemma BackedLater(s: State, t: State, r: Resource)
    requires Backed(s, r) && s.log <= t.log
    ensures Backed(t, r)
  {
  }

  lemma LogKeeps(s: State, t: State)
    requires ResourcesOk(s) && t.resources == s.resources && t.ledger == s.ledger && s.log <= t.log
    ensures ResourcesOk(t)
  {
    forall n | n in t.resources ensures Backed(t, t.resources[n]) {
      BackedLater(s, t, s.resources[n]);
    }
  }

  lemma SpawnEventResources(cfg: Config, s: State, e: MigrationEvent, ok: bool)
    requires ResourcesOk(s) && Known(s, e)
    ensures ResourcesOk(SpawnEvent(cfg, s, e, ok))
  {
    var t := SpawnEvent(cfg, s, e, ok);
    if !Processable(cfg, e) {
      MarkKeeps(s, e, Skipped, ok, t);
    } else if CanSpawn(cfg, s, EventLabel(e)) {
      MarkKeeps(s, e, InProgress, ok, t);
    }
  }

  lemma CompleteResources(s: State, name: string, ok: bool)
    requires ResourcesOk(s) && (IsEventLabel(name) ==> name in s.ledger)
    ensures ResourcesOk(Complete(s, name, ok))
  {
    if IsEventLabel(name) {
      MarkKeeps(s, s.ledger[name], Completed, ok, Complete(s, name, ok));
    }
  }

  lemma {:induction false} CompleteAllResources(s: State, names: seq<string>, ok: string -> bool)
    requires Distinct(names) && forall n :: n in names && IsEventLabel(n) ==> n in s.ledger
    requires ResourcesOk(s)
    ensures ResourcesOk(CompleteAll(s, names, ok))
    decreases |names|
  {
    if names != [] {
      CompleteResources(s, names[0], ok(names[0]));
      CompleteAllResources(Complete(s, names[0], ok(names[0])), names[1..], ok);
    }
  }

  lemma {:induction false} RestartAllResources(s: State, names: seq<string>)
    requires ResourcesOk(s) && forall n :: n in names ==> n in s.workers
    ensures ResourcesOk(RestartAll(s, names))
    decreases |names|
  {
    if names != [] {
      LogKeeps(s, Restart(s, names[0]));
      RestartAllResources(Restart(s, names[0]), names[1..]);
    }
  }

  lemma MonitorResources(s: State, order: seq<string>, ok: string -> bool)
    requires ResourcesOk(s) && Distinct(order) && forall n :: n in order <==> n in s.workers
    requires forall n :: n in s.workers && IsEventLabel(n) ==> n in s.ledger
    ensures ResourcesOk(Monitor(s, order, ok))
  {
    var done := Ended(s, order, true);
    CompleteAllIs(s, done, ok);
    CompleteAllResources(s, done, ok);
    RestartAllResources(CompleteAll(s, done, ok), Ended(s, order, false));
  }

  /** An event is handed out exactly when its resource is open and no ledger entry is for it. */
  lemma FetchIff(s: State, ok: bool, e: MigrationEvent)
    requires ResourcesOk(s)
    ensures e in Fetch(s, ok) <==>
            ok && Known(s, e) && s.resources[e.resourceName].status in {Pending, InProgress} &&
            forall l :: l in s.ledger ==> s.ledger[l] != e
  {
    assert e in s.ledger.Values <==> exists l :: l in s.ledger && s.ledger[l] == e;
    assert e.resourceName in s.resources ==> s.resources[e.resourceName].event.resourceName == e.resourceName;
  }

  /** A process for a has exited 0 under its label. */
  predicate Finished(s: State, a: MigrationEvent) {
    EventLabel(a) in s.workers && s.workers[EventLabel(a)] == Process(EventRun(a), Exited(0))
  }

  /** What monitoring does to a's resource: a finished event whose update succeeds is completed and no
      longer handed out, and one whose update fails is left as it is; an event without a finished process
      keeps its status. */
  ghost predicate LookedAt(s: State, ok: string -> bool, t: State, a: MigrationEvent)
    requires Known(s, a)
  {
    && Known(t, a)
    && t.resources[a.resourceName].status ==
       (if Finished(s, a) && ok(EventLabel(a)) then Completed else s.resources[a.resourceName].status)
    && (Finished(s, a) ==>
          (a in Fetch(t, true) <==>
             !ok(EventLabel(a)) && s.resources[a.resourceName].status in {Pending, InProgress}))
  }

  lemma LookCompletes(cfg: Config, s: State, order: seq<string>, ok: string -> bool, a: MigrationEvent)
    requires Inv(cfg, s) && ResourcesOk(s) && Known(s, a)
    requires Distinct(order) && forall n :: n in order <==> n in s.workers
    ensures LookedAt(s, ok, Monitor(s, order, ok), a)
  {
    var done, failed, t := Ended(s, order, true), Ended(s, order, false), Monitor(s, order, ok);
    LabelKinds(a, "", "");
    CompleteAllIs(s, done, ok);
    CompleteAllStatus(cfg, s, done, ok, a);
    RestartAllIs(CompleteAll(s, done, ok), failed);
    MonitorIs(s, order, ok);
    MonitorKeeps(cfg, s, order, ok);
    MonitorResources(s, order, ok);
    FetchIff(t, true, a);
  }

  /** Completing one worker changes the status of its own event only. */
  lemma CompleteStatus(cfg: Config, s: State, name: string, ok: bool, a: MigrationEvent)
    requires Inv(cfg, s) && ResourcesOk(s) && Known(s, a) && name in s.workers && s.workers[name].life == Exited(0)
    ensures var t := Complete(s, name, ok);
      && Known(t, a)
      && t.resources[a.resourceName].status ==
         (if name == EventLabel(a) && Finished(s, a) && ok then Completed else s.resources[a.resourceName].status)
      && (name != EventLabel(a) ==> (Finished(t, a) <==> Finished(s, a)))
  {
    LabelKinds(a, "", "");
    if IsEventLabel(name) {
      assert Known(s, s.ledger[name]);
    }
  }

  lemma {:induction false} CompleteAllStatus(cfg: Config, s: State, names: seq<string>, ok: string -> bool,
                                             a: MigrationEvent)
    requires Inv(cfg, s) && ResourcesOk(s) && Known(s, a) && Distinct(names)
    requires forall n :: n in names ==> n in s.workers && s.workers[n].life == Exited(0)
    ensures var t := CompleteAll(s, names, ok);
      && Known(t, a)
      && t.resources[a.resourceName].status ==
         (if EventLabel(a) in names && Finished(s, a) && ok(EventLabel(a)) then Completed
          else s.resources[a.resourceName].status)
    decreases |names|
  {
    if names != [] {
      CompleteKeeps(cfg, s, names[0], ok(names[0]));
      CompleteResources(s, names[0], ok(names[0]));
      CompleteStatus(cfg, s, names[0], ok(names[0]), a);
      assert names == [names[0]] + names[1..];
      CompleteAllStatus(cfg, Complete(s, names[0], ok(names[0])), names[1..], ok, a);
    }
  }

  /** What spawning for e does: an event that is not for this batch is skipped; another gets a process and
      a ledger entry if its label is free and a slot is left, and is then in progress. */
  ghost predicate SpawnedFor(cfg: Config, s: State, e: MigrationEvent, ok: bool, t: State) {
    var name, ours := EventLabel(e), e.pool in cfg.accepting && e.pool in cfg.setups && e.cluster == cfg.cluster;
    var free := !(name in s.workers && s.workers[name].life == Alive) && RunningWorkers(s) as real < cfg.slots;
    && t.workers == (if ours && free then s.workers[name := Process(EventRun(e), Alive)] else s.workers)
    && t.ledger == (if ours && free then s.ledger[name := e] else s.ledger)
    && (forall a :: Known(s, a) ==>
          && Known(t, a)
          && t.resources[a.resourceName].status ==
             if a == e && ok && !ours then Skipped
             else if a == e && ok && free then InProgress
             else s.resources[a.resourceName].status)
    && ((ours && free) || (!ours && ok) ==> e !in Fetch(t, true))
  }

  lemma SpawnEventIs(cfg: Config, s: State, e: MigrationEvent, ok: bool)
    requires ResourcesOk(s) && Known(s, e)
    ensures SpawnedFor(cfg, s, e, ok, SpawnEvent(cfg, s, e, ok))
  {
    LabelKinds(e, "", "");
    SpawnTables(cfg, s, e, ok);
    SpawnFetch(cfg, s, e, ok);
    forall a | Known(s, a)
      ensures Known(SpawnEvent(cfg, s, e, ok), a)
      ensures SpawnEvent(cfg, s, e, ok).resources[a.resourceName].status == SpawnedStatus(cfg, s, e, ok, a)
    {
      SpawnStatus(cfg, s, e, ok, a);
    }
  }

  ghost function SpawnedStatus(cfg: Config, s: State, e: MigrationEvent, ok: bool, a: MigrationEvent): Status
    requires Known(s, a)
  {
    if a == e && ok && !Processable(cfg, e) then Skipped
    else if a == e && ok && CanSpawn(cfg, s, EventLabel(e)) then InProgress
    else s.resources[a.resourceName].status
  }

  lemma SpawnTables(cfg: Config, s: State, e: MigrationEvent, ok: bool)
    ensures var t, name, starts := SpawnEvent(cfg, s, e, ok), EventLabel(e),
                                   Processable(cfg, e) && CanSpawn(cfg, s, EventLabel(e));
      && t.workers == (if starts then s.workers[name := Process(EventRun(e), Alive)] else s.workers)
      && t.ledger == (if starts then s.ledger[name := e] else s.ledger)
  {
  }

  lemma SpawnStatus(cfg: Config, s: State, e: MigrationEvent, ok: bool, a: MigrationEvent)
    requires ResourcesOk(s) && Known(s, e) && Known(s, a)
    ensures var t := SpawnEvent(cfg, s, e, ok);
      Known(t, a) && t.resources[a.resourceName].status == SpawnedStatus(cfg, s, e, ok, a)
  {
    MarkIs(s, e, Skipped, ok);
    MarkIs(s, e, InProgress, ok);
  }

  lemma SpawnFetch(cfg: Config, s: State, e: MigrationEvent, ok: bool)
    requires ResourcesOk(s) && Known(s, e)
    ensures Processable(cfg, e) && CanSpawn(cfg, s, EventLabel(e)) ==> e !in Fetch(SpawnEvent(cfg, s, e, ok), true)
    ensures !Processable(cfg, e) && ok ==> e !in Fetch(SpawnEvent(cfg, s, e, ok), true)
  {
    var t := SpawnEvent(cfg, s, e, ok);
    SpawnTables(cfg, s, e, ok);
    SpawnStatus(cfg, s, e, ok, e);
    SpawnEventResources(cfg, s, e, ok);
    FetchIff(t, true, e);
    assert EventLabel(e) in t.ledger && t.ledger[EventLabel(e)] == e ==> exists l :: l in t.ledger && t.ledger[l] == e;
  }

  /** A successful update changes the status of its own event only, a failed one changes nothing. */
  lemma MarkIs(s: State, e: MigrationEvent, status: Status, ok: bool)
    requires ResourcesOk(s) && Known(s, e)
    ensures var r := Mark(s.resources, e, status, ok);
      forall a :: Known(s, a) ==>
        a.resourceName in r &&
        r[a.resourceName] == Resource(a, if a == e && ok then status else s.resources[a.resourceName].status)
  {
  }

  // ---- runs ------------------------------------------------------------------------------

  /** A new resource appears; the supervisor spawns for an event it was handed, or for a pool's uptime;
      a process ends; the supervisor looks after its workers. */
  datatype Step =
    | Create(event: MigrationEvent)
    | Event(e: MigrationEvent, marked: bool)
    | Uptime(pool: string, uptime: int)
    | End(name: string, code: int)
    | Look(order: seq<string>, ok: string -> bool)

  ghost predicate Enabled(s: State, step: Step) {
    match step
    case Create(e) => e.resourceName !in s.resources
    case Event(e, _) => Known(s, e)
    case Uptime(_, _) => true
    case End(name, _) => Running(s, name)
    case Look(order, _) =>
      && Distinct(order)
      && (forall n :: n in order <==> n in s.workers)
  }

  ghost function Next(cfg: Config, s: State, step: Step): State
    requires Inv(cfg, s) && Enabled(s, step)
  {
    match step
    case Create(e) => s.(resources := s.resources[e.resourceName := Resource(e, Pending)])
    case Event(e, marked) => SpawnEvent(cfg, s, e, marked)
    case Uptime(pool, uptime) => SpawnUptime(cfg, s, pool, uptime)
    case End(name, code) => Exit(s, name, code)
    case Look(order, ok) => Monitor(s, order, ok)
  }

  /** Every step keeps the ledger in agreement with the process table, the accounts, and the statuses. */
  lemma StepKeeps(cfg: Config, s: State, step: Step)
    requires Inv(cfg, s) && ResourcesOk(s) && Enabled(s, step)
    ensures Inv(cfg, Next(cfg, s, step)) && ResourcesOk(Next(cfg, s, step))
  {
    match step
    case Create(e) =>
      CreateKeeps(cfg, s, e);
    case Event(e, marked) =>
      SpawnEventKeeps(cfg, s, e, marked);
      SpawnEventResources(cfg, s, e, marked);
    case Uptime(pool, uptime) =>
      SpawnUptimeKeeps(cfg, s, pool, uptime);
      LogKeeps(s, SpawnUptime(cfg, s, pool, uptime));
    case End(name, code) =>
      ExitKeeps(cfg, s, name, code);
      LogKeeps(s, Exit(s, name, code));
    case Look(order, ok) =>
      MonitorKeeps(cfg, s, order, ok);
      MonitorResources(s, order, ok);
  }

  lemma CreateKeeps(cfg: Config, s: State, e: MigrationEvent)
    requires Inv(cfg, s) && ResourcesOk(s) && e.resourceName !in s.resources
    ensures var t := s.(resources := s.resources[e.resourceName := Resource(e, Pending)]);
      Inv(cfg, t) && ResourcesOk(t)
  {
    var t := s.(resources := s.resources[e.resourceName := Resource(e, Pending)]);
    forall n | n in t.resources ensures Backed(t, t.resources[n]) {
      if n in s.resources { BackedLater(s, t, s.resources[n]); }
    }
    forall e' ensures AccountedFor(cfg, t, e') {
      assert AccountedFor(cfg, s, e');
    }
  }

  /** The states a run goes through, one more than its steps. */
  ghost predicate IsRun(cfg: Config, states: seq<State>, steps: seq<Step>) {
    && |states| == |steps| + 1
    && states[0] == Initial
    && forall i :: 0 <= i < |steps| ==> Follows(cfg, states[i], steps[i], states[i + 1])
  }

  /** The invariant is what makes a step defined: monitoring pops from the ledger. RunKeeps shows that
      it holds at every step. */
  ghost predicate Follows(cfg: Config, s: State, step: Step, t: State) {
    Enabled(s, step) && (Inv(cfg, s) ==> t == Next(cfg, s, step))
  }

  lemma {:induction false} RunKeeps(cfg: Config, states: seq<State>, steps: seq<Step>, i: nat)
    requires IsRun(cfg, states, steps) && i < |states|
    ensures Inv(cfg, states[i]) && ResourcesOk(states[i])
  {
    if i == 0 {
      assert forall e :: AccountedFor(cfg, Initial, e);
    } else {
      RunKeeps(cfg, states, steps, i - 1);
      assert Follows(cfg, states[i - 1], steps[i - 1], states[i]);
      StepKeeps(cfg, states[i - 1], steps[i - 1]);
    }
  }

  /** In every reachable state: no event is marked completed more often than processes started for it
      exited 0; a resource shows COMPLETED only if that happened at all; none is both run and skipped. */
  lemma CompletedOnlyAfterSuccess(cfg: Config, states: seq<State>, steps: seq<Step>, i: nat, e: MigrationEvent)
    requires IsRun(cfg, states, steps) && i < |states|
    ensures var s := states[i];
      && s.log[MarkedDone(e)] <= s.log[Succeeded(e)] <= s.log[Started(e)]
      && (Known(s, e) && s.resources[e.resourceName].status == Completed ==> s.log[Succeeded(e)] > 0)
      && !(s.log[Started(e)] > 0 && s.log[MarkedSkipped(e)] > 0)
  {
    RunKeeps(cfg, states, steps, i);
    assert AccountedFor(cfg, states[i], e);
    assert e.resourceName in states[i].resources ==> Backed(states[i], states[i].resources[e.resourceName]);
  }

  /** In every reachable state an open event is either handed out by the next listing, or a process
      under its own name is recorded as running it. */
  lemma OpenIsFetchedOrRun(cfg: Config, states: seq<State>, steps: seq<Step>, i: nat, e: MigrationEvent)
    requires IsRun(cfg, states, steps) && i < |states|
    requires var s := states[i]; Known(s, e) && s.resources[e.resourceName].status in {Pending, InProgress}
    ensures var s := states[i]; var l := EventLabel(e);
      e in Fetch(s, true) <==> !(l in s.workers && s.workers[l].routine == EventRun(e))
  {
    RunKeeps(cfg, states, steps, i);
    var s := states[i];
    LabelKinds(e, "", "");
    assert e.resourceName in s.resources;
    if e in s.ledger.Values {
      var l :| l in s.ledger && s.ledger[l] == e;
    } else {
      assert EventLabel(e) in s.ledger ==> s.ledger[EventLabel(e)] in s.ledger.Values;
    }
  }

  /** A dead worker replaced before it is noticed: its event leaves the ledger, is not marked, and is
      handed out again, even when the worker had succeeded. */
  lemma ReplacedIsFetchedAgain(cfg: Config, s: State, a: MigrationEvent, b: MigrationEvent, ok: bool)
    requires Inv(cfg, s) && ResourcesOk(s) && Known(s, a) && Known(s, b) && a != b
    requires EventLabel(a) == EventLabel(b) && EventLabel(a) in s.ledger && s.ledger[EventLabel(a)] == a
    requires s.resources[a.resourceName].status in {Pending, InProgress}
    requires Processable(cfg, b) && CanSpawn(cfg, s, EventLabel(b))
    ensures var t := SpawnEvent(cfg, s, b, ok);
      && t.log[MarkedDone(a)] == s.log[MarkedDone(a)]
      && a in Fetch(t, true) && b !in Fetch(t, true)
  {
    var t := SpawnEvent(cfg, s, b, ok);
    assert t.resources[a.resourceName] == s.resources[a.resourceName];
    assert t.ledger[EventLabel(b)] == b;
    forall l | l in t.ledger ensures t.ledger[l] != a {
      assert l != EventLabel(b) ==> t.ledger[l] == s.ledger[l];
    }
  }

  // ---- successes that are never noticed --------------------------------------------------

  /** The step starts a process in the place of the one that ran a. */
  predicate Replaces(cfg: Config, s: State, step: Step, a: MigrationEvent) {
    step.Event? && EventLabel(step.e) == EventLabel(a) && Processable(cfg, step.e) &&
    CanSpawn(cfg, s, EventLabel(step.e))
  }

  /** Monitoring marks a exactly once more if a success of a is unnoticed, and not at all otherwise. */
  lemma LookMarks(cfg: Config, s: State, order: seq<string>, ok: string -> bool, a: MigrationEvent)
    requires Inv(cfg, s) && Distinct(order) && forall n :: n in order <==> n in s.workers
    ensures Monitor(s, order, ok).log[MarkedDone(a)] == s.log[MarkedDone(a)] + Unnoticed(s, a)
    ensures Unnoticed(Monitor(s, order, ok), a) == 0
  {
    var done, failed := Ended(s, order, true), Ended(s, order, false);
    LabelKinds(a, "", "");
    CompleteAllIs(s, done, ok);
    CompleteAllMarks(cfg, s, done, ok, a);
    RestartAllMarks(CompleteAll(s, done, ok), failed, a);
    MonitorIs(s, order, ok);
  }

  lemma CompleteMarks(cfg: Config, s: State, name: string, ok: bool, a: MigrationEvent)
    requires Inv(cfg, s) && name in s.workers && s.workers[name].life == Exited(0)
    ensures var t := Complete(s, name, ok);
      && t.log[MarkedDone(a)] == s.log[MarkedDone(a)] + (if name == EventLabel(a) then Unnoticed(s, a) else 0)
      && (name != EventLabel(a) ==> Unnoticed(t, a) == Unnoticed(s, a))
      && (name == EventLabel(a) ==> Unnoticed(t, a) == 0)
  {
    LabelKinds(a, "", "");
  }

  lemma {:induction false} CompleteAllMarks(cfg: Config, s: State, names: seq<string>, ok: string -> bool,
                                            a: MigrationEvent)
    requires Inv(cfg, s) && Distinct(names)
    requires forall n :: n in names ==> n in s.workers && s.workers[n].life == Exited(0)
    ensures CompleteAll(s, names, ok).log[MarkedDone(a)] ==
            s.log[MarkedDone(a)] + (if EventLabel(a) in names then Unnoticed(s, a) else 0)
    decreases |names|
  {
    if names != [] {
      CompleteKeeps(cfg, s, names[0], ok(names[0]));
      CompleteMarks(cfg, s, names[0], ok(names[0]), a);
      assert names == [names[0]] + names[1..];
      CompleteAllMarks(cfg, Complete(s, names[0], ok(names[0])), names[1..], ok, a);
    }
  }

  lemma {:induction false} RestartAllMarks(s: State, names: seq<string>, a: MigrationEvent)
    requires forall n :: n in names ==> n in s.workers
    ensures RestartAll(s, names).log[MarkedDone(a)] == s.log[MarkedDone(a)]
    decreases |names|
  {
    if names != [] { RestartAllMarks(Restart(s, names[0]), names[1..], a); }
  }

  /** A step other than monitoring marks nothing, and unless a succeeds anew in it, an unnoticed success
      stays so exactly when its process is not replaced. */
  lemma UnnoticedStep(cfg: Config, s: State, step: Step, a: MigrationEvent)
    requires Inv(cfg, s) && Enabled(s, step) && !step.Look?
    ensures var t := Next(cfg, s, step);
      && t.log[MarkedDone(a)] == s.log[MarkedDone(a)] && t.log[Succeeded(a)] >= s.log[Succeeded(a)]
      && (t.log[Succeeded(a)] == s.log[Succeeded(a)] ==>
            (Unnoticed(t, a) == 1 <==> Unnoticed(s, a) == 1 && !Replaces(cfg, s, step, a)))
  {
    LabelKinds(a, cfg.cluster, if step.Uptime? then step.pool else "");
  }

  /** No step from i to j looks after the workers. */
  predicate NoLook(steps: seq<Step>, i: nat, j: nat) {
    j <= |steps| && forall k :: i <= k < j ==> !steps[k].Look?
  }

  /** No step from i to j starts a process in the place of the one that ran a. */
  ghost predicate NotReplaced(cfg: Config, states: seq<State>, steps: seq<Step>, i: nat, j: nat, a: MigrationEvent) {
    j <= |steps| && |states| == |steps| + 1 && forall k :: i <= k < j ==> !Replaces(cfg, states[k], steps[k], a)
  }

  lemma {:induction false} UnnoticedUntil(cfg: Config, states: seq<State>, steps: seq<Step>, i: nat, j: nat,
                                          a: MigrationEvent)
    requires IsRun(cfg, states, steps) && i <= j < |states| && Unnoticed(states[i], a) == 1 && NoLook(steps, i, j)
    ensures states[j].log[MarkedDone(a)] == states[i].log[MarkedDone(a)]
    ensures states[j].log[Succeeded(a)] >= states[i].log[Succeeded(a)]
    ensures states[j].log[Succeeded(a)] == states[i].log[Succeeded(a)] ==>
              (Unnoticed(states[j], a) == 1 <==> NotReplaced(cfg, states, steps, i, j, a))
    decreases j - i
  {
    if i < j {
      UnnoticedUntil(cfg, states, steps, i, j - 1, a);
      RunKeeps(cfg, states, steps, j - 1);
      assert Follows(cfg, states[j - 1], steps[j - 1], states[j]);
      UnnoticedStep(cfg, states[j - 1], steps[j - 1], a);
      NotReplacedNext(cfg, states, steps, i, j, a);
    }
  }

  lemma NotReplacedNext(cfg: Config, states: seq<State>, steps: seq<Step>, i: nat, j: nat, a: MigrationEvent)
    requires i < j <= |steps| && |states| == |steps| + 1
    ensures NotReplaced(cfg, states, steps, i, j, a) <==>
            NotReplaced(cfg, states, steps, i, j - 1, a) && !Replaces(cfg, states[j - 1], steps[j - 1], a)
  {
  }

  /** In every run: when a success of a is unnoticed after i steps and monitoring next comes as step j, with
      no further success of a in between, then a is marked by it exactly when its process was not
      replaced before. */
  lemma MarkedIff(cfg: Config, states: seq<State>, steps: seq<Step>, i: nat, j: nat, a: MigrationEvent)
    requires IsRun(cfg, states, steps) && i <= j < |steps| && Unnoticed(states[i], a) == 1
    requires NoLook(steps, i, j) && steps[j].Look?
    requires states[j].log[Succeeded(a)] == states[i].log[Succeeded(a)]
    ensures states[j + 1].log[MarkedDone(a)] == states[i].log[MarkedDone(a)] + 1 <==>
            NotReplaced(cfg, states, steps, i, j, a)
    ensures NotReplaced(cfg, states, steps, i, j, a) && steps[j].ok(EventLabel(a)) ==>
              Known(states[j + 1], a) && states[j + 1].resources[a.resourceName].status == Completed
  {
    UnnoticedUntil(cfg, states, steps, i, j, a);
    RunKeeps(cfg, states, steps, j);
    assert Follows(cfg, states[j], steps[j], states[j + 1]);
    LookMarks(cfg, states[j], steps[j].order, steps[j].ok, a);
    if NotReplaced(cfg, states, steps, i, j, a) {
      FinishedKnown(cfg, states[j], a);
      LookCompletes(cfg, states[j], steps[j].order, steps[j].ok, a);
    }
  }

  lemma FinishedKnown(cfg: Config, s: State, a: MigrationEvent)
    requires Inv(cfg, s) && ResourcesOk(s) && Unnoticed(s, a) == 1
    ensures Known(s, a) && Finished(s, a)
  {
    LabelKinds(a, "", "");
    assert EventLabel(a) in s.ledger;
  }

  /** Two events for one pool: the first one's worker succeeds and is replaced for the second one. */
  function LosingSteps(a: MigrationEvent, b: MigrationEvent): seq<Step> {
    [Create(a), Create(b), Event(a, true), End(EventLabel(a), 0), Event(b, true)]
  }

  /** A run in which a success is lost: a is open and handed out again although a process for it exited
      0, and nothing was marked. */
  lemma SuccessLost(cfg: Config, a: MigrationEvent, b: MigrationEvent) returns (states: seq<State>)
    requires a.resourceName != b.resourceName && EventLabel(a) == EventLabel(b)
    requires Processable(cfg, a) && Processable(cfg, b) && cfg.slots >= 1.0
    ensures IsRun(cfg, states, LosingSteps(a, b))
    ensures var s := states[|states| - 1];
      s.log[Succeeded(a)] == 1 && s.log[MarkedDone(a)] == 0 && a in Fetch(s, true)
  {
    var s1, s2, s3 := FirstStarted(cfg, a, b);
    var s4, s5 := ThenReplaced(cfg, s3, a, b);
    states := [Initial, s1, s2, s3, s4, s5];
    FiveSteps(cfg, states, LosingSteps(a, b));
  }

  lemma FirstStarted(cfg: Config, a: MigrationEvent, b: MigrationEvent) returns (s1: State, s2: State, s3: State)
    requires a.resourceName != b.resourceName && Processable(cfg, a) && cfg.slots >= 1.0
    ensures Follows(cfg, Initial, Create(a), s1) && Follows(cfg, s1, Create(b), s2)
    ensures Follows(cfg, s2, Event(a, true), s3)
    ensures s3.workers == map[EventLabel(a) := Process(EventRun(a), Alive)] && s3.ledger == map[EventLabel(a) := a]
    ensures s3.log == multiset{Started(a)} && Known(s3, b)
    ensures Known(s3, a) && s3.resources[a.resourceName].status == InProgress
  {
    s1 := Initial.(resources := map[a.resourceName := Resource(a, Pending)]);
    s2 := s1.(resources := s1.resources[b.resourceName := Resource(b, Pending)]);
    s3 := State(map[EventLabel(a) := Process(EventRun(a), Alive)], map[EventLabel(a) := a],
                s2.resources[a.resourceName := Resource(a, InProgress)], multiset{Started(a)});
    CreateFollows(cfg, Initial, a, s1);
    CreateFollows(cfg, s1, b, s2);
    FirstSpawned(cfg, s2, a, s3);
  }

  lemma ThenReplaced(cfg: Config, s: State, a: MigrationEvent, b: MigrationEvent) returns (s4: State, s5: State)
    requires a.resourceName != b.resourceName && EventLabel(a) == EventLabel(b)
    requires Processable(cfg, b) && cfg.slots >= 1.0 && Known(s, b)
    requires s.workers == map[EventLabel(a) := Process(EventRun(a), Alive)] && s.ledger == map[EventLabel(a) := a]
    requires s.log == multiset{Started(a)} && Known(s, a) && s.resources[a.resourceName].status == InProgress
    ensures Follows(cfg, s, End(EventLabel(a), 0), s4) && Follows(cfg, s4, Event(b, true), s5)
    ensures s5.log[Succeeded(a)] == 1 && s5.log[MarkedDone(a)] == 0 && a in Fetch(s5, true)
  {
    var l := EventLabel(b);
    s4 := s.(workers := map[l := Process(EventRun(a), Exited(0))], log := s.log + multiset{Succeeded(a)});
    s5 := State(map[l := Process(EventRun(b), Alive)], map[l := b],
                s4.resources[b.resourceName := Resource(b, InProgress)], s4.log + multiset{Started(b)});
    ExitFollows(cfg, s, l, s4);
    SecondSpawned(cfg, s4, b, s5);
    Handed(s5, a);
  }

  lemma FiveSteps(cfg: Config, states: seq<State>, steps: seq<Step>)
    requires |states| == 6 && |steps| == 5 && states[0] == Initial
    requires Follows(cfg, states[0], steps[0], states[1]) && Follows(cfg, states[1], steps[1], states[2])
    requires Follows(cfg, states[2], steps[2], states[3]) && Follows(cfg, states[3], steps[3], states[4])
    requires Follows(cfg, states[4], steps[4], states[5])
    ensures IsRun(cfg, states, steps)
  {
  }

  lemma CreateFollows(cfg: Config, s: State, e: MigrationEvent, t: State)
    requires e.resourceName !in s.resources
    requires t == s.(resources := s.resources[e.resourceName := Resource(e, Pending)])
    ensures Follows(cfg, s, Create(e), t)
  {
  }

  lemma ExitFollows(cfg: Config, s: State, name: string, t: State)
    requires Running(s, name) && s.workers[name].routine.EventRun? && s.workers.Keys == {name}
    requires var e := s.workers[name].routine.event;
      t == s.(workers := map[name := Process(EventRun(e), Exited(0))], log := s.log + multiset{Succeeded(e)})
    ensures Follows(cfg, s, End(name, 0), t)
  {
    var e := s.workers[name].routine.event;
    assert s.workers[name := Process(EventRun(e), Exited(0))] == t.workers;
  }

  lemma FirstSpawned(cfg: Config, s: State, e: MigrationEvent, t: State)
    requires s.workers == map[] && s.ledger == map[] && s.log == multiset{} && Known(s, e)
    requires Processable(cfg, e) && cfg.slots >= 1.0
    requires t == State(map[EventLabel(e) := Process(EventRun(e), Alive)], map[EventLabel(e) := e],
                        s.resources[e.resourceName := Resource(e, InProgress)], multiset{Started(e)})
    ensures Follows(cfg, s, Event(e, true), t)
  {
    assert (set l | l in s.workers && s.workers[l].life == Alive) == {};
    assert s.workers[EventLabel(e) := Process(EventRun(e), Alive)] == t.workers;
    assert s.ledger[EventLabel(e) := e] == t.ledger;
  }

  lemma SecondSpawned(cfg: Config, s: State, e: MigrationEvent, t: State)
    requires Known(s, e) && Processable(cfg, e) && cfg.slots >= 1.0
    requires s.workers.Keys == {EventLabel(e)} && s.workers[EventLabel(e)].life != Alive
    requires s.ledger.Keys == {EventLabel(e)}
    requires t == State(map[EventLabel(e) := Process(EventRun(e), Alive)], map[EventLabel(e) := e],
                        s.resources[e.resourceName := Resource(e, InProgress)], s.log + multiset{Started(e)})
    ensures Follows(cfg, s, Event(e, true), t)
  {
    assert (set l | l in s.workers && s.workers[l].life == Alive) == {};
    assert s.workers[EventLabel(e) := Process(EventRun(e), Alive)] == t.workers;
    assert s.ledger[EventLabel(e) := e] == t.ledger;
  }

  lemma Handed(s: State, a: MigrationEvent)
    requires Known(s, a) && s.resources[a.resourceName].status == InProgress && a !in s.ledger.Values
    ensures a in Fetch(s, true)
  {
    assert a.resourceName in s.resources;
  }

  // ---- the supervisor --------------------------------------------------------------------

  /** The batch: its tables, and the cluster's event resources it reads and marks. */
  class Supervisor {
    const cfg: Config
    var migrationWorkers: map<string, Process>
    var eventsInProgress: map<string, MigrationEvent>
    var resources: map<string, Resource>
    ghost var log: multiset<Fact>

    ghost function Abs(): State
      reads this
    {
      State(migrationWorkers, eventsInProgress, resources, log)
    }

    ghost predicate Valid()
      reads this
    {
      Inv(cfg, Abs())
    }

    constructor (cfg: Config)
      ensures Valid() && this.cfg == cfg && Abs() == Initial
    {
      this.cfg := cfg;
      migrationWorkers, eventsInProgress, resources, log := map[], map[], map[], multiset{};
      new;
      assert forall e :: AccountedFor(cfg, Initial, e);
    }

    /** Starts a process under a label unless one is alive there or, for events, no slot is free. */
    method SpawnWorker(name: string, routine: Routine) returns (spawned: bool)
      modifies this`migrationWorkers
      ensures spawned <==> CanSpawn(cfg, old(Abs()), name)
      ensures spawned <==> !(name in old(migrationWorkers) && old(migrationWorkers)[name].life == Alive) &&
                           (IsEventLabel(name) ==> RunningWorkers(old(Abs())) as real < cfg.slots)
      ensures migrationWorkers
           == if spawned then old(migrationWorkers)[name := Process(routine, Alive)] else old(migrationWorkers)
    {
      if name in migrationWorkers && migrationWorkers[name].life == Alive {
        return false;
      }
      var runningWorkers := |set l | l in migrationWorkers && migrationWorkers[l].life == Alive|;
      assert runningWorkers == RunningWorkers(Abs());
      if IsEventLabel(name) && runningWorkers as real >= cfg.slots {
        return false;
      }
      migrationWorkers := migrationWorkers[name := Process(routine, Alive)];
      return true;
    }

    method MarkEvent(e: MigrationEvent, status: Status, ok: bool)
      modifies this`resources
      ensures resources == Mark(old(resources), e, status, ok)
    {
      if ok && e.resourceName in resources {
        resources := resources[e.resourceName := resources[e.resourceName].(status := status)];
      }
    }

    method SpawnEventWorker(e: MigrationEvent, marked: bool)
      requires Valid()
      modifies this
      ensures Valid() && Abs() == SpawnEvent(cfg, old(Abs()), e, marked)
      ensures ResourcesOk(old(Abs())) && Known(old(Abs()), e) ==> SpawnedFor(cfg, old(Abs()), e, marked, Abs())
    {
      SpawnEventKeeps(cfg, Abs(), e, marked);
      if ResourcesOk(Abs()) && Known(Abs(), e) {
        SpawnEventIs(cfg, Abs(), e, marked);
      }
      if e.pool !in cfg.accepting {
        MarkEvent(e, Skipped, marked);
        log := log + multiset{MarkedSkipped(e)};
        return;
      }
      if e.pool !in cfg.setups || e.cluster != cfg.cluster {
        MarkEvent(e, Skipped, marked);
        log := log + multiset{MarkedSkipped(e)};
        return;
      }
      LabelKinds(e, "", "");
      var spawned := SpawnWorker(EventLabel(e), EventRun(e));
      if spawned {
        log := log + multiset{Started(e)};
        MarkEvent(e, InProgress, marked);
        eventsInProgress := eventsInProgress[EventLabel(e) := e];
      }
    }

    method SpawnUptimeWorker(pool: string, uptime: int)
      requires Valid()
      modifies this`migrationWorkers
      ensures Valid() && Abs() == SpawnUptime(cfg, old(Abs()), pool, uptime)
      ensures var name, before := UptimeLabel(cfg.cluster, pool), old(migrationWorkers);
        migrationWorkers ==
        if uptime >= 86400 && pool in cfg.setups && !(name in before && before[name].life == Alive)
        then before[name := Process(UptimeRun(pool), Alive)] else before
    {
      LabelKinds(MigrationEvent("", "", ""), cfg.cluster, pool);
      SpawnUptimeKeeps(cfg, Abs(), pool, uptime);
      if uptime < MinUptimeChurningSeconds || pool !in cfg.setups {
        return;
      }
      var spawned := SpawnWorker(UptimeLabel(cfg.cluster, pool), UptimeRun(pool));
    }

    /** A worker found to have exited 0 leaves the tables; its event is marked. */
    method CompleteWorker(name: string, ok: bool)
      requires IsEventLabel(name) ==> name in eventsInProgress
      modifies this
      ensures Abs() == Complete(old(Abs()), name, ok)
    {
      if IsEventLabel(name) {
        var event := eventsInProgress[name];
        eventsInProgress := eventsInProgress - {name};
        log := log + multiset{MarkedDone(event)};
        MarkEvent(event, Completed, ok);
      }
      migrationWorkers := migrationWorkers - {name};
    }

    method RestartWorker(name: string)
      requires name in migrationWorkers
      modifies this`migrationWorkers, this`log
      ensures Abs() == Restart(old(Abs()), name)
    {
      var routine := migrationWorkers[name].routine;
      migrationWorkers := migrationWorkers[name := Process(routine, Alive)];
      log := log + StartFacts(routine);
    }

    /** Sorts the dead workers into those that are done and those to restart. */
    method FindDead(order: seq<string>) returns (completed: seq<string>, toRestart: seq<string>)
      requires Distinct(order) && forall n :: n in order ==> n in migrationWorkers
      ensures completed == Ended(Abs(), order, true) && toRestart == Ended(Abs(), order, false)
    {
      completed, toRestart := [], [];
      var i := 0;
      while i < |order|
        invariant i <= |order|
        invariant completed == Ended(Abs(), order[..i], true) && toRestart == Ended(Abs(), order[..i], false)
      {
        assert order[..i + 1][..i] == order[..i];
        var process := migrationWorkers[order[i]];
        if process.life.Exited? {
          if process.life.code == 0 {
            completed := completed + [order[i]];
          } else {
            toRestart := toRestart + [order[i]];
          }
        }
        i := i + 1;
      }
      assert order[..i] == order;
    }

    method CompleteWorkers(completed: seq<string>, ok: string -> bool)
      requires Distinct(completed) && forall n :: n in completed && IsEventLabel(n) ==> n in eventsInProgress
      modifies this
      ensures Abs() == CompleteAll(old(Abs()), completed, ok)
    {
      ghost var target := CompleteAll(Abs(), completed, ok);
      var i := 0;
      while i < |completed|
        invariant i <= |completed|
        invariant forall n :: n in completed[i..] && IsEventLabel(n) ==> n in eventsInProgress
        invariant CompleteAll(Abs(), completed[i..], ok) == target
      {
        assert completed[i..] == [completed[i]] + completed[i + 1..];
        assert completed[i..][1..] == completed[i + 1..];
        CompleteWorker(completed[i], ok(completed[i]));
        i := i + 1;
      }
    }

    method RestartWorkers(toRestart: seq<string>)
      requires forall n :: n in toRestart ==> n in migrationWorkers
      modifies this`migrationWorkers, this`log
      ensures Abs() == RestartAll(old(Abs()), toRestart)
    {
      ghost var target := RestartAll(Abs(), toRestart);
      var i := 0;
      while i < |toRestart|
        invariant i <= |toRestart|
        invariant forall n :: n in toRestart ==> n in migrationWorkers
        invariant forall n :: n in toRestart[i..] ==> n in migrationWorkers
        invariant RestartAll(Abs(), toRestart[i..]) == target
      {
        assert toRestart[i..][1..] == toRestart[i + 1..];
        RestartWorker(toRestart[i]);
        i := i + 1;
      }
    }

    method MonitorWorkers(order: seq<string>, ok: string -> bool)
      requires Valid() && Distinct(order) && forall n :: n in order <==> n in migrationWorkers
      modifies this
      ensures Valid() && Abs() == Monitor(old(Abs()), order, ok)
      ensures ResourcesOk(old(Abs())) ==>
                forall a :: Known(old(Abs()), a) ==> LookedAt(old(Abs()), ok, Abs(), a)
    {
      if ResourcesOk(Abs()) {
        forall a | Known(Abs(), a) ensures LookedAt(Abs(), ok, Monitor(Abs(), order, ok), a) {
          LookCompletes(cfg, Abs(), order, ok, a);
        }
      }
      MonitorKeeps(cfg, Abs(), order, ok);
      var completed, toRestart := FindDead(order);
      CompleteAllIs(Abs(), completed, ok);
      CompleteWorkers(completed, ok);
      RestartWorkers(toRestart);
    }
  }
}
