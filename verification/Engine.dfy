/** The engine as one system whose calls do not overlap: requests and queued jobs run one after
    another, in any order, over one database, cache and queue. */
module Engines {
  import opened Values
  import opened EventReducers
  import opened CacheKeys
  import opened Tables
  import opened Consistency
  import opened Freshness
  import opened RedisCaching
  import opened Databases
  import opened Aggregates
  import opened Snapshots
  import opened Events
  import opened SnapshotWorkers
  import opened ReplayJobs

  /** One call, with what goes wrong in it. */
  datatype Request =
    | AppendEvent(projectId: string, input: AppendInput, newId: string, del: bool, queueUp: bool)
    | QueryState(projectId: string, id: string, asOf: Option<string>, answers: Answers, fault: Fault)
    | DeclareRule(declared: RuleRow)
    | RunNextJob(answers: Answers, fault: Fault)
    | CreateReplay(jobId: string, projectId: string, aggregateType: Option<string>)
    | RunReplay(jobId: string, itemAnswers: string -> Answers, faults: ReplayFaults)
    | ExpireKeys(keys: set<string>)
  {
    /** What request validation lets through. */
    predicate Allowed() {
      match this
      case QueryState(_, _, asOf, _, _) => ValidAsOf(asOf)
      case DeclareRule(declared) => IsValid(declared)
      case _ => true
    }

    /** The deletes the call issues are answered. */
    ghost predicate Invalidates() {
      match this
      case AppendEvent(_, _, _, del, _) => del
      case RunNextJob(answers, _) => answers.del
      case RunReplay(_, answers, _) => AllDelete(answers)
      case _ => true
    }

    /** No snapshot job fails and none fails to be queued. */
    predicate KeepsUp() {
      match this
      case AppendEvent(_, _, _, _, queueUp) => queueUp
      case RunNextJob(_, fault) => fault.NoFault?
      case _ => true
    }
  }

  datatype Response =
    | Stored(aggregate: Aggregate, event: Event)
    | Rejected
    | Answered(r: Result<StateResult, Error>)
    | Thrown(error: Option<Error>)
    | Done

  /** The premises spelled out: deletes answered, jobs and queue at work, digits and valid rows only. */
  lemma PremisesMean(request: Request)
    ensures request.Invalidates() <==>
            && (request.AppendEvent? ==> request.del)
            && (request.RunNextJob? ==> request.answers.del)
            && (request.RunReplay? ==> forall id :: request.itemAnswers(id).del)
    ensures request.KeepsUp() <==>
            && (request.AppendEvent? ==> request.queueUp)
            && (request.RunNextJob? ==> request.fault == NoFault)
    ensures request.Allowed() <==>
            && (request.QueryState? && request.asOf.Some? ==> IsDecimal(request.asOf.value))
            && (request.DeclareRule? ==> IsValid(request.declared))
  {}

  // ---- The plain engine ----

  /** An answer under the aggregate's own name, labelled with where the question reaches in the
      first `seen` events; while the aggregate's rules have held it is their plain fold. */
  ghost predicate PlainAnswer(v: View, id: string, asOf: Option<string>, r: StateResult, seen: nat)
    requires ValidAsOf(asOf)
  {
    && v.versions != []
    && seen <= |Log(v.events, id)|
    && exists i :: 0 <= i < |v.aggregates|
                   && var a := v.aggregates[i];
                      && a.id == id && r.aggregateId == id
                      && r.aggregateType == a.aggregateType && r.aggregateKey == a.aggregateKey
                      && r.asOfSequence == Label(Reach(asOf, seen))
                      && (RulesHeld(v, a) ==> r.state == PlainState(v, a, Reach(asOf, seen)))
  }

  /** The answer covers the first `seen` events, and is exact while the rules have held. */
  ghost predicate AnswersAsOf(v: View, id: string, asOf: Option<string>, r: StateResult, seen: nat)
    requires ValidAsOf(asOf)
  {
    ResultGood(v, id, asOf, r, seen) && PlainAnswer(v, id, asOf, r, seen)
  }

  /** One step of an engine that is nothing but its tables: an append adds its event, a rule
      declaration replaces its rule, a query answers for some prefix of the log and fails only for
      a database error or an aggregate the project does not own, and nothing else shows. */
  ghost predicate PlainStep(request: Request, v: View, response: Response, v': View) {
    && v.versions != [] && request.Allowed()
    && match request
       case AppendEvent(projectId, input, newId, _, _) =>
         if CanStore(v.aggregates, projectId, input, newId) then
           && response == Stored(AggregateFor(v.aggregates, projectId, input, newId),
                                 EventFor(v, projectId, input, newId))
           && v' == Appended(v, projectId, input, newId)
         else response == Rejected && v' == v
       case QueryState(projectId, id, asOf, _, fault) =>
         && v' == v && response.Answered?
         && (response.r.Failure? ==> RightError(v.aggregates, projectId, id, fault, response.r.error))
         && (response.r.Success? ==> exists seen :: AnswersAsOf(v, id, asOf, response.r.value, seen))
       case DeclareRule(declared) => v' == Declared(v, declared)
       case _ => v' == v
  }

  /** A latest query that succeeds answers for the whole log. */
  ghost predicate AnswersNow(request: Request, v: View, response: Response) {
    request.QueryState? && request.asOf == None && response.Answered? && response.r.Success? ==>
      AnswersAsOf(v, request.id, None, response.r.value, |Log(v.events, request.id)|)
  }

  // ---- What a request does to everything derived ----

  /** The snapshot table, the cache, the queue of snapshot jobs and the replay jobs. */
  datatype Stores = Stores(rows: seq<Snapshot>, cache: map<string, CacheValue>, waiting: seq<Job>,
                           replays: map<string, ReplayJob>)

  /** What each request leaves of them. */
  ghost function StoresAfter(request: Request, v: View, s: Stores): Stores
    requires Consistent(v, s.rows, s.cache) && request.Allowed()
  {
    match request
    case AppendEvent(projectId, input, newId, del, queueUp) => AfterAppend(v, s, projectId, input, newId, del, queueUp)
    case QueryState(projectId, id, asOf, answers, fault) =>
      s.(cache := QueryOutcome(v, s.rows, s.cache, projectId, id, asOf, answers, fault).cache)
    case DeclareRule(_) => s
    case RunNextJob(answers, fault) => AfterJob(v, s, answers, fault)
    case CreateReplay(jobId, projectId, aggregateType) =>
      if jobId in s.replays then s
      else s.(replays := s.replays[jobId := ReplayJob(projectId, aggregateType, Pending, None, None)])
    case RunReplay(jobId, answers, faults) => AfterReplay(v, s, jobId, answers, faults)
    case ExpireKeys(keys) => s.(cache := s.cache - keys)
  }

  /** A stored event drops the two latest entries of its aggregate, and queues one job exactly
      when 20 or more events then lie past the latest snapshot. */
  function AfterAppend(v: View, s: Stores, projectId: string, input: AppendInput, newId: string, del: bool,
                       queueUp: bool): Stores
  {
    if !CanStore(v.aggregates, projectId, input, newId) then s
    else
      var a := AggregateFor(v.aggregates, projectId, input, newId);
      var due := Backlog(Appended(v, projectId, input, newId), s.rows, a.id) >= 20;
      s.(cache := if del then s.cache - {LatestStateKey(a.id), LatestLookupKey(a.id)} else s.cache,
         waiting := s.waiting + if queueUp && due then [Job(a.projectId, a.id)] else [])
  }

  /** The oldest job leaves the queue and takes its snapshot. */
  ghost function AfterJob(v: View, s: Stores, answers: Answers, fault: Fault): Stores
    requires Consistent(v, s.rows, s.cache)
  {
    if s.waiting == [] then s
    else
      var Job(projectId, id) := s.waiting[0];
      var r := SnapshotOutcome(v, s.rows, s.cache, projectId, id, answers, fault);
      var looked := QueryOutcome(v, s.rows, s.cache, projectId, id, None, answers, fault).cache;
      Stores(RowsAfter(s.rows, r), CacheAfter(looked, id, r, answers.del), s.waiting[1..], s.replays)
  }

  /** A known replay job is run over its whole scope. */
  ghost function AfterReplay(v: View, s: Stores, jobId: string, answers: string -> Answers,
                             faults: ReplayFaults): Stores
    requires Consistent(v, s.rows, s.cache)
  {
    if jobId !in s.replays then s
    else
      var job := s.replays[jobId];
      var p := RunOf(v, s.rows, s.cache, job, answers, faults);
      Stores(p.rows, p.cache, s.waiting, s.replays[jobId := Finished(job, faults, p.result)])
  }

  /** What each request is answered with. */
  ghost function ResponseTo(request: Request, v: View, s: Stores): Response
    requires Consistent(v, s.rows, s.cache) && request.Allowed()
  {
    match request
    case AppendEvent(projectId, input, newId, _, _) =>
      if CanStore(v.aggregates, projectId, input, newId)
      then Stored(AggregateFor(v.aggregates, projectId, input, newId), EventFor(v, projectId, input, newId))
      else Rejected
    case QueryState(projectId, id, asOf, answers, fault) =>
      Answered(QueryOutcome(v, s.rows, s.cache, projectId, id, asOf, answers, fault).r)
    case RunNextJob(answers, fault) =>
      if s.waiting == [] then Done
      else
        var Job(projectId, id) := s.waiting[0];
        var r := SnapshotOutcome(v, s.rows, s.cache, projectId, id, answers, fault);
        Thrown(if r.Failure? then Some(r.error) else None)
    case RunReplay(jobId, _, faults) => Thrown(if jobId in s.replays then faults.Thrown() else Some(NotFound))
    case _ => Done
  }

  // ---- Where answers come from ----

  /** Does the request ask this question? Jobs and replays ask for latest states. */
  predicate Asks(request: Request, id: string, asOf: Option<string>) {
    match request
    case QueryState(_, i, o, _, _) => i == id && o == asOf
    case RunNextJob(_, _) => asOf == None
    case RunReplay(_, _, _) => asOf == None
    case _ => false
  }

  /** The entry answers its question for the whole log of these tables. */
  ghost predicate FilledFrom(v: View, cache: map<string, CacheValue>, id: string, asOf: Option<string>)
    requires ValidAsOf(asOf)
  {
    var key := StateKey(id, asOf);
    && key in cache && cache[key].StateValue? && cache[key].seen == |Log(v.events, id)|
    && AnswersAsOf(v, id, asOf, cache[key].result, cache[key].seen)
  }

  /** After a request a state entry is gone, as it was, or filled from the tables the request
      met, and that only if the request asked its question. */
  ghost predicate EntriesMove(request: Request, v: View, cache: map<string, CacheValue>,
                              cache': map<string, CacheValue>) {
    forall id, asOf | ValidAsOf(asOf) ::
      EntrySame(cache, cache', id, asOf) || (Asks(request, id, asOf) && FilledFrom(v, cache', id, asOf))
  }

  /** A cached answer is that of its entry and covers what the entry has seen, a computed one is
      for the whole log of the moment. */
  ghost predicate AnswersFromEntry(request: Request, v: View, cache: map<string, CacheValue>, response: Response) {
    request.QueryState? && ValidAsOf(request.asOf) && response.Answered? && response.r.Success? ==>
      var id, asOf, key := request.id, request.asOf, StateKey(request.id, request.asOf);
      if Hits(cache, key, request.answers.getState) then
        && cache[key].StateValue? && response.r.value == cache[key].result
        && AnswersAsOf(v, id, asOf, response.r.value, cache[key].seen)
      else AnswersAsOf(v, id, asOf, response.r.value, |Log(v.events, id)|)
  }

  lemma KeptEntriesMove(request: Request, v: View, rows: seq<Snapshot>, cache: map<string, CacheValue>,
                        cache': map<string, CacheValue>)
    requires Consistent(v, rows, cache')
    requires forall id, asOf | ValidAsOf(asOf) ::
      EntryKept(v, cache, cache', id, asOf) && (!Asks(request, id, asOf) ==> EntrySame(cache, cache', id, asOf))
    ensures EntriesMove(request, v, cache, cache')
  {
    forall id, asOf | ValidAsOf(asOf)
      ensures EntrySame(cache, cache', id, asOf) || (Asks(request, id, asOf) && FilledFrom(v, cache', id, asOf))
    {
      assert EntryKept(v, cache, cache', id, asOf);
      assert StateEntryGood(v, cache', id, asOf);
      var key := StateKey(id, asOf);
      if !EntrySame(cache, cache', id, asOf) {
        GoodAnswerIsPlain(v, id, asOf, cache'[key].result, cache'[key].seen);
      }
    }
  }

  lemma LatestEntriesMove(request: Request, v: View, rows: seq<Snapshot>, cache: map<string, CacheValue>,
                          cache': map<string, CacheValue>)
    requires Consistent(v, rows, cache') && FillsOnlyLatest(v, cache, cache')
    requires request.RunNextJob? || request.RunReplay?
    ensures EntriesMove(request, v, cache, cache')
  {
    KeptEntriesMove(request, v, rows, cache, cache');
  }

  lemma QueriedEntriesMove(request: Request, v: View, rows: seq<Snapshot>, cache: map<string, CacheValue>,
                           cache': map<string, CacheValue>)
    requires request.QueryState? && Consistent(v, rows, cache') && FillsOnly(v, cache, cache', request.id, request.asOf)
    ensures EntriesMove(request, v, cache, cache')
  {
    KeptEntriesMove(request, v, rows, cache, cache');
  }

  lemma FewerEntriesMove(request: Request, v: View, cache: map<string, CacheValue>, cache': map<string, CacheValue>)
    requires forall key :: key in cache' ==> key in cache && cache'[key] == cache[key]
    ensures EntriesMove(request, v, cache, cache')
  {}

  lemma GoodAnswerIsPlain(v: View, id: string, asOf: Option<string>, r: StateResult, seen: nat)
    requires ViewInv(v) && ValidAsOf(asOf) && ResultGood(v, id, asOf, r, seen)
    ensures AnswersAsOf(v, id, asOf, r, seen)
  {
    var i :| 0 <= i < |v.aggregates| && v.aggregates[i].id == r.aggregateId == id
             && v.aggregates[i].aggregateType == r.aggregateType && v.aggregates[i].aggregateKey == r.aggregateKey;
    if RulesHeld(v, v.aggregates[i]) { GoodIsPlainWhenRulesHeld(v, v.aggregates[i], Reach(asOf, seen), r.state); }
  }

  lemma QueryIsPlain(v: View, projectId: string, id: string, asOf: Option<string>, answers: Answers, fault: Fault,
                     r: Result<StateResult, Error>)
    requires ViewInv(v) && ValidAsOf(asOf)
    requires r.Failure? ==> RightError(v.aggregates, projectId, id, fault, r.error)
    requires r.Success? ==> exists seen :: ResultGood(v, id, asOf, r.value, seen)
    ensures PlainStep(QueryState(projectId, id, asOf, answers, fault), v, Answered(r), v)
  {
    if r.Success? {
      var seen :| ResultGood(v, id, asOf, r.value, seen);
      GoodAnswerIsPlain(v, id, asOf, r.value, seen);
    }
  }

  lemma SeenAnswerIsPlain(v: View, cache: map<string, CacheValue>, projectId: string, id: string, asOf: Option<string>,
                          answers: Answers, fault: Fault, r: Result<StateResult, Error>)
    requires ViewInv(v) && ValidAsOf(asOf)
    requires var key := StateKey(id, asOf);
             r.Success? ==>
               if Hits(cache, key, answers.getState) then
                 && cache[key].StateValue? && r.value == cache[key].result
                 && ResultGood(v, id, asOf, r.value, cache[key].seen)
               else ResultGood(v, id, asOf, r.value, |Log(v.events, id)|)
    ensures AnswersFromEntry(QueryState(projectId, id, asOf, answers, fault), v, cache, Answered(r))
    ensures r.Success? && ResultGood(v, id, asOf, r.value, |Log(v.events, id)|) ==>
              AnswersAsOf(v, id, asOf, r.value, |Log(v.events, id)|)
  {
    if r.Success? {
      if Hits(cache, StateKey(id, asOf), answers.getState) {
        GoodAnswerIsPlain(v, id, asOf, r.value, cache[StateKey(id, asOf)].seen);
      }
      if ResultGood(v, id, asOf, r.value, |Log(v.events, id)|) {
        GoodAnswerIsPlain(v, id, asOf, r.value, |Log(v.events, id)|);
      }
    }
  }

  ghost predicate AllInvalidate(requests: seq<Request>) {
    forall i :: 0 <= i < |requests| ==> requests[i].Invalidates()
  }

  ghost predicate AllKeepUp(requests: seq<Request>) {
    forall i :: 0 <= i < |requests| ==> requests[i].KeepsUp()
  }

  class Engine {
    const db: Database
    const cache: RedisCache
    const queue: SnapshotQueue
    const jobs: ReplayJobsRepository
    const aggregates: AggregatesService
    const snapshots: SnapshotsService
    const events: EventsService
    const worker: SnapshotWorker
    const replays: ReplayJobProcessor

    /** An engine with no events yet, under rules declared up front. */
    constructor (rules: seq<RuleRow>)
      requires UniqueKeys(rules)
      ensures Inv() && IsFresh() && IsCovered() && db.versions == [rules]
      ensures fresh(db) && fresh(cache) && fresh(queue) && fresh(jobs)
    {
      var database := new Database(rules);
      var redis := new RedisCache();
      var snapshotQueue := new SnapshotQueue();
      var replayJobs := new ReplayJobsRepository();
      var aggregatesService := new AggregatesService(database, redis);
      var snapshotsService := new SnapshotsService(database, aggregatesService, redis);
      var processor := new SnapshotCreationProcessor(snapshotsService);
      db, cache, queue, jobs := database, redis, snapshotQueue, replayJobs;
      aggregates, snapshots := aggregatesService, snapshotsService;
      events := new EventsService(database, snapshotsService, redis, snapshotQueue);
      worker := new SnapshotWorker(processor, snapshotQueue);
      replays := new ReplayJobProcessor(replayJobs, snapshotsService);
    }

    ghost predicate Wired() {
      && aggregates.db == db && aggregates.cache == cache
      && snapshots.db == db && snapshots.aggregates == aggregates && snapshots.cache == cache
      && events.db == db && events.snapshots == snapshots && events.cache == cache && events.queue == queue
      && worker.processor.snapshots == snapshots && worker.db == db && worker.cache == cache && worker.queue == queue
      && replays.snapshots == snapshots && replays.db == db && replays.cache == cache && replays.repository == jobs
    }

    ghost predicate Inv()
      reads db, cache
    {
      Wired() && aggregates.Inv()
    }

    ghost predicate IsFresh()
      reads db, cache
    {
      Fresh(db.Now(), db.snapshots, cache.entries)
    }

    ghost predicate IsCovered()
      reads db, queue
    {
      Covered(db.Now(), db.snapshots, queue.jobs)
    }

    ghost function Kept(): Stores
      reads db, cache, queue, jobs
    {
      Stores(db.snapshots, cache.entries, queue.jobs, jobs.jobs)
    }

    method HandleAppend(projectId: string, input: AppendInput, newId: string, del: bool, queueUp: bool)
        returns (response: Response)
      requires Inv()
      modifies db`aggregates, db`events, cache, queue
      ensures Inv()
      ensures Kept() == old(StoresAfter(AppendEvent(projectId, input, newId, del, queueUp), db.Now(), Kept()))
      ensures response == old(ResponseTo(AppendEvent(projectId, input, newId, del, queueUp), db.Now(), Kept()))
      ensures PlainStep(AppendEvent(projectId, input, newId, del, queueUp), old(db.Now()), response, db.Now())
      ensures forall key :: key in cache.entries ==>
                key in old(cache.entries) && cache.entries[key] == old(cache.entries)[key]
      ensures old(IsFresh()) && del ==> IsFresh()
      ensures old(IsCovered()) && queueUp ==> IsCovered()
    {
      // A generated id that is taken fails the insert, and with it the append.
      if FindByKey(db.aggregates, projectId, input.aggregateType, input.aggregateKey).None?
         && exists i :: 0 <= i < |db.aggregates| && db.aggregates[i].id == newId {
        return Rejected;
      }
      var aggregate, event := events.Append(projectId, input, newId, del, queueUp);
      return Stored(aggregate, event);
    }

    method HandleQuery(projectId: string, id: string, asOf: Option<string>, answers: Answers, fault: Fault)
        returns (response: Response)
      requires Inv() && ValidAsOf(asOf)
      modifies cache
      ensures Inv()
      ensures Kept() == old(StoresAfter(QueryState(projectId, id, asOf, answers, fault), db.Now(), Kept()))
      ensures response == old(ResponseTo(QueryState(projectId, id, asOf, answers, fault), db.Now(), Kept()))
      ensures PlainStep(QueryState(projectId, id, asOf, answers, fault), db.Now(), response, db.Now())
      ensures Hits(old(cache.entries), StateKey(id, asOf), answers.getState) ==> response.r.Success?
      ensures AnswersFromEntry(QueryState(projectId, id, asOf, answers, fault), db.Now(), old(cache.entries), response)
      ensures EntriesMove(QueryState(projectId, id, asOf, answers, fault), db.Now(), old(cache.entries), cache.entries)
      ensures old(IsFresh()) ==> IsFresh() && AnswersNow(QueryState(projectId, id, asOf, answers, fault), db.Now(),
                                                         response)
    {
      ghost var v, entries, request := db.Now(), cache.entries, QueryState(projectId, id, asOf, answers, fault);
      QueryOutcomeHasSeen(v, db.snapshots, entries, projectId, id, asOf, answers, fault);
      QueryFillsOnlyItsEntry(v, db.snapshots, entries, projectId, id, asOf, answers, fault);
      var r := aggregates.GetState(projectId, id, asOf, answers, fault);
      QueryIsPlain(v, projectId, id, asOf, answers, fault, r);
      QueriedEntriesMove(request, v, db.snapshots, entries, cache.entries);
      SeenAnswerIsPlain(v, entries, projectId, id, asOf, answers, fault, r);
      assert db.Now() == v;
      return Answered(r);
    }

    method HandleDeclaration(declared: RuleRow)
      requires Inv() && IsValid(declared)
      modifies db`rules, db`versions
      ensures Inv() && db.Now() == Declared(old(db.Now()), declared)
      ensures old(IsFresh()) ==> IsFresh()
      ensures old(IsCovered()) ==> IsCovered()
    {
      RuleChangeKeepsInvariants(db.Now(), db.snapshots, cache.entries, declared);
      ghost var v := db.Now();
      db.UpsertRule(declared);
      assert db.Now() == Declared(v, declared);
    }

    method HandleJob(answers: Answers, fault: Fault) returns (response: Response)
      requires Inv()
      modifies db`snapshots, cache, queue
      ensures Inv() && db.Now() == old(db.Now())
      ensures Kept() == old(StoresAfter(RunNextJob(answers, fault), db.Now(), Kept()))
      ensures response == old(ResponseTo(RunNextJob(answers, fault), db.Now(), Kept()))
      ensures EntriesMove(RunNextJob(answers, fault), db.Now(), old(cache.entries), cache.entries)
      ensures old(IsFresh()) && answers.del ==> IsFresh()
      ensures old(IsFresh()) && old(IsCovered()) && fault.NoFault? ==> IsCovered()
    {
      ghost var v, entries := db.Now(), cache.entries;
      if queue.jobs == [] {
        FewerEntriesMove(RunNextJob(answers, fault), v, entries, cache.entries);
        return Done;
      }
      var thrown := worker.ProcessNext(answers, fault);
      assert db.Now() == v;
      LatestEntriesMove(RunNextJob(answers, fault), v, db.snapshots, entries, cache.entries);
      return Thrown(thrown);
    }

    method HandleReplay(jobId: string, answers: string -> Answers, faults: ReplayFaults) returns (response: Response)
      requires Inv()
      modifies db`snapshots, cache, jobs
      ensures Inv() && db.Now() == old(db.Now())
      ensures Kept() == old(StoresAfter(RunReplay(jobId, answers, faults), db.Now(), Kept()))
      ensures response == old(ResponseTo(RunReplay(jobId, answers, faults), db.Now(), Kept()))
      ensures EntriesMove(RunReplay(jobId, answers, faults), db.Now(), old(cache.entries), cache.entries)
      ensures old(IsFresh()) && AllDelete(answers) ==> IsFresh()
      ensures old(IsCovered()) ==> IsCovered()
    {
      ghost var v, rows, entries := db.Now(), db.snapshots, cache.entries;
      if jobId in jobs.jobs { RunKeepsFresh(v, rows, entries, jobs.jobs[jobId], answers, faults); }
      var thrown := replays.Process(jobId, answers, faults);
      assert db.Now() == v && rows <= db.snapshots && FillsOnlyLatest(v, entries, cache.entries);
      LatestEntriesMove(RunReplay(jobId, answers, faults), v, db.snapshots, entries, cache.entries);
      if Covered(v, rows, queue.jobs) { InsertKeepsCovered(v, rows, db.snapshots, queue.jobs); }
      return Thrown(thrown);
    }

    method HandleExpiry(keys: set<string>)
      requires Inv()
      modifies cache
      ensures Inv() && (old(IsFresh()) ==> IsFresh())
      ensures cache.entries == old(cache.entries) - keys
    {
      if IsFresh() { ExpiryKeepsFresh(db.Now(), db.snapshots, cache.entries, keys); }
      CacheShrinks(db.Now(), cache.entries, keys);
      cache.Expire(keys);
    }

    /** One call is a step of the plain engine and keeps everything derived good. A latest answer
        is up to date and the latest entries stay fresh while deletes are answered; every
        aggregate that is due has a job waiting while in addition jobs and the queue work. */
    method Handle(request: Request) returns (response: Response)
      requires Inv() && request.Allowed()
      modifies db, cache, queue, jobs
      ensures Inv()
      ensures Kept() == old(StoresAfter(request, db.Now(), Kept()))
      ensures response == old(ResponseTo(request, db.Now(), Kept()))
      ensures PlainStep(request, old(db.Now()), response, db.Now())
      ensures request.QueryState? && Hits(old(cache.entries), StateKey(request.id, request.asOf),
                                          request.answers.getState) ==>
        response.r.Success?
      ensures AnswersFromEntry(request, old(db.Now()), old(cache.entries), response)
      ensures EntriesMove(request, old(db.Now()), old(cache.entries), cache.entries)
      ensures old(IsFresh()) ==> AnswersNow(request, old(db.Now()), response)
      ensures old(IsFresh()) && request.Invalidates() ==> IsFresh()
      ensures old(IsFresh()) && old(IsCovered()) && request.KeepsUp() ==> IsCovered()
    {
      response := Done;
      ghost var v, entries := db.Now(), cache.entries;
      match request {
        case AppendEvent(projectId, input, newId, del, queueUp) =>
          response := HandleAppend(projectId, input, newId, del, queueUp);
          FewerEntriesMove(request, v, entries, cache.entries);
        case QueryState(projectId, id, asOf, answers, fault) =>
          response := HandleQuery(projectId, id, asOf, answers, fault);
        case DeclareRule(declared) =>
          HandleDeclaration(declared);
          FewerEntriesMove(request, v, entries, cache.entries);
        case RunNextJob(answers, fault) =>
          response := HandleJob(answers, fault);
        case CreateReplay(jobId, projectId, aggregateType) =>
          if jobId !in jobs.jobs { jobs.Create(jobId, projectId, aggregateType); }
          FewerEntriesMove(request, v, entries, cache.entries);
        case RunReplay(jobId, answers, faults) =>
          response := HandleReplay(jobId, answers, faults);
        case ExpireKeys(keys) =>
          HandleExpiry(keys);
          FewerEntriesMove(request, v, entries, cache.entries);
      }
    }

    /** Refinement: any sequence of calls that do not overlap is a run of the plain engine, from
        the tables before it through `views` to the tables after it, whatever fails in it. Up to
        the first delete that is not answered every latest answer is that of the moment. Every
        answer, latest or historical, is that of the moment of some request up to it with the
        same question. While an aggregate's rules have held these are plain folds of its log. */
    method Serve(requests: seq<Request>) returns (responses: seq<Response>, ghost views: seq<View>)
      requires Inv() && forall i :: 0 <= i < |requests| ==> requests[i].Allowed()
      modifies db, cache, queue, jobs
      ensures Inv()
      ensures |responses| == |requests| && PlainRun(old(db.Now()), requests, responses, views, db.Now())
      ensures AnswersHaveSources(old(cache.entries), requests, responses, views)
      ensures old(IsFresh()) ==> AnswersNowWhileInvalidated(requests, responses, views)
      ensures old(IsFresh()) && AllInvalidate(requests) ==> IsFresh()
      ensures old(IsFresh()) && old(IsCovered()) && AllInvalidate(requests) && AllKeepUp(requests) ==> IsCovered()
    {
      responses, views := [], [db.Now()];
      for n := 0 to |requests|
        invariant Inv()
        invariant |responses| == n && PlainRun(old(db.Now()), requests, responses, views, db.Now())
        invariant AnswersHaveSources(old(cache.entries), requests, responses, views)
        invariant EntriesHaveSources(old(cache.entries), requests, views, n, cache.entries)
        invariant old(IsFresh()) ==> AnswersNowWhileInvalidated(requests, responses, views)
        invariant old(IsFresh()) && AllInvalidate(requests[..n]) ==> IsFresh()
        invariant old(IsFresh()) && old(IsCovered()) && AllInvalidate(requests[..n]) && AllKeepUp(requests[..n]) ==>
                IsCovered()
      {
        PrefixesGrow(requests, n);
        ghost var v, entries := db.Now(), cache.entries;
        var response := Handle(requests[n]);
        SourcesGrow(old(cache.entries), requests, responses, views, entries, response, cache.entries, db.Now());
        PlainRunGrows(old(db.Now()), requests, responses, views, v, response, db.Now());
        responses, views := responses + [response], views + [db.Now()];
      }
      assert requests[..|requests|] == requests;
    }
  }

  /** The responses given so far are those of the plain engine, one step after another, from
      `first` through `views` to `last`. */
  ghost predicate PlainRun(first: View, requests: seq<Request>, responses: seq<Response>, views: seq<View>,
                           last: View) {
    && |responses| <= |requests| && |views| == |responses| + 1
    && views[0] == first && views[|responses|] == last
    && forall i :: 0 <= i < |responses| ==> PlainStep(requests[i], views[i], responses[i], views[i + 1])
  }

  /** Every latest query with only answered deletes before it answers for the tables it met. */
  ghost predicate AnswersNowWhileInvalidated(requests: seq<Request>, responses: seq<Response>, views: seq<View>)
    requires |responses| <= |requests| && |responses| <= |views|
  {
    forall i :: 0 <= i < |responses| && AllInvalidate(requests[..i]) ==> AnswersNow(requests[i], views[i], responses[i])
  }

  /** The answer was right for the whole log of these tables. */
  ghost predicate WholeAnswer(v: View, id: string, asOf: Option<string>, r: StateResult)
    requires ValidAsOf(asOf)
  {
    AnswersAsOf(v, id, asOf, r, |Log(v.events, id)|)
  }

  /** An answer that was there at the start, or was right for the whole log of the tables some
      request before n met that asked the same question. */
  ghost predicate HasSource(start: map<string, CacheValue>, requests: seq<Request>, views: seq<View>, n: nat,
                            id: string, asOf: Option<string>, r: StateResult)
    requires ValidAsOf(asOf) && n <= |requests| && n <= |views|
  {
    || (StateKey(id, asOf) in start && start[StateKey(id, asOf)].StateValue? && start[StateKey(id, asOf)].result == r)
    || exists j :: 0 <= j < n && Asks(requests[j], id, asOf) && WholeAnswer(views[j], id, asOf, r)
  }

  ghost predicate EntriesHaveSources(start: map<string, CacheValue>, requests: seq<Request>, views: seq<View>, n: nat,
                                     cache: map<string, CacheValue>)
    requires n <= |requests| && n <= |views|
  {
    forall id, asOf | ValidAsOf(asOf) && StateKey(id, asOf) in cache && cache[StateKey(id, asOf)].StateValue? ::
      HasSource(start, requests, views, n, id, asOf, cache[StateKey(id, asOf)].result)
  }

  ghost predicate AnswerHasSource(start: map<string, CacheValue>, requests: seq<Request>, responses: seq<Response>,
                                  views: seq<View>, i: nat)
    requires i < |responses| <= |requests| && |responses| <= |views|
  {
    requests[i].QueryState? && ValidAsOf(requests[i].asOf) && responses[i].Answered? && responses[i].r.Success? ==>
      HasSource(start, requests, views, i + 1, requests[i].id, requests[i].asOf, responses[i].r.value)
  }

  /** Every successful query, latest or historical, is answered as of some request up to it that
      asked the same question, or by an entry there from the start. */
  ghost predicate AnswersHaveSources(start: map<string, CacheValue>, requests: seq<Request>, responses: seq<Response>,
                                     views: seq<View>)
    requires |responses| <= |requests| && |responses| <= |views|
  {
    forall i :: 0 <= i < |responses| ==> AnswerHasSource(start, requests, responses, views, i)
  }

  lemma SourceStays(start: map<string, CacheValue>, requests: seq<Request>, views: seq<View>, n: nat,
                    more: seq<View>, m: nat, id: string, asOf: Option<string>, r: StateResult)
    requires ValidAsOf(asOf) && n <= m <= |requests| && views <= more && n <= |views| && m <= |more|
    requires HasSource(start, requests, views, n, id, asOf, r)
    ensures HasSource(start, requests, more, m, id, asOf, r)
  {
    if j :| 0 <= j < n && Asks(requests[j], id, asOf) && WholeAnswer(views[j], id, asOf, r) {
      assert more[j] == views[j];
    }
  }

  lemma NewSource(start: map<string, CacheValue>, requests: seq<Request>, views: seq<View>, n: nat,
                  id: string, asOf: Option<string>, r: StateResult)
    requires ValidAsOf(asOf) && n < |requests| && n < |views|
    requires Asks(requests[n], id, asOf) && WholeAnswer(views[n], id, asOf, r)
    ensures HasSource(start, requests, views, n + 1, id, asOf, r)
  {}

  lemma EntrySourcesGrow(start: map<string, CacheValue>, requests: seq<Request>, views: seq<View>, n: nat,
                         cache: map<string, CacheValue>, cache': map<string, CacheValue>, v': View)
    requires n < |requests| && |views| == n + 1
    requires EntriesHaveSources(start, requests, views, n, cache) && EntriesMove(requests[n], views[n], cache, cache')
    ensures EntriesHaveSources(start, requests, views + [v'], n + 1, cache')
  {
    forall id, asOf | ValidAsOf(asOf) && StateKey(id, asOf) in cache' && cache'[StateKey(id, asOf)].StateValue?
      ensures HasSource(start, requests, views + [v'], n + 1, id, asOf, cache'[StateKey(id, asOf)].result)
    {
      if EntrySame(cache, cache', id, asOf) {
        SourceStays(start, requests, views, n, views + [v'], n + 1, id, asOf, cache'[StateKey(id, asOf)].result);
      } else {
        assert FilledFrom(views[n], cache', id, asOf);
        NewSource(start, requests, views + [v'], n, id, asOf, cache'[StateKey(id, asOf)].result);
      }
    }
  }

  lemma NewAnswerHasSource(start: map<string, CacheValue>, requests: seq<Request>, responses: seq<Response>,
                           views: seq<View>, cache: map<string, CacheValue>, response: Response)
    requires |responses| < |requests| && |views| == |responses| + 1
    requires EntriesHaveSources(start, requests, views, |responses|, cache)
    requires AnswersFromEntry(requests[|responses|], views[|responses|], cache, response)
    ensures AnswerHasSource(start, requests, responses + [response], views, |responses|)
  {
    var n, request := |responses|, requests[|responses|];
    if request.QueryState? && ValidAsOf(request.asOf) && response.Answered? && response.r.Success? {
      if Hits(cache, StateKey(request.id, request.asOf), request.answers.getState) {
        SourceStays(start, requests, views, n, views, n + 1, request.id, request.asOf, response.r.value);
      } else {
        NewSource(start, requests, views, n, request.id, request.asOf, response.r.value);
      }
    }
  }

  lemma SourcesGrow(start: map<string, CacheValue>, requests: seq<Request>, responses: seq<Response>, views: seq<View>,
                    cache: map<string, CacheValue>, response: Response, cache': map<string, CacheValue>, v': View)
    requires |responses| < |requests| && |views| == |responses| + 1
    requires AnswersHaveSources(start, requests, responses, views)
    requires EntriesHaveSources(start, requests, views, |responses|, cache)
    requires AnswersFromEntry(requests[|responses|], views[|responses|], cache, response)
    requires EntriesMove(requests[|responses|], views[|responses|], cache, cache')
    ensures AnswersHaveSources(start, requests, responses + [response], views + [v'])
    ensures EntriesHaveSources(start, requests, views + [v'], |responses| + 1, cache')
  {
    EntrySourcesGrow(start, requests, views, |responses|, cache, cache', v');
    NewAnswerHasSource(start, requests, responses, views, cache, response);
    var longer, more := responses + [response], views + [v'];
    forall i | 0 <= i < |longer| ensures AnswerHasSource(start, requests, longer, more, i) {
      AnswerStays(start, requests, responses, response, views, v', i);
    }
  }

  lemma AnswerStays(start: map<string, CacheValue>, requests: seq<Request>, responses: seq<Response>,
                    response: Response, views: seq<View>, v': View, i: nat)
    requires i <= |responses| < |requests| && |views| == |responses| + 1
    requires i < |responses| ==> AnswerHasSource(start, requests, responses, views, i)
    requires i == |responses| ==> AnswerHasSource(start, requests, responses + [response], views, i)
    ensures AnswerHasSource(start, requests, responses + [response], views + [v'], i)
  {
    var longer := responses + [response];
    assert i < |responses| ==> longer[i] == responses[i];
    if requests[i].QueryState? && ValidAsOf(requests[i].asOf) && longer[i].Answered? && longer[i].r.Success? {
      SourceStays(start, requests, views, i + 1, views + [v'], i + 1, requests[i].id, requests[i].asOf,
                  longer[i].r.value);
    }
  }

  lemma StepGrowsTables(request: Request, v: View, response: Response, v': View)
    requires ViewInv(v) && PlainStep(request, v, response, v')
    ensures ViewInv(v') && Grows(v, v')
  {
    if request.AppendEvent? && CanStore(v.aggregates, request.projectId, request.input, request.newId) {
      AppendedIsOneMore(v, request.projectId, request.input, request.newId);
    }
  }

  lemma {:induction false} RunGrowsTables(first: View, requests: seq<Request>, responses: seq<Response>,
                                          views: seq<View>, last: View, i: nat, j: nat)
    requires PlainRun(first, requests, responses, views, last) && ViewInv(first) && j <= i < |views|
    ensures ViewInv(views[i]) && Grows(views[j], views[i])
    decreases i
  {
    if i > 0 {
      RunGrowsTables(first, requests, responses, views, last, i - 1, if j < i then j else i - 1);
      StepGrowsTables(requests[i - 1], views[i - 1], responses[i - 1], views[i]);
    }
  }

  /** History is permanent in a run: an answer as of N that was right for the tables some request
      met, once the log held N events there, is what a full replay gives for the tables of any
      later request, whatever has been appended since, while the aggregate's rules have held. */
  lemma HistoricalAnswersStayRight(first: View, requests: seq<Request>, responses: seq<Response>, views: seq<View>,
                                   last: View, j: nat, i: nat, agg: Aggregate, n: string, r: StateResult)
    requires PlainRun(first, requests, responses, views, last) && ViewInv(first) && j <= i < |views|
    requires IsDecimal(n) && WholeAnswer(views[j], agg.id, Some(n), r)
    requires |Log(views[j].events, agg.id)| >= ToNat(n)
    requires agg in views[i].aggregates && views[i].versions != [] && RulesHeld(views[i], agg)
    ensures RightAnswer(views[i], agg, Some(n), r)
  {
    RunGrowsTables(first, requests, responses, views, last, i, j);
    var seen := |Log(views[j].events, agg.id)|;
    ResultGrows(views[j], views[i], agg.id, Some(n), r, seen);
    AnswerIsRightIff(views[i], agg, Some(n), r, seen);
  }

  lemma PlainRunGrows(first: View, requests: seq<Request>, responses: seq<Response>, views: seq<View>, v: View,
                      response: Response, v': View)
    requires PlainRun(first, requests, responses, views, v) && |responses| < |requests|
    requires PlainStep(requests[|responses|], v, response, v')
    ensures PlainRun(first, requests, responses + [response], views + [v'], v')
    ensures AnswersNowWhileInvalidated(requests, responses, views)
            && (AllInvalidate(requests[..|responses|]) ==> AnswersNow(requests[|responses|], v, response)) ==>
              AnswersNowWhileInvalidated(requests, responses + [response], views + [v'])
  {
    var longer, more := responses + [response], views + [v'];
    forall i | 0 <= i < |longer| ensures PlainStep(requests[i], more[i], longer[i], more[i + 1]) {
      if i < |responses| { assert more[i] == views[i] && more[i + 1] == views[i + 1] && longer[i] == responses[i]; }
    }
  }

  lemma PrefixesGrow(requests: seq<Request>, n: nat)
    requires n < |requests|
    ensures AllInvalidate(requests[..n + 1]) <==> AllInvalidate(requests[..n]) && requests[n].Invalidates()
    ensures AllKeepUp(requests[..n + 1]) <==> AllKeepUp(requests[..n]) && requests[n].KeepsUp()
  {
    assert requests[..n + 1] == requests[..n] + [requests[n]];
  }
}
