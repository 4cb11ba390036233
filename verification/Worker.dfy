/** The worker's memory of event ids it has handled.

    It is bounded, now and then emptied, and lost when the process dies. The point is that it
    cannot be observed: over every interleaving of any number of processes, crashes included, the
    runs with it are exactly the runs without it, as long as no completion arrives before its
    request was staged.
  */
module Worker {
  import opened Options
  import opened Workflows
  import opened Interpreter
  import opened Protocol
  import opened Handlers

  const SEEN_MAX := 10_000

  type Cache = c: set<Id> | |c| <= SEEN_MAX

  function Remembered(seen: Cache, id: Id): (r: Cache)
    ensures id in r && r <= seen + {id}
  {
    if |seen| >= SEEN_MAX then {id} else seen + {id}
  }

  /** What an event is about. A `workflow.requested` names its workflow; the job ids of its plan
      are made up each time it is handled. */
  datatype Subject = StartOf(wid: Id) | DoneOf(jobId: Id, answer: Answer)

  datatype Message = StartMessage(wid: Id, inputs: Inputs, plan: seq<Step>) | DoneMessage(jobId: Id, answer: Answer)
  {
    function About(): Subject {
      match this
      case StartMessage(wid, _, _) => StartOf(wid)
      case DoneMessage(jobId, answer) => DoneOf(jobId, answer)
    }
  }

  /** A handler that raises leaves the tables alone and the event unremembered. */
  ghost predicate Raises(db: Db, m: Message) {
    match m
    case StartMessage(wid, _, plan) => wid !in db.workflows && !Insertable(db, wid, plan)
    case DoneMessage(jobId, _) => jobId == ""
  }

  // ---- several workers

  /** An event reaches an idle process, a process goes on with what it is doing, or a handler fails
      after its first write. A failed handler leaves the tables as a crash would, but its process
      lives on and still remembers. */
  datatype Happening = Deliver(p: Pid, id: Id, m: Message) | Proceed(a: Action) | Fail(p: Pid)

  /** The first write a handler makes, if any. */
  ghost predicate Handles(rules: Rules, s: System, p: Pid, m: Message, s': System) {
    && p in s.pcs && s.pcs[p].Idle?
    && if Raises(s.db, m) then s' == s
       else match m
         case StartMessage(wid, inputs, plan) =>
           if wid in s.db.workflows then s' == s else Next(rules, s, Create(p, wid, inputs, plan), s')
         case DoneMessage(jobId, answer) => Next(rules, s, Accept(p, jobId, answer), s')
  }

  ghost predicate Goes(rules: Rules, s: System, a: Action, s': System) {
    !a.Create? && !a.Accept? && Next(rules, s, a, s')
  }

  /** What may happen when no worker remembers anything. */
  ghost predicate PlainNext(rules: Rules, s: System, h: Happening, s': System) {
    match h
    case Deliver(p, _, m) => Handles(rules, s, p, m, s')
    case Proceed(a) => Goes(rules, s, a, s')
    case Fail(p) => Goes(rules, s, Crash(p), s')
  }

  /** The ids every process remembers, and the event a busy process is handling. */
  datatype Memory = Memory(seen: map<Pid, Cache>, handling: map<Pid, Id>)

  predicate Known(memory: Memory, p: Pid, id: Id) {
    p in memory.seen && id in memory.seen[p]
  }

  /** What may happen when an id that is remembered is passed over. */
  ghost predicate CachedNext(rules: Rules, memory: Memory, s: System, h: Happening, s': System) {
    match h
    case Deliver(p, id, m) =>
      if Known(memory, p, id) then p in s.pcs && s.pcs[p].Idle? && s' == s else Handles(rules, s, p, m, s')
    case Proceed(a) => Goes(rules, s, a, s')
    case Fail(p) => Goes(rules, s, Crash(p), s')
  }

  function Remember(memory: Memory, p: Pid, id: Id): Memory {
    var seen: Cache := if p in memory.seen then memory.seen[p] else {};
    memory.(seen := memory.seen[p := Remembered(seen, id)])
  }

  /** An event is remembered when its handler has come to its end; a crash forgets everything, a
      failed handler only its own event. */
  ghost function Remembering(memory: Memory, s: System, h: Happening, s': System): Memory {
    match h
    case Deliver(p, id, m) =>
      if Known(memory, p, id) || Raises(s.db, m) then memory
      else if p in s'.pcs && !s'.pcs[p].Idle? then memory.(handling := memory.handling[p := id])
      else Remember(memory, p, id)
    case Proceed(a) =>
      if a.Crash? then Memory(memory.seen - {a.p}, memory.handling - {a.p})
      else if a.Commit? && a.p in memory.handling then
        Remember(memory, a.p, memory.handling[a.p]).(handling := memory.handling - {a.p})
      else memory
    case Fail(p) => memory.(handling := memory.handling - {p})
  }

  // ---- causally valid runs

  predicate IsStep(db: Db, wid: Id, i: int, jobId: Id) {
    wid in db.workflows && 0 <= i < |db.workflows[wid].steps| && db.workflows[wid].steps[i].jobId == jobId
  }

  /** A completion comes after its request was staged, and no plan uses a job id somebody has
      already reported on. */
  ghost predicate Timely(db: Db, heard: set<Id>, m: Message) {
    match m
    case StartMessage(_, _, plan) => forall i :: 0 <= i < |plan| ==> plan[i].jobId !in heard
    case DoneMessage(jobId, _) =>
      forall wid, i :: IsStep(db, wid, i, jobId) ==> !db.workflows[wid].steps[i].status.Pending?
  }

  function Hear(heard: set<Id>, h: Happening): set<Id> {
    if h.Deliver? && h.m.DoneMessage? then heard + {h.m.jobId} else heard
  }

  /** The jobs reported on before the happening at `i`. */
  function Heard(log: seq<Happening>, i: nat): set<Id>
    requires i <= |log|
  {
    if i == 0 then {} else Hear(Heard(log, i - 1), log[i - 1])
  }

  /** Timely, and an envelope id is always about the same thing. */
  ghost predicate Causal(about: Id -> Subject, db: Db, heard: set<Id>, h: Happening) {
    h.Deliver? ==> Timely(db, heard, h.m) && about(h.id) == h.m.About()
  }

  ghost predicate CausalRun(about: Id -> Subject, run: seq<System>, log: seq<Happening>) {
    && |run| == |log| + 1 && Init(run[0])
    && forall i :: 0 <= i < |log| ==> Causal(about, run[i].db, Heard(log, i), log[i])
  }

  ghost predicate PlainRun(rules: Rules, about: Id -> Subject, run: seq<System>, log: seq<Happening>) {
    CausalRun(about, run, log) && forall i :: 0 <= i < |log| ==> PlainNext(rules, run[i], log[i], run[i + 1])
  }

  /** What the processes remember before the happening at `i`. */
  ghost function MemoryAt(run: seq<System>, log: seq<Happening>, i: nat): Memory
    requires |run| == |log| + 1 && i <= |log|
  {
    if i == 0 then Memory(map[], map[])
    else Remembering(MemoryAt(run, log, i - 1), run[i - 1], log[i - 1], run[i])
  }

  ghost predicate CachedRun(rules: Rules, about: Id -> Subject, run: seq<System>, log: seq<Happening>) {
    && CausalRun(about, run, log)
    && forall i :: 0 <= i < |log| ==> CachedNext(rules, MemoryAt(run, log, i), run[i], log[i], run[i + 1])
  }

  // ---- an event that has had its effect has no further one

  /** The event has had its effect, for good. */
  ghost predicate Spent(db: Db, heard: set<Id>, subject: Subject) {
    match subject
    case StartOf(wid) => wid in db.workflows
    case DoneOf(jobId, _) => jobId != "" && jobId in heard && NothingOpen(db, jobId)
  }

  ghost predicate NothingOpen(db: Db, jobId: Id) {
    forall wid, i :: IsStep(db, wid, i, jobId) ==> db.workflows[wid].steps[i].Settled()
  }

  /** For a completion that is spent, accepting it and doing nothing are the same. */
  lemma SpentIsIdle(rules: Rules, s: System, p: Pid, heard: set<Id>, m: Message, s': System)
    requires p in s.pcs && s.pcs[p].Idle? && Spent(s.db, heard, m.About())
    ensures Handles(rules, s, p, m, s') <==> s' == s
  {
    if m.DoneMessage? {
      forall wid, i: nat ensures !Matches(s.db, wid, i, m.jobId) {
        assert IsStep(s.db, wid, i, m.jobId) ==> s.db.workflows[wid].steps[i].Settled();
      }
    }
  }

  predicate SettledKept(a: seq<Step>, b: seq<Step>) {
    |a| == |b| && forall i :: 0 <= i < |a| ==> b[i].jobId == a[i].jobId && (a[i].Settled() ==> b[i] == a[i])
  }

  /** Workflows stay, jobs stay with their steps, and settled steps stay as they are. */
  ghost predicate Grows(db: Db, db': Db) {
    forall wid :: wid in db.workflows ==>
      wid in db'.workflows && SettledKept(db.workflows[wid].steps, db'.workflows[wid].steps)
  }

  /** The jobs of workflows that were not there before are all among these. */
  ghost predicate AddsOnly(db: Db, db': Db, newJobs: set<Id>) {
    forall wid :: wid in db'.workflows && wid !in db.workflows ==>
      forall i :: 0 <= i < |db'.workflows[wid].steps| ==> db'.workflows[wid].steps[i].jobId in newJobs
  }

  function NewJobs(a: Action): set<Id> {
    if a.Create? then set step <- a.plan :: step.jobId else {}
  }

  lemma AdvanceSettledKept(rules: Rules, wid: Id, w: Workflow)
    ensures SettledKept(w.steps, Advance(rules, wid, w, w).workflow.steps)
  {
    var i := NextPending(w.steps);
    if i < |w.steps| && rules.dispatch(w.inputs, w.steps, i).NoWork? {
      var s := MarkSkipped(w, i, rules.dispatch(w.inputs, w.steps, i).reason);
      assert SettledKept(w.steps, s.steps);
      PastSkipSettledKept(rules, wid, s);
    }
  }

  lemma PastSkipSettledKept(rules: Rules, wid: Id, w: Workflow)
    ensures SettledKept(w.steps, AdvancePastSkip(rules, wid, w).workflow.steps)
  {
  }

  lemma NextGrows(rules: Rules, s: System, a: Action, s': System)
    requires Next(rules, s, a, s') && PcFits(s, a.p)
    ensures Grows(s.db, s'.db) && AddsOnly(s.db, s'.db, NewJobs(a))
  {
    match a
    case Create(p, wid, inputs, plan) =>
      forall i | 0 <= i < |plan| ensures plan[i].jobId in NewJobs(a) {
        assert plan[i] in plan;
      }
    case SetRunning(p) =>
    case Accept(p, jobId, answer) =>
      if s' != s {
        var wid, i :| Matches(s.db, wid, i, jobId) && wid in s.answers && s' == Accepted(s, p, wid, i, answer);
        assert SettledKept(s.db.workflows[wid].steps, s'.db.workflows[wid].steps);
      }
    case Lock(p) =>
    case Commit(p) => AdvanceSettledKept(rules, s.pcs[p].wid, s.pcs[p].read);
    case Crash(p) =>
  }

  /** What is spent stays spent, whatever any process does next, crashing included. */
  lemma SpentForGood(rules: Rules, s: System, a: Action, s': System, heard: set<Id>, subject: Subject)
    requires Next(rules, s, a, s') && PcFits(s, a.p) && Spent(s.db, heard, subject)
    requires NewJobs(a) !! heard
    ensures Spent(s'.db, heard, subject)
  {
    NextGrows(rules, s, a, s');
    if subject.DoneOf? {
      forall wid, i | IsStep(s'.db, wid, i, subject.jobId) ensures s'.db.workflows[wid].steps[i].Settled() {
        if wid in s.db.workflows {
          assert SettledKept(s.db.workflows[wid].steps, s'.db.workflows[wid].steps);
          assert IsStep(s.db, wid, i, subject.jobId);
        }
      }
    }
  }

  lemma SpentHearing(db: Db, heard: set<Id>, more: set<Id>, subject: Subject)
    requires Spent(db, heard, subject) && heard <= more
    ensures Spent(db, more, subject)
  {
  }

  ghost predicate JobsFine(db: Db) {
    JobsApart(db) && forall wid :: wid in db.workflows ==> DistinctJobs(db.workflows[wid].steps)
  }

  /** The first write of its handler spends an event: from then on nobody can make use of it. */
  lemma HandledIsSpent(rules: Rules, s: System, p: Pid, heard: set<Id>, m: Message, s': System)
    requires Handles(rules, s, p, m, s') && Timely(s.db, heard, m) && !Raises(s.db, m) && JobsFine(s.db)
    ensures Spent(s'.db, if m.DoneMessage? then heard + {m.jobId} else heard, m.About())
  {
    if m.DoneMessage? {
      forall v, i | IsStep(s'.db, v, i, m.jobId) ensures s'.db.workflows[v].steps[i].Settled() {
        if s' == s {
          assert !Matches(s.db, v, i, m.jobId);
        } else {
          AcceptedIsSettled(s, p, m.jobId, m.answer, s', v, i);
        }
      }
    }
  }

  lemma AcceptedIsSettled(s: System, p: Pid, jobId: Id, a: Answer, s': System, v: Id, i: nat)
    requires JobsFine(s.db) && p in s.pcs && Protocol.Accepts(s, p, jobId, a, s') && s' != s
    requires IsStep(s'.db, v, i, jobId)
    ensures s'.db.workflows[v].steps[i].Settled()
  {
    var wid, k :| Matches(s.db, wid, k, jobId) && wid in s.answers && s' == Accepted(s, p, wid, k, a);
    assert v != wid ==> DisjointJobs(s.db.workflows[v].steps, s.db.workflows[wid].steps);
    assert v == wid && i == k;
  }

  // ---- the invariant of the memory

  ghost predicate AllSpent(about: Id -> Subject, memory: Memory, db: Db, heard: set<Id>) {
    && (forall p, id :: Known(memory, p, id) ==> Spent(db, heard, about(id)))
    && (forall p :: p in memory.handling ==> Spent(db, heard, about(memory.handling[p])))
  }

  /** Remembered or being handled means spent. */
  ghost predicate MemoryFits(rules: Rules, about: Id -> Subject, memory: Memory, s: System, heard: set<Id>) {
    Inv(RowInvOf(rules), s) && AllSpent(about, memory, s.db, heard)
  }

  lemma JobsAreFine(rules: Rules, s: System)
    requires Inv(RowInvOf(rules), s)
    ensures JobsFine(s.db)
  {
    forall wid | wid in s.db.workflows ensures DistinctJobs(s.db.workflows[wid].steps) {
      assert RowInvOf(rules)(wid, s.db.workflows[wid], s.answers[wid], Staged(s.db.outbox, wid));
    }
  }

  /** With every remembered event spent, passing over it is what handling it would come to. */
  lemma SameStep(rules: Rules, about: Id -> Subject, memory: Memory, s: System, heard: set<Id>, h: Happening,
                 s': System)
    requires MemoryFits(rules, about, memory, s, heard) && Causal(about, s.db, heard, h)
    ensures CachedNext(rules, memory, s, h, s') <==> PlainNext(rules, s, h, s')
  {
    if h.Deliver? && Known(memory, h.p, h.id) && h.p in s.pcs && s.pcs[h.p].Idle? {
      SpentIsIdle(rules, s, h.p, heard, h.m, s');
    }
  }

  /** What every happening comes to: an action of the protocol, or nothing. */
  lemma PlainMeans(rules: Rules, s: System, h: Happening, s': System) returns (a: Option<Action>)
    requires PlainNext(rules, s, h, s')
    ensures a.None? ==> s' == s
    ensures a.Some? ==> Next(rules, s, a.value, s')
    ensures a.Some? && a.value.Create? ==> h.Deliver? && h.m.StartMessage? && h.m.plan == a.value.plan
  {
    match h
    case Proceed(b) => a := Some(b);
    case Fail(p) => a := Some(Crash(p));
    case Deliver(p, _, m) =>
      if s' == s {
        a := None;
      } else {
        match m
        case StartMessage(wid, inputs, plan) => a := Some(Create(p, wid, inputs, plan));
        case DoneMessage(jobId, answer) => a := Some(Accept(p, jobId, answer));
      }
  }

  lemma SpentStays(rules: Rules, about: Id -> Subject, s: System, heard: set<Id>, h: Happening, s': System,
                   subject: Subject)
    requires (forall p :: p in s.pcs ==> PcFits(s, p)) && PlainNext(rules, s, h, s') && Causal(about, s.db, heard, h)
    requires Spent(s.db, heard, subject)
    ensures Spent(s'.db, Hear(heard, h), subject)
  {
    var a := PlainMeans(rules, s, h, s');
    if a.Some? {
      assert PcFits(s, a.value.p);
      SpentForGood(rules, s, a.value, s', heard, subject);
    }
    SpentHearing(s'.db, heard, Hear(heard, h), subject);
  }

  lemma MemoryKept(rules: Rules, about: Id -> Subject, memory: Memory, s: System, heard: set<Id>, h: Happening,
                   s': System)
    requires MemoryFits(rules, about, memory, s, heard) && PlainNext(rules, s, h, s') && Causal(about, s.db, heard, h)
    ensures MemoryFits(rules, about, Remembering(memory, s, h, s'), s', Hear(heard, h))
  {
    var a := PlainMeans(rules, s, h, s');
    if a.Some? {
      NextKeeps(rules, s, a.value, s');
    }
    var memory' := Remembering(memory, s, h, s');
    forall subject | Spent(s.db, heard, subject) ensures Spent(s'.db, Hear(heard, h), subject) {
      SpentStays(rules, about, s, heard, h, s', subject);
    }
    if h.Deliver? && !Raises(s.db, h.m) {
      JobsAreFine(rules, s);
      HandledIsSpent(rules, s, h.p, heard, h.m, s');
    }
    RemembersSpent(about, memory, s, h, s', Hear(heard, h));
  }

  lemma RemembersSpent(about: Id -> Subject, memory: Memory, s: System, h: Happening, s': System, heard: set<Id>)
    requires AllSpent(about, memory, s'.db, heard)
    requires h.Deliver? && !Raises(s.db, h.m) ==> Spent(s'.db, heard, about(h.id))
    ensures AllSpent(about, Remembering(memory, s, h, s'), s'.db, heard)
  {
    var memory' := Remembering(memory, s, h, s');
    forall p, id | Known(memory', p, id) ensures Spent(s'.db, heard, about(id)) {
      NewlyKnown(memory, s, h, s', p, id);
    }
    forall p | p in memory'.handling ensures Spent(s'.db, heard, about(memory'.handling[p])) {
      NewlyHandled(memory, s, h, s', p);
    }
  }

  lemma NewlyKnown(memory: Memory, s: System, h: Happening, s': System, p: Pid, id: Id)
    requires Known(Remembering(memory, s, h, s'), p, id)
    ensures || Known(memory, p, id)
            || (h.Deliver? && !Raises(s.db, h.m) && id == h.id)
            || (h.Proceed? && h.a.p in memory.handling && id == memory.handling[h.a.p])
  {
  }

  lemma NewlyHandled(memory: Memory, s: System, h: Happening, s': System, p: Pid)
    requires p in Remembering(memory, s, h, s').handling
    ensures || (p in memory.handling && Remembering(memory, s, h, s').handling[p] == memory.handling[p])
            || (h.Deliver? && !Raises(s.db, h.m) && Remembering(memory, s, h, s').handling[p] == h.id)
  {
  }

  lemma FitsAtFirst(rules: Rules, about: Id -> Subject, s: System)
    requires Init(s)
    ensures MemoryFits(rules, about, Memory(map[], map[]), s, {})
  {
    InitFits(rules, s);
  }

  /** The memory fits after a happening if it did before; with the cache or without makes no
      difference to what may happen. */
  lemma FitsNext(rules: Rules, about: Id -> Subject, run: seq<System>, log: seq<Happening>, i: nat)
    requires CausalRun(about, run, log) && i < |log|
    ensures MemoryFits(rules, about, MemoryAt(run, log, i), run[i], Heard(log, i)) ==>
              (PlainNext(rules, run[i], log[i], run[i + 1]) <==>
                 CachedNext(rules, MemoryAt(run, log, i), run[i], log[i], run[i + 1]))
    ensures PlainNext(rules, run[i], log[i], run[i + 1]) ==>
            MemoryFits(rules, about, MemoryAt(run, log, i), run[i], Heard(log, i)) ==>
              MemoryFits(rules, about, MemoryAt(run, log, i + 1), run[i + 1], Heard(log, i + 1))
  {
    var memory, heard := MemoryAt(run, log, i), Heard(log, i);
    if !MemoryFits(rules, about, memory, run[i], heard) {
      return;
    }
    assert Causal(about, run[i].db, heard, log[i]);
    SameStep(rules, about, memory, run[i], heard, log[i], run[i + 1]);
    if PlainNext(rules, run[i], log[i], run[i + 1]) {
      MemoryKept(rules, about, memory, run[i], heard, log[i], run[i + 1]);
    }
  }

  lemma {:induction false} Fits(rules: Rules, about: Id -> Subject, run: seq<System>, log: seq<Happening>, i: nat)
    requires CausalRun(about, run, log) && i <= |log|
    requires PlainRun(rules, about, run, log) || CachedRun(rules, about, run, log)
    ensures MemoryFits(rules, about, MemoryAt(run, log, i), run[i], Heard(log, i))
  {
    if i == 0 {
      FitsAtFirst(rules, about, run[0]);
    } else {
      Fits(rules, about, run, log, i - 1);
      FitsOn(rules, about, run, log, i - 1);
    }
  }

  lemma FitsOn(rules: Rules, about: Id -> Subject, run: seq<System>, log: seq<Happening>, i: nat)
    requires CausalRun(about, run, log) && i < |log|
    requires MemoryFits(rules, about, MemoryAt(run, log, i), run[i], Heard(log, i))
    requires PlainRun(rules, about, run, log) || CachedRun(rules, about, run, log)
    ensures MemoryFits(rules, about, MemoryAt(run, log, i + 1), run[i + 1], Heard(log, i + 1))
  {
    FitsNext(rules, about, run, log, i);
    if CachedRun(rules, about, run, log) {
      assert CachedNext(rules, MemoryAt(run, log, i), run[i], log[i], run[i + 1]);
    }
    assert PlainNext(rules, run[i], log[i], run[i + 1]);
  }

  /** The cache cannot be observed: among the causally valid histories of any number of processes,
      with any interleaving, any crashes and any failing handlers, exactly the same ones are possible
      with it and without it. */
  lemma CacheInvisible(rules: Rules, about: Id -> Subject, run: seq<System>, log: seq<Happening>)
    ensures CachedRun(rules, about, run, log) <==> PlainRun(rules, about, run, log)
  {
    if CachedRun(rules, about, run, log) || PlainRun(rules, about, run, log) {
      forall i | 0 <= i < |log|
        ensures PlainNext(rules, run[i], log[i], run[i + 1]) <==>
                  CachedNext(rules, MemoryAt(run, log, i), run[i], log[i], run[i + 1])
      {
        Fits(rules, about, run, log, i);
        FitsNext(rules, about, run, log, i);
      }
    }
  }

  // ---- one worker, uninterrupted

  ghost predicate HasMatch(db: Db, jobId: Id) {
    exists wid, i :: Matches(db, wid, i, jobId)
  }

  ghost function Matched(db: Db, jobId: Id): (r: (Id, nat))
    requires HasMatch(db, jobId)
    ensures Matches(db, r.0, r.1, jobId)
  {
    var wid, i :| Matches(db, wid, i, jobId);
    (wid, i)
  }

  /** What handling a message to its end does to the tables. */
  ghost function Handle(rules: Rules, db: Db, m: Message): Db {
    if Raises(db, m) then db
    else match m
      case StartMessage(wid, inputs, plan) =>
        if wid in db.workflows then db else StartDb(rules, db, wid, inputs, plan)
      case DoneMessage(jobId, answer) =>
        if !HasMatch(db, jobId) then db
        else
          var (wid, i) := Matched(db, jobId);
          AdvanceDb(rules, MarkStepDb(db, wid, i, answer), wid)
  }

  /** The worker process: the store it writes and the ids it remembers. */
  class EventWorker {
    const store: WorkflowStore
    var seen: Cache

    constructor (store: WorkflowStore)
      ensures this.store == store && seen == {}
    {
      this.store, seen := store, {};
    }

    method Remember(id: Id)
      modifies this
      ensures seen == Remembered(old(seen), id)
    {
      if |seen| >= SEEN_MAX {
        seen := {};
      }
      seen := seen + {id};
    }

    /** One delivery, handled to its end; `ok` is false when the handler raises. */
    method Deliver(rules: Rules, id: Id, m: Message) returns (ok: bool)
      requires m.StartMessage? ==> Plan(m.plan) == m.plan
      requires JobsFine(store.Contents())
      modifies this, store
      ensures store.Contents() == if id in old(seen) then old(store.Contents())
                                  else Handle(rules, old(store.Contents()), m)
      ensures ok <==> id in old(seen) || !Raises(old(store.Contents()), m)
      ensures seen == if id in old(seen) || !ok then old(seen) else Remembered(old(seen), id)
    {
      ghost var before := store.Contents();
      if id in seen {
        return true;
      }
      match m {
        case StartMessage(wid, inputs, plan) =>
          if wid in store.workflows {
            ok := true;
          } else {
            ok := store.Start(rules, wid, inputs, plan);
          }
        case DoneMessage(jobId, answer) =>
          if jobId == "" {
            return false;
          }
          var wid := store.OnCompletion(rules, jobId, answer);
          ok := true;
          OneMatch(before, jobId);
          assert wid.Some? <==> HasMatch(before, jobId);
      }
      if ok {
        Remember(id);
      }
    }
  }

  lemma OneMatch(db: Db, jobId: Id)
    requires JobsFine(db)
    ensures forall v, i, w, j :: Matches(db, v, i, jobId) && Matches(db, w, j, jobId) ==> v == w && i == j
  {
    forall v, i, w, j | Matches(db, v, i, jobId) && Matches(db, w, j, jobId) ensures v == w && i == j {
      assert v != w ==> DisjointJobs(db.workflows[v].steps, db.workflows[w].steps);
    }
  }
}
