/** Several schedulers at work on the same table.

    A scheduler claims a batch of due rows, which locks them, and commits what the batch does to
    the schedules and the outbox, or dies and leaves no trace but the released locks. Clocks need
    not agree. Whoever creates, pauses or deletes a schedule waits for its row to be free.
  */
module Schedulers {
  import opened Options
  import opened Calendar
  import opened Schedules

  type Pid = nat

  /** A request that was staged, and the due time it was staged for. */
  datatype Shot = Shot(schedule: Id, due: int)

  datatype Proc = Idle | Firing(rows: seq<Id>, now: int)

  /** `used` holds every schedule id ever given out and `shots` every request ever staged; no step
      reads `shots`. */
  datatype System = System(tables: Tables, procs: map<Pid, Proc>, used: set<Id>, shots: seq<Shot>)

  datatype Action =
    | Claim(p: Pid, now: int, limit: nat, rows: seq<Id>)
    | Commit(p: Pid)
    | Abort(p: Pid)
    | Create(id: Id, schedule: Schedule, now: int)
    | SetActive(id: Id, active: bool)
    | Delete(id: Id)

  /** How schedules move on, and whether the request a schedule turns into is valid. */
  datatype Policy = Policy(next: NextRunAt, accepts: Schedule -> bool)

  function Locked(s: System): set<Id> {
    set p, id | p in s.procs && s.procs[p].Firing? && id in s.procs[p].rows :: id
  }

  predicate AllThere(t: Table, rows: seq<Id>) {
    forall k :: 0 <= k < |rows| ==> rows[k] in t
  }

  function ShotsOf(accepts: Schedule -> bool, t: Table, rows: seq<Id>): seq<Shot>
    requires AllThere(t, rows)
  {
    if rows == [] then []
    else
      var last := rows[|rows| - 1];
      ShotsOf(accepts, t, rows[..|rows| - 1]) + if accepts(t[last]) then [Shot(last, t[last].nextRunAt)] else []
  }

  ghost predicate Next(policy: Policy, s: System, a: Action, s': System) {
    match a
    case Claim(p, now, limit, rows) =>
      && p in s.procs && s.procs[p].Idle? && ClockFits(now)
      && Selected(s.tables.schedules, Locked(s), now, limit, rows)
      && s' == s.(procs := s.procs[p := Firing(rows, now)])
    case Commit(p) =>
      && p in s.procs && s.procs[p].Firing? && AllThere(s.tables.schedules, s.procs[p].rows)
      && var (rows, now) := (s.procs[p].rows, s.procs[p].now);
      && s' == s.(tables := FireAll(policy.next, policy.accepts, s.tables, rows, now),
                  procs := s.procs[p := Idle],
                  shots := s.shots + ShotsOf(policy.accepts, s.tables.schedules, rows))
    case Abort(p) =>
      p in s.procs && s' == s.(procs := s.procs[p := Idle])
    case Create(id, schedule, now) =>
      && id !in s.used && schedule.Valid() && schedule.runs == 0 && schedule.lastRunAt == None && schedule.active
      && ClockFits(now) && schedule.nextRunAt == policy.next(schedule.(nextRunAt := now), now)
      && s' == s.(tables := s.tables.(schedules := s.tables.schedules[id := schedule]), used := s.used + {id})
    case SetActive(id, active) =>
      && id in s.tables.schedules && id !in Locked(s)
      && s' == s.(tables := s.tables.(schedules := s.tables.schedules[id := s.tables.schedules[id].(active := active)]))
    case Delete(id) =>
      && id !in Locked(s)
      && s' == s.(tables := s.tables.(schedules := s.tables.schedules - {id}))
  }

  predicate Init(s: System) {
    && s.tables == Tables(map[], []) && s.used == {} && s.shots == []
    && forall p :: p in s.procs ==> s.procs[p].Idle?
  }

  ghost predicate IsRun(policy: Policy, run: seq<System>, actions: seq<Action>) {
    && |run| == |actions| + 1 && Init(run[0])
    && forall i :: 0 <= i < |actions| ==> Next(policy, run[i], actions[i], run[i + 1])
  }

  // ---- the invariant

  function ShotCount(shots: seq<Shot>, id: Id): nat {
    if shots == [] then 0
    else ShotCount(shots[..|shots| - 1], id) + if shots[|shots| - 1].schedule == id then 1 else 0
  }

  /** The due times a schedule was fired for only ever go up. */
  predicate Rising(shots: seq<Shot>) {
    forall i, j :: 0 <= i < j < |shots| && shots[i].schedule == shots[j].schedule ==> shots[i].due < shots[j].due
  }

  /** A schedule that was fired has moved past the due time it was fired for. */
  predicate Past(shots: seq<Shot>, t: Table) {
    forall k :: 0 <= k < |shots| && shots[k].schedule in t ==> shots[k].due < t[shots[k].schedule].nextRunAt
  }

  /** What a scheduler has claimed is still there and still due. */
  predicate ProcFits(t: Table, proc: Proc) {
    proc.Firing? ==>
      && Distinct(proc.rows) && AllThere(t, proc.rows) && ClockFits(proc.now)
      && forall k :: 0 <= k < |proc.rows| ==> t[proc.rows[k]].Due(proc.now)
  }

  predicate Apart(a: Proc, b: Proc) {
    a.Idle? || b.Idle? || forall i, j :: 0 <= i < |a.rows| && 0 <= j < |b.rows| ==> a.rows[i] != b.rows[j]
  }

  /** The books: every schedule counts its requests, and every request has its shot. */
  ghost predicate Books(s: System) {
    && Counting(s.tables) && s.tables.schedules.Keys <= s.used
    && (forall id :: Count(s.tables.outbox, id) == ShotCount(s.shots, id))
    && (forall k :: 0 <= k < |s.shots| ==> s.shots[k].schedule in s.used)
    && Rising(s.shots) && Past(s.shots, s.tables.schedules)
  }

  ghost predicate Inv(s: System) {
    && Books(s)
    && (forall p :: p in s.procs ==> ProcFits(s.tables.schedules, s.procs[p]))
    && (forall p, q :: p in s.procs && q in s.procs && p != q ==> Apart(s.procs[p], s.procs[q]))
  }

  // ---- the shots of a batch

  /** A shot a batch fires: for one of its rows, at the time that row is due. */
  predicate ShotFits(accepts: Schedule -> bool, t: Table, rows: seq<Id>, shot: Shot) {
    shot.schedule in rows && shot.schedule in t && accepts(t[shot.schedule]) && shot.due == t[shot.schedule].nextRunAt
  }

  /** At most one shot for every schedule, each a fitting one. */
  predicate VolleyFits(accepts: Schedule -> bool, t: Table, rows: seq<Id>, shots: seq<Shot>) {
    && (forall k :: 0 <= k < |shots| ==> ShotFits(accepts, t, rows, shots[k]))
    && (forall i, j :: 0 <= i < j < |shots| ==> shots[i].schedule != shots[j].schedule)
  }

  lemma {:induction false} ShotsMean(accepts: Schedule -> bool, t: Table, rows: seq<Id>)
    requires AllThere(t, rows) && Distinct(rows)
    ensures VolleyFits(accepts, t, rows, ShotsOf(accepts, t, rows))
  {
    if rows != [] {
      var init, last := rows[..|rows| - 1], rows[|rows| - 1];
      ShotsMean(accepts, t, init);
      OneMoreShot(accepts, t, init, last, ShotsOf(accepts, t, init));
      assert rows == init + [last];
    }
  }

  lemma OneMoreShot(accepts: Schedule -> bool, t: Table, init: seq<Id>, last: Id, shots: seq<Shot>)
    requires VolleyFits(accepts, t, init, shots) && last in t && last !in init
    ensures VolleyFits(accepts, t, init + [last], shots)
    ensures accepts(t[last]) ==> VolleyFits(accepts, t, init + [last], shots + [Shot(last, t[last].nextRunAt)])
  {
    assert last in init + [last];
    forall k | 0 <= k < |shots| ensures ShotFits(accepts, t, init + [last], shots[k]) && shots[k].schedule != last {
      assert ShotFits(accepts, t, init, shots[k]);
    }
  }

  lemma {:induction false} ShotsCount(accepts: Schedule -> bool, t: Table, rows: seq<Id>, id: Id)
    requires AllThere(t, rows) && Distinct(rows)
    ensures ShotCount(ShotsOf(accepts, t, rows), id) == if id in rows && accepts(t[id]) then 1 else 0
  {
    if rows != [] {
      var init, last := rows[..|rows| - 1], rows[|rows| - 1];
      assert rows == init + [last] && last !in init;
      ShotsCount(accepts, t, init, id);
      var more := if accepts(t[last]) then [Shot(last, t[last].nextRunAt)] else [];
      assert ShotsOf(accepts, t, rows) == ShotsOf(accepts, t, init) + more;
      ShotCountConcat(ShotsOf(accepts, t, init), more, id);
      assert more != [] ==> more[..0] == [];
    }
  }

  lemma {:induction false} ShotCountConcat(a: seq<Shot>, b: seq<Shot>, id: Id)
    ensures ShotCount(a + b, id) == ShotCount(a, id) + ShotCount(b, id)
    decreases |b|
  {
    if b == [] {
      assert a + b == a;
    } else {
      assert (a + b)[..|a + b| - 1] == a + b[..|b| - 1];
      ShotCountConcat(a, b[..|b| - 1], id);
    }
  }

  // ---- every step keeps the invariant

  lemma ClaimKeeps(policy: Policy, s: System, p: Pid, now: int, limit: nat, rows: seq<Id>, s': System)
    requires Inv(s) && Next(policy, s, Claim(p, now, limit, rows), s')
    ensures Inv(s')
  {
    forall q | q in s.procs && q != p ensures Apart(s'.procs[p], s.procs[q]) && Apart(s.procs[q], s'.procs[p]) {
      if s.procs[q].Firing? {
        forall i, j | 0 <= i < |rows| && 0 <= j < |s.procs[q].rows| ensures rows[i] != s.procs[q].rows[j] {
          var held := s.procs[q].rows[j];
          assert held in s.procs[q].rows;
          assert held in Locked(s);
          assert Candidate(s.tables.schedules, Locked(s), now, rows[i]);
        }
      }
    }
  }

  /** What a commit does to one schedule. */
  lemma CommitAt(policy: Policy, s: System, p: Pid, s': System, id: Id)
    requires Inv(s) && Next(policy, s, Commit(p), s') && id in s.tables.schedules
    ensures id in s'.tables.schedules
    ensures Touched(policy.next, policy.accepts, s.tables, s'.tables, s.procs[p].now, id, id in s.procs[p].rows)
  {
    assert ProcFits(s.tables.schedules, s.procs[p]);
    FireAllAt(policy.next, policy.accepts, s.tables, s.procs[p].rows, s.procs[p].now, id);
  }

  lemma CommitCounts(policy: Policy, s: System, p: Pid, s': System)
    requires Inv(s) && Next(policy, s, Commit(p), s')
    ensures Counting(s'.tables) && s'.tables.schedules.Keys == s.tables.schedules.Keys
    ensures forall id :: Count(s'.tables.outbox, id) == ShotCount(s'.shots, id)
  {
    var rows, now := s.procs[p].rows, s.procs[p].now;
    assert ProcFits(s.tables.schedules, s.procs[p]);
    FireAllCounts(policy.next, policy.accepts, s.tables, rows, now);
    forall id ensures Count(s'.tables.outbox, id) == ShotCount(s'.shots, id) {
      ShotsCount(policy.accepts, s.tables.schedules, rows, id);
      ShotCountConcat(s.shots, ShotsOf(policy.accepts, s.tables.schedules, rows), id);
      FireAllTotal(policy, s.tables, rows, now, id);
    }
  }

  lemma {:induction false} FireAllTotal(policy: Policy, t: Tables, rows: seq<Id>, now: int, id: Id)
    requires AllThere(t.schedules, rows) && Distinct(rows)
    ensures Count(FireAll(policy.next, policy.accepts, t, rows, now).outbox, id)
         == Count(t.outbox, id) + if id in rows && policy.accepts(t.schedules[id]) then 1 else 0
  {
    if rows != [] {
      var init, last := rows[..|rows| - 1], rows[|rows| - 1];
      assert rows == init + [last] && last !in init;
      FireAllTotal(policy, t, init, now, id);
      FireAllAt(policy.next, policy.accepts, t, init, now, last);
      var mid := FireAll(policy.next, policy.accepts, t, init, now);
      CountAppend(mid.outbox, Request(last, mid.schedules[last].inputs), id);
    }
  }

  /** The new shots are for later due times than any before, and the schedules have moved past them. */
  lemma CommitRises(policy: Policy, s: System, p: Pid, s': System)
    requires Inv(s) && Next(policy, s, Commit(p), s') && Forward(policy.next)
    ensures Rising(s'.shots) && Past(s'.shots, s'.tables.schedules)
    ensures forall k :: 0 <= k < |s'.shots| ==> s'.shots[k].schedule in s.used
  {
    var rows := s.procs[p].rows;
    var t := s.tables.schedules;
    assert ProcFits(t, s.procs[p]);
    ShotsMean(policy.accepts, t, rows);
    var newer := ShotsOf(policy.accepts, t, rows);
    RisesWith(policy.accepts, t, rows, s.shots, newer);
    CommitCounts(policy, s, p, s');
    forall k | 0 <= k < |s'.shots| && s'.shots[k].schedule in t
      ensures s'.shots[k].due < s'.tables.schedules[s'.shots[k].schedule].nextRunAt
    {
      CommitPasses(policy, s, p, s', k);
    }
  }

  lemma RisesWith(accepts: Schedule -> bool, t: Table, rows: seq<Id>, shots: seq<Shot>, newer: seq<Shot>)
    requires Rising(shots) && Past(shots, t)
    requires VolleyFits(accepts, t, rows, newer)
    ensures Rising(shots + newer)
    ensures forall k :: 0 <= k < |shots + newer| ==>
              (k < |shots| && (shots + newer)[k] == shots[k]) || ShotFits(accepts, t, rows, (shots + newer)[k])
  {
    var all := shots + newer;
    forall i, j | 0 <= i < j < |all| && all[i].schedule == all[j].schedule ensures all[i].due < all[j].due {
      if j >= |shots| {
        assert ShotFits(accepts, t, rows, newer[j - |shots|]);
      }
    }
  }

  lemma CommitPasses(policy: Policy, s: System, p: Pid, s': System, k: nat)
    requires Inv(s) && Next(policy, s, Commit(p), s') && Forward(policy.next)
    requires k < |s'.shots| && s'.shots[k].schedule in s.tables.schedules
    requires k < |s.shots| || ShotFits(policy.accepts, s.tables.schedules, s.procs[p].rows, s'.shots[k])
    ensures s'.shots[k].schedule in s'.tables.schedules
    ensures s'.shots[k].due < s'.tables.schedules[s'.shots[k].schedule].nextRunAt
  {
    var id := s'.shots[k].schedule;
    assert ProcFits(s.tables.schedules, s.procs[p]);
    CommitAt(policy, s, p, s', id);
    MovesOn(policy, s.tables.schedules, s'.tables.schedules, s.procs[p].now, id, id in s.procs[p].rows);
    assert k < |s.shots| ==> s'.shots[k] == s.shots[k];
  }

  lemma MovesOn(policy: Policy, t: Table, t': Table, now: int, id: Id, hit: bool)
    requires Forward(policy.next) && ClockFits(now) && id in t && id in t' && t[id].Valid()
    requires t'[id] == if hit then Fired(policy.next, t[id], now, policy.accepts(t[id])) else t[id]
    requires hit ==> t[id].Due(now)
    ensures t'[id].nextRunAt >= t[id].nextRunAt
    ensures hit ==> !t'[id].Due(now) && (policy.accepts(t[id]) ==> t'[id].nextRunAt > t[id].nextRunAt)
  {
    assert policy.next(t[id], now) > now;
  }

  lemma CommitKeeps(policy: Policy, s: System, p: Pid, s': System)
    requires Inv(s) && Next(policy, s, Commit(p), s') && Forward(policy.next)
    ensures Inv(s')
  {
    CommitCounts(policy, s, p, s');
    CommitRises(policy, s, p, s');
    forall q | q in s'.procs ensures ProcFits(s'.tables.schedules, s'.procs[q]) {
      if q != p && s.procs[q].Firing? {
        OthersFit(policy, s, p, s', q);
      }
    }
  }

  lemma OthersFit(policy: Policy, s: System, p: Pid, s': System, q: Pid)
    requires Inv(s) && Next(policy, s, Commit(p), s') && q in s.procs && q != p && s.procs[q].Firing?
    ensures ProcFits(s'.tables.schedules, s.procs[q])
  {
    var rows := s.procs[q].rows;
    assert ProcFits(s.tables.schedules, s.procs[q]) && Apart(s.procs[p], s.procs[q]);
    forall k | 0 <= k < |rows|
      ensures rows[k] in s'.tables.schedules && s'.tables.schedules[rows[k]] == s.tables.schedules[rows[k]]
    {
      CommitAt(policy, s, p, s', rows[k]);
      assert rows[k] !in s.procs[p].rows;
    }
  }

  lemma {:induction false} NoCount(shots: seq<Shot>, id: Id)
    requires forall k :: 0 <= k < |shots| ==> shots[k].schedule != id
    ensures ShotCount(shots, id) == 0
  {
    if shots != [] {
      NoCount(shots[..|shots| - 1], id);
    }
  }

  lemma EditKeeps(policy: Policy, s: System, a: Action, s': System)
    requires Inv(s) && Next(policy, s, a, s') && (a.Create? || a.SetActive? || a.Delete?)
    ensures Inv(s')
  {
    if a.Create? {
      NoCount(s.shots, a.id);
    }
    forall q | q in s'.procs ensures ProcFits(s'.tables.schedules, s'.procs[q]) {
      assert ProcFits(s.tables.schedules, s.procs[q]);
      if s.procs[q].Firing? {
        forall k | 0 <= k < |s.procs[q].rows| ensures s.procs[q].rows[k] != a.id {
          assert s.procs[q].rows[k] in s.procs[q].rows;
          assert s.procs[q].rows[k] in Locked(s);
        }
      }
    }
  }

  lemma NextKeeps(policy: Policy, s: System, a: Action, s': System)
    requires Inv(s) && Next(policy, s, a, s') && Forward(policy.next)
    ensures Inv(s')
  {
    match a
    case Claim(p, now, limit, rows) => ClaimKeeps(policy, s, p, now, limit, rows, s');
    case Commit(p) => CommitKeeps(policy, s, p, s');
    case Abort(p) =>
    case Create(_, _, _) => EditKeeps(policy, s, a, s');
    case SetActive(_, _) => EditKeeps(policy, s, a, s');
    case Delete(_) => EditKeeps(policy, s, a, s');
  }

  lemma {:induction false} RunKeeps(policy: Policy, run: seq<System>, actions: seq<Action>, i: nat)
    requires IsRun(policy, run, actions) && Forward(policy.next) && i < |run|
    ensures Inv(run[i])
  {
    if i > 0 {
      RunKeeps(policy, run, actions, i - 1);
      NextKeeps(policy, run[i - 1], actions[i - 1], run[i]);
    }
  }

  // ---- what follows for every run

  /** Any number of schedulers, any clocks and any crashes: no schedule is fired twice for one due
      time, and `runs` is the number of requests staged. */
  lemma NeverTwice(policy: Policy, run: seq<System>, actions: seq<Action>, i: nat)
    requires IsRun(policy, run, actions) && Forward(policy.next) && i < |run|
    ensures Rising(run[i].shots)
    ensures forall id :: Count(run[i].tables.outbox, id) == ShotCount(run[i].shots, id)
    ensures forall id :: id in run[i].tables.schedules ==>
              run[i].tables.schedules[id].runs == Count(run[i].tables.outbox, id)
  {
    RunKeeps(policy, run, actions, i);
  }

  /** A commit leaves nothing of its batch due at the time it was claimed for, and makes nothing
      due at any time. */
  lemma CommitSettles(policy: Policy, run: seq<System>, actions: seq<Action>, i: nat, time: int)
    requires IsRun(policy, run, actions) && Forward(policy.next) && i < |actions| && actions[i].Commit?
    ensures DueIds(run[i + 1].tables.schedules, time) <= DueIds(run[i].tables.schedules, time)
    ensures actions[i].p in run[i].procs && run[i].procs[actions[i].p].Firing?
    ensures var proc := run[i].procs[actions[i].p];
            DueIds(run[i + 1].tables.schedules, proc.now) !! Members(proc.rows)
  {
    RunKeeps(policy, run, actions, i);
    var s, p, s' := run[i], actions[i].p, run[i + 1];
    assert Next(policy, s, actions[i], s');
    assert ProcFits(s.tables.schedules, s.procs[p]);
    CommitCounts(policy, s, p, s');
    forall id | id in s'.tables.schedules
      ensures s'.tables.schedules[id].Due(time) ==> s.tables.schedules[id].Due(time)
      ensures id in s.procs[p].rows ==> !s'.tables.schedules[id].Due(s.procs[p].now)
    {
      CommitAt(policy, s, p, s', id);
      MovesOn(policy, s.tables.schedules, s'.tables.schedules, s.procs[p].now, id, id in s.procs[p].rows);
    }
  }

  /** A commit fires every claimed schedule and stages its request, or switches it off, and notes
      the due times it fired for. */
  lemma CommitFires(policy: Policy, run: seq<System>, actions: seq<Action>, i: nat)
    requires IsRun(policy, run, actions) && Punctual(policy.next) && i < |actions| && actions[i].Commit?
    ensures actions[i].p in run[i].procs && run[i].procs[actions[i].p].Firing? && AllValid(run[i].tables.schedules)
    ensures var proc := run[i].procs[actions[i].p];
            && BatchFits(policy.accepts, run[i].tables, run[i + 1].tables, proc.rows, proc.now)
            && run[i].shots <= run[i + 1].shots
            && VolleyFits(policy.accepts, run[i].tables.schedules, proc.rows, run[i + 1].shots[|run[i].shots|..])
  {
    PunctualIsForward(policy.next);
    RunKeeps(policy, run, actions, i);
    var s, p := run[i], actions[i].p;
    assert Next(policy, s, actions[i], run[i + 1]);
    assert ProcFits(s.tables.schedules, s.procs[p]);
    FireAllFits(policy.next, policy.accepts, s.tables, s.procs[p].rows, s.procs[p].now);
    ShotsMean(policy.accepts, s.tables.schedules, s.procs[p].rows);
    assert run[i + 1].shots[|s.shots|..] == ShotsOf(policy.accepts, s.tables.schedules, s.procs[p].rows);
  }

  // ---- where schedules point

  /** A schedule points at its first occurrence after `since`. */
  ghost predicate PointsAfter(s: Schedule, since: int) {
    s.Valid() && Upcoming(s.rule, s.offset, since, s.nextRunAt)
  }

  /** A schedule points at its first occurrence after its last run, or after it was created. */
  ghost predicate Points(s: Schedule, id: Id, past: seq<Action>) {
    match s.lastRunAt
    case Some(last) => PointsAfter(s, last)
    case None => exists j :: 0 <= j < |past| && past[j].Create? && past[j].id == id && PointsAfter(s, past[j].now)
  }

  predicate SameTimes(a: Schedule, b: Schedule) {
    && a.rule == b.rule && a.offset == b.offset
    && a.nextRunAt == b.nextRunAt && a.lastRunAt == b.lastRunAt && (a.Valid() <==> b.Valid())
  }

  lemma StepPoints(policy: Policy, s: System, a: Action, s': System, id: Id)
    requires Inv(s) && Next(policy, s, a, s') && Punctual(policy.next) && id in s'.tables.schedules
    ensures var t, t' := s.tables.schedules, s'.tables.schedules;
            || (id in t && SameTimes(t[id], t'[id]))
            || (t'[id].lastRunAt.Some? && PointsAfter(t'[id], t'[id].lastRunAt.value))
            || (t'[id].lastRunAt.None? && a.Create? && a.id == id && PointsAfter(t'[id], a.now))
  {
    if a.Commit? {
      CommitCounts(policy, s, a.p, s');
      CommitAt(policy, s, a.p, s', id);
      var due, now := s.tables.schedules[id], s.procs[a.p].now;
      assert ProcFits(s.tables.schedules, s.procs[a.p]);
      FiredIs(policy.next, due, now, policy.accepts(due));
    } else if a.Create? && a.id == id {
      PointsFirst(policy.next, a.schedule.(nextRunAt := a.now), a.now);
    }
  }

  /** Any number of schedulers, any clocks and any crashes: in every reachable state every schedule
      points at its first occurrence after its last run, or after it was created if it never ran. */
  lemma {:induction false} PointsAhead(policy: Policy, run: seq<System>, actions: seq<Action>, i: nat, id: Id)
    requires IsRun(policy, run, actions) && Punctual(policy.next) && i < |run| && id in run[i].tables.schedules
    ensures Points(run[i].tables.schedules[id], id, actions[..i])
  {
    if i > 0 {
      if id in run[i - 1].tables.schedules {
        PointsAhead(policy, run, actions, i - 1, id);
      }
      PointsAt(policy, run, actions, i - 1, i, id);
    }
  }

  lemma PointsAt(policy: Policy, run: seq<System>, actions: seq<Action>, h: nat, i: nat, id: Id)
    requires IsRun(policy, run, actions) && Punctual(policy.next) && h + 1 == i < |run|
    requires id in run[i].tables.schedules
    requires id in run[h].tables.schedules ==> Points(run[h].tables.schedules[id], id, actions[..h])
    ensures Points(run[i].tables.schedules[id], id, actions[..i])
  {
    PunctualIsForward(policy.next);
    RunKeeps(policy, run, actions, h);
    assert Next(policy, run[h], actions[h], run[h + 1]);
    PointsOn(policy, run[h], actions[h], run[i], id, actions[..h]);
    assert actions[..h] + [actions[h]] == actions[..i];
  }

  lemma PointsOn(policy: Policy, s: System, a: Action, s': System, id: Id, past: seq<Action>)
    requires Inv(s) && Next(policy, s, a, s') && Punctual(policy.next) && id in s'.tables.schedules
    requires id in s.tables.schedules ==> Points(s.tables.schedules[id], id, past)
    ensures Points(s'.tables.schedules[id], id, past + [a])
  {
    StepPoints(policy, s, a, s', id);
    var t, t' := s.tables.schedules, s'.tables.schedules;
    if id in t && SameTimes(t[id], t'[id]) {
      PointsStill(t[id], t'[id], id, past, a);
    } else {
      assert (past + [a])[|past|] == a;
    }
  }

  lemma PointsStill(s: Schedule, s': Schedule, id: Id, past: seq<Action>, a: Action)
    requires Points(s, id, past) && SameTimes(s, s')
    ensures Points(s', id, past + [a])
  {
    if s.lastRunAt.None? {
      var j :| 0 <= j < |past| && past[j].Create? && past[j].id == id && PointsAfter(s, past[j].now);
      assert (past + [a])[j] == past[j];
      assert PointsAfter(s', (past + [a])[j].now);
    }
  }

  /** `FireDue` without interruption is a claim and a commit. */
  lemma BatchSteps(policy: Policy, s: System, p: Pid, now: int, limit: nat, rows: seq<Id>)
    requires p in s.procs && s.procs[p].Idle? && ClockFits(now)
    requires Selected(s.tables.schedules, Locked(s), now, limit, rows)
    ensures AllThere(s.tables.schedules, rows)
    ensures exists s1, s2 ::
              && Next(policy, s, Claim(p, now, limit, rows), s1) && Next(policy, s1, Commit(p), s2)
              && s2.tables == FireAll(policy.next, policy.accepts, s.tables, rows, now) && s2.procs == s.procs
  {
    forall k | 0 <= k < |rows| ensures rows[k] in s.tables.schedules {
      assert Candidate(s.tables.schedules, Locked(s), now, rows[k]);
    }
    var s1 := s.(procs := s.procs[p := Firing(rows, now)]);
    var s2 := s1.(tables := FireAll(policy.next, policy.accepts, s.tables, rows, now), procs := s1.procs[p := Idle],
                  shots := s.shots + ShotsOf(policy.accepts, s.tables.schedules, rows));
    assert Next(policy, s, Claim(p, now, limit, rows), s1);
    assert Next(policy, s1, Commit(p), s2);
    assert s2.procs == s.procs;
  }
}
