/** Firing due schedules: one request each however long the machine was off.
  */
module Schedules {
  import opened Options
  import opened Picks
  import opened Calendar

  type Id = string

  datatype Schedule = Schedule(
    rule: Rule, offset: int, inputs: string,
    active: bool, nextRunAt: int, lastRunAt: Option<int>, runs: nat)
  {
    /** What the table's constraints and `create` guarantee; an offset is less than a day. */
    predicate Valid() {
      rule.Valid() && -DAY < offset < DAY
    }

    predicate Due(now: int) {
      active && nextRunAt <= now
    }
  }

  datatype Request = Request(schedule: Id, inputs: string)

  type Table = map<Id, Schedule>

  predicate AllValid(t: Table) {
    forall id :: id in t ==> t[id].Valid()
  }

  /** A clock past the second day of year 1, so that the local date exists in every zone. */
  predicate ClockFits(now: int) {
    now >= 2 * DAY
  }

  /** Where a schedule that is handled at a given time should point next. */
  type NextRunAt = (Schedule, int) -> int

  /** It points at the first occurrence of the schedule that is still to come. */
  ghost predicate Punctual(next: NextRunAt) {
    forall s: Schedule, now: int :: s.Valid() && ClockFits(now) ==> Upcoming(s.rule, s.offset, now, next(s, now))
  }

  /** It points strictly into the future. */
  ghost predicate Forward(next: NextRunAt) {
    forall s: Schedule, now: int :: s.Valid() && ClockFits(now) ==> next(s, now) > now
  }

  lemma PunctualIsForward(next: NextRunAt)
    requires Punctual(next)
    ensures Forward(next)
  {
  }

  /** `catch_up`: the next occurrence after now, not after the run that was missed. */
  function CatchUp(): NextRunAt {
    (s: Schedule, now: int) => if s.Valid() && ClockFits(now) then NextUtc(s.rule, s.offset, now) else now
  }

  lemma CatchUpIsPunctual()
    ensures Punctual(CatchUp())
  {
    forall s: Schedule, now: int | s.Valid() && ClockFits(now)
      ensures Upcoming(s.rule, s.offset, now, CatchUp()(s, now))
    {
      NextUtcIsNext(s.rule, s.offset, now);
    }
  }

  /** A schedule after it was due: moved on, or switched off if its request is refused. */
  function Fired(next: NextRunAt, s: Schedule, now: int, accepted: bool): Schedule {
    if !accepted then s.(active := false)
    else s.(nextRunAt := next(s, now), lastRunAt := Some(now), runs := s.runs + 1)
  }

  /** What became of a schedule that was due: it points at its first occurrence after `now`, was last
      run now and once more than before; or it is switched off. Nothing else of it changes. */
  ghost predicate FiredAs(s: Schedule, s': Schedule, now: int, accepted: bool)
    requires s.Valid()
  {
    if accepted then
      && Upcoming(s.rule, s.offset, now, s'.nextRunAt)
      && s' == s.(nextRunAt := s'.nextRunAt, lastRunAt := Some(now), runs := s.runs + 1)
    else s' == s.(active := false)
  }

  lemma FiredIs(next: NextRunAt, s: Schedule, now: int, accepted: bool)
    requires Punctual(next) && s.Valid() && ClockFits(now)
    ensures FiredAs(s, Fired(next, s, now, accepted), now, accepted)
  {
    assert Upcoming(s.rule, s.offset, now, next(s, now));
  }

  function Count(requests: seq<Request>, id: Id): nat {
    if requests == [] then 0
    else Count(requests[..|requests| - 1], id) + if requests[|requests| - 1].schedule == id then 1 else 0
  }

  lemma CountAppend(requests: seq<Request>, r: Request, id: Id)
    ensures Count(requests + [r], id) == Count(requests, id) + if r.schedule == id then 1 else 0
  {
    assert (requests + [r])[..|requests|] == requests;
  }

  // ---- the claim query

  predicate Distinct(rows: seq<Id>) {
    forall i, j :: 0 <= i < j < |rows| ==> rows[i] != rows[j]
  }

  predicate Candidate(t: Table, locked: set<Id>, now: int, id: Id) {
    id in t && t[id].Due(now) && id !in locked
  }

  /** The first `limit` due schedules nobody has locked, longest overdue first. */
  ghost predicate Selected(t: Table, locked: set<Id>, now: int, limit: nat, rows: seq<Id>) {
    && |rows| <= limit && Distinct(rows)
    && (forall k :: 0 <= k < |rows| ==> Candidate(t, locked, now, rows[k]))
    && (forall i, j :: 0 <= i < j < |rows| ==> t[rows[i]].nextRunAt <= t[rows[j]].nextRunAt)
    && (forall id :: Candidate(t, locked, now, id) && id !in rows ==>
          |rows| == limit && forall k :: 0 <= k < |rows| ==> t[rows[k]].nextRunAt <= t[id].nextRunAt)
  }

  method MostOverdue(t: Table, ids: set<Id>) returns (first: Id)
    requires ids != {} && ids <= t.Keys
    ensures first in ids && forall id :: id in ids ==> t[first].nextRunAt <= t[id].nextRunAt
  {
    first :| first in ids;
    var rest := ids - {first};
    while rest != {}
      invariant rest <= ids && first in ids
      invariant forall id :: id in ids && id !in rest ==> t[first].nextRunAt <= t[id].nextRunAt
      decreases rest
    {
      var id :| id in rest;
      if t[id].nextRunAt < t[first].nextRunAt {
        first := id;
      }
      rest := rest - {id};
    }
  }

  method ClaimDue(t: Table, locked: set<Id>, now: int, limit: nat) returns (rows: seq<Id>)
    ensures Selected(t, locked, now, limit, rows)
  {
    var open := set id | id in t && t[id].active && t[id].nextRunAt <= now && id !in locked;
    rows := [];
    while open != {} && |rows| < limit
      invariant |rows| <= limit && Distinct(rows)
      invariant forall k :: 0 <= k < |rows| ==> Candidate(t, locked, now, rows[k])
      invariant forall i, j :: 0 <= i < j < |rows| ==> t[rows[i]].nextRunAt <= t[rows[j]].nextRunAt
      invariant forall id :: id in open <==> Candidate(t, locked, now, id) && id !in rows
      invariant forall k, id :: 0 <= k < |rows| && id in open ==> t[rows[k]].nextRunAt <= t[id].nextRunAt
      decreases open
    {
      var first := MostOverdue(t, open);
      rows := rows + [first];
      open := open - {first};
    }
  }

  // ---- firing

  /** The two tables a batch writes. */
  datatype Tables = Tables(schedules: Table, outbox: seq<Request>)

  /** One claimed row: stage its request and move it on, or switch it off. */
  function FireOne(next: NextRunAt, accepts: Schedule -> bool, t: Tables, id: Id, now: int): Tables
    requires id in t.schedules
  {
    var s := t.schedules[id];
    Tables(t.schedules[id := Fired(next, s, now, accepts(s))],
           if accepts(s) then t.outbox + [Request(id, s.inputs)] else t.outbox)
  }

  function FireAll(next: NextRunAt, accepts: Schedule -> bool, t: Tables, rows: seq<Id>, now: int): (r: Tables)
    requires forall k :: 0 <= k < |rows| ==> rows[k] in t.schedules
    ensures r.schedules.Keys == t.schedules.Keys
  {
    if rows == [] then t
    else FireOne(next, accepts, FireAll(next, accepts, t, rows[..|rows| - 1], now), rows[|rows| - 1], now)
  }

  /** What a batch has done to one schedule. */
  predicate Touched(next: NextRunAt, accepts: Schedule -> bool, t: Tables, r: Tables, now: int, id: Id, hit: bool)
    requires id in t.schedules && id in r.schedules
  {
    var s := t.schedules[id];
    && r.schedules[id] == (if hit then Fired(next, s, now, accepts(s)) else s)
    && Count(r.outbox, id) == Count(t.outbox, id) + if hit && accepts(s) then 1 else 0
  }

  /** A batch of distinct rows fires each of them once and leaves the others alone. */
  lemma {:induction false} FireAllAt(next: NextRunAt, accepts: Schedule -> bool, t: Tables, rows: seq<Id>, now: int,
                                     id: Id)
    requires Distinct(rows) && forall k :: 0 <= k < |rows| ==> rows[k] in t.schedules
    requires id in t.schedules
    ensures Touched(next, accepts, t, FireAll(next, accepts, t, rows, now), now, id, id in rows)
  {
    if rows != [] {
      var init, last := rows[..|rows| - 1], rows[|rows| - 1];
      assert rows == init + [last] && last !in init;
      FireAllAt(next, accepts, t, init, now, id);
      FireAllAt(next, accepts, t, init, now, last);
      var mid := FireAll(next, accepts, t, init, now);
      CountAppend(mid.outbox, Request(last, mid.schedules[last].inputs), id);
    }
  }

  /** The outbox grew by one request for every accepted row, in order, with the inputs of its
      schedule; `idx` says for which rows. */
  ghost predicate Staged(accepts: Schedule -> bool, t: Tables, outbox: seq<Request>, rows: seq<Id>, idx: seq<nat>) {
    && Ascending(idx)
    && (forall n :: 0 <= n < |idx| ==> idx[n] < |rows|)
    && (forall k :: 0 <= k < |rows| ==> rows[k] in t.schedules && (k in idx <==> accepts(t.schedules[rows[k]])))
    && t.outbox <= outbox && |outbox| == |t.outbox| + |idx|
    && forall n :: 0 <= n < |idx| ==>
         outbox[|t.outbox| + n] == Request(rows[idx[n]], t.schedules[rows[idx[n]]].inputs)
  }

  /** What a batch does: every row fires and stages its request, or is switched off, and nothing
      else changes. */
  ghost predicate BatchFits(accepts: Schedule -> bool, t: Tables, r: Tables, rows: seq<Id>, now: int)
    requires AllValid(t.schedules)
  {
    && r.schedules.Keys == t.schedules.Keys
    && (forall id :: id in t.schedules ==>
          if id in rows then FiredAs(t.schedules[id], r.schedules[id], now, accepts(t.schedules[id]))
          else r.schedules[id] == t.schedules[id])
    && exists idx: seq<nat> :: Staged(accepts, t, r.outbox, rows, idx)
  }

  lemma {:induction false} FireAllStages(next: NextRunAt, accepts: Schedule -> bool, t: Tables, rows: seq<Id>, now: int)
    returns (idx: seq<nat>)
    requires Distinct(rows) && forall k :: 0 <= k < |rows| ==> rows[k] in t.schedules
    ensures Staged(accepts, t, FireAll(next, accepts, t, rows, now).outbox, rows, idx)
  {
    if rows == [] {
      idx := [];
    } else {
      var init, last := rows[..|rows| - 1], rows[|rows| - 1];
      assert rows == init + [last] && last !in init;
      FireAllAt(next, accepts, t, init, now, last);
      var before := FireAllStages(next, accepts, t, init, now);
      var mid := FireAll(next, accepts, t, init, now);
      idx := if accepts(t.schedules[last]) then before + [|init|] else before;
      StagedOne(accepts, t, mid.outbox, init, before, last);
    }
  }

  lemma StagedOne(accepts: Schedule -> bool, t: Tables, outbox: seq<Request>, init: seq<Id>, idx: seq<nat>, last: Id)
    requires Staged(accepts, t, outbox, init, idx) && last in t.schedules
    ensures var s := t.schedules[last];
            if accepts(s) then
              Staged(accepts, t, outbox + [Request(last, s.inputs)], init + [last], idx + [|init|])
            else Staged(accepts, t, outbox, init + [last], idx)
  {
    var rows, more := init + [last], idx + [|init|];
    assert |init| !in idx;
    assert more[|idx|] == |init|;
    forall k | 0 <= k < |init| ensures rows[k] == init[k] && (k in more <==> k in idx) {
    }
  }

  lemma FireAllFits(next: NextRunAt, accepts: Schedule -> bool, t: Tables, rows: seq<Id>, now: int)
    requires Punctual(next) && AllValid(t.schedules) && ClockFits(now)
    requires Distinct(rows) && forall k :: 0 <= k < |rows| ==> rows[k] in t.schedules
    ensures BatchFits(accepts, t, FireAll(next, accepts, t, rows, now), rows, now)
  {
    var r := FireAll(next, accepts, t, rows, now);
    forall id | id in t.schedules
      ensures if id in rows then FiredAs(t.schedules[id], r.schedules[id], now, accepts(t.schedules[id]))
              else r.schedules[id] == t.schedules[id]
    {
      FireAllAt(next, accepts, t, rows, now, id);
      FiredIs(next, t.schedules[id], now, accepts(t.schedules[id]));
    }
    var idx := FireAllStages(next, accepts, t, rows, now);
  }

  /** Schedules stay sound, and each keeps counting its requests. */
  ghost predicate Counting(t: Tables) {
    AllValid(t.schedules) && forall id :: id in t.schedules ==> t.schedules[id].runs == Count(t.outbox, id)
  }

  lemma FireAllCounts(next: NextRunAt, accepts: Schedule -> bool, t: Tables, rows: seq<Id>, now: int)
    requires Counting(t) && Distinct(rows) && forall k :: 0 <= k < |rows| ==> rows[k] in t.schedules
    ensures Counting(FireAll(next, accepts, t, rows, now))
  {
    var r := FireAll(next, accepts, t, rows, now);
    forall id | id in r.schedules ensures r.schedules[id].Valid() && r.schedules[id].runs == Count(r.outbox, id) {
      FireAllAt(next, accepts, t, rows, now, id);
    }
  }

  /** A batch takes exactly what it claimed out of the due schedules, and it claims something. */
  lemma BatchShrinks(next: NextRunAt, accepts: Schedule -> bool, t: Tables, rows: seq<Id>, now: int, limit: nat)
    requires Forward(next) && AllValid(t.schedules) && ClockFits(now) && limit >= 1
    requires Selected(t.schedules, {}, now, limit, rows) && DueIds(t.schedules, now) != {}
    ensures DueIds(FireAll(next, accepts, t, rows, now).schedules, now) == DueIds(t.schedules, now) - Members(rows)
    ensures rows != [] && Members(rows) <= DueIds(t.schedules, now)
  {
    var r := FireAll(next, accepts, t, rows, now);
    forall id | id in t.schedules ensures r.schedules[id].Due(now) <==> t.schedules[id].Due(now) && id !in rows {
      FireAllAt(next, accepts, t, rows, now, id);
      assert next(t.schedules[id], now) > now;
    }
    var id :| id in DueIds(t.schedules, now);
    assert Candidate(t.schedules, {}, now, id);
  }

  function Members(rows: seq<Id>): set<Id> {
    set id | id in rows
  }

  function DueIds(t: Table, now: int): set<Id> {
    set id | id in t && t[id].Due(now)
  }

  /** Everything staged since carries the inputs of its schedule. */
  predicate Carries(t: Tables, outbox: seq<Request>) {
    && t.outbox <= outbox
    && forall k :: |t.outbox| <= k < |outbox| ==>
         outbox[k].schedule in t.schedules && outbox[k].inputs == t.schedules[outbox[k].schedule].inputs
  }

  /** Where catching up stands: what is no longer due was handled once, the rest was not touched. */
  ghost predicate CatchingUp(next: NextRunAt, accepts: Schedule -> bool, t: Tables, r: Tables, now: int) {
    && r.schedules.Keys == t.schedules.Keys && Counting(r)
    && DueIds(r.schedules, now) <= DueIds(t.schedules, now) && Carries(t, r.outbox)
    && forall id :: id in t.schedules ==>
         Touched(next, accepts, t, r, now, id, t.schedules[id].Due(now) && !r.schedules[id].Due(now))
  }

  lemma CatchingUpOn(next: NextRunAt, accepts: Schedule -> bool, t: Tables, r: Tables, rows: seq<Id>, now: int,
                     limit: nat)
    requires Forward(next) && ClockFits(now) && limit >= 1
    requires CatchingUp(next, accepts, t, r, now)
    requires Selected(r.schedules, {}, now, limit, rows) && DueIds(r.schedules, now) != {}
    ensures CatchingUp(next, accepts, t, FireAll(next, accepts, r, rows, now), now)
    ensures DueIds(FireAll(next, accepts, r, rows, now).schedules, now) < DueIds(r.schedules, now)
  {
    var q := FireAll(next, accepts, r, rows, now);
    BatchShrinks(next, accepts, r, rows, now, limit);
    FireAllCounts(next, accepts, r, rows, now);
    assert rows[0] in Members(rows);
    CarriesOn(next, accepts, t, r, rows, now);
    forall id | id in t.schedules
      ensures Touched(next, accepts, t, q, now, id, t.schedules[id].Due(now) && !q.schedules[id].Due(now))
    {
      FireAllAt(next, accepts, r, rows, now, id);
      assert id in DueIds(r.schedules, now) <==> r.schedules[id].Due(now);
      assert id in DueIds(q.schedules, now) <==> q.schedules[id].Due(now);
      assert id in DueIds(t.schedules, now) <==> t.schedules[id].Due(now);
      assert id in rows <==> id in Members(rows);
    }
  }

  lemma CarriesOn(next: NextRunAt, accepts: Schedule -> bool, t: Tables, r: Tables, rows: seq<Id>, now: int)
    requires CatchingUp(next, accepts, t, r, now)
    requires Distinct(rows) && forall k :: 0 <= k < |rows| ==> rows[k] in r.schedules
    ensures Carries(t, FireAll(next, accepts, r, rows, now).outbox)
  {
    var q := FireAll(next, accepts, r, rows, now);
    var idx := FireAllStages(next, accepts, r, rows, now);
    forall k | |t.outbox| <= k < |q.outbox|
      ensures q.outbox[k].schedule in t.schedules && q.outbox[k].inputs == t.schedules[q.outbox[k].schedule].inputs
    {
      if k >= |r.outbox| {
        var id := rows[idx[k - |r.outbox|]];
        assert q.outbox[|r.outbox| + (k - |r.outbox|)] == Request(id, r.schedules[id].inputs);
        assert Touched(next, accepts, t, r, now, id, t.schedules[id].Due(now) && !r.schedules[id].Due(now));
      } else {
        assert q.outbox[k] == r.outbox[k];
      }
    }
  }

  lemma PointsFirst(next: NextRunAt, s: Schedule, now: int)
    requires Punctual(next) && s.Valid() && ClockFits(now)
    ensures Upcoming(s.rule, s.offset, now, next(s, now))
  {
  }

  lemma AddedCounts(t: Tables, id: Id, s: Schedule)
    requires Counting(t) && Count(t.outbox, id) == 0 && s.Valid() && s.runs == 0
    ensures Counting(t.(schedules := t.schedules[id := s]))
  {
  }

  class ScheduleStore {
    /** Whether the request a schedule turns into satisfies its contract. */
    const accepts: Schedule -> bool
    const next: NextRunAt
    var schedules: Table
    var outbox: seq<Request>

    constructor (accepts: Schedule -> bool)
      ensures schedules == map[] && outbox == [] && Valid()
      ensures this.accepts == accepts && this.next == CatchUp()
    {
      CatchUpIsPunctual();
      this.accepts, this.next, schedules, outbox := accepts, CatchUp(), map[], [];
    }

    /** Every schedule counts the requests it has staged. */
    ghost predicate Valid()
      reads this
    {
      Punctual(next) && Counting(Now())
    }

    function Now(): Tables
      reads this
    {
      Tables(schedules, outbox)
    }

    /** A new schedule, under an id nobody has used, points at its first occurrence. */
    method Create(id: Id, rule: Rule, offset: int, inputs: string, now: int) returns (ok: bool)
      requires Valid() && id !in schedules && Count(outbox, id) == 0
      requires -DAY < offset < DAY && ClockFits(now)
      modifies this`schedules
      ensures Valid() && (ok <==> rule.Valid())
      ensures ok ==> id in schedules && schedules == old(schedules)[id := schedules[id]]
                     && schedules[id] == Schedule(rule, offset, inputs, true, schedules[id].nextRunAt, None, 0)
                     && Upcoming(rule, offset, now, schedules[id].nextRunAt)
      ensures !ok ==> schedules == old(schedules)
    {
      if !rule.Valid() {
        return false;
      }
      var blank := Schedule(rule, offset, inputs, true, now, None, 0);
      PointsFirst(next, blank, now);
      var first := next(blank, now);
      AddedCounts(Now(), id, blank.(nextRunAt := first));
      schedules := schedules[id := blank.(nextRunAt := first)];
      ok := true;
    }

    method SetActive(id: Id, active: bool) returns (found: bool)
      requires Valid()
      modifies this`schedules
      ensures Valid() && found == (id in old(schedules))
      ensures schedules == if found then old(schedules)[id := old(schedules)[id].(active := active)] else old(schedules)
    {
      found := id in schedules;
      if found {
        schedules := schedules[id := schedules[id].(active := active)];
      }
    }

    method Delete(id: Id) returns (found: bool)
      requires Valid()
      modifies this`schedules
      ensures Valid() && found == (id in old(schedules)) && schedules == old(schedules) - {id}
    {
      found := id in schedules;
      schedules := schedules - {id};
    }

    /** One batch, in one transaction: every claimed schedule fires once or is switched off, and
        nothing else changes. */
    method FireDue(now: int, limit: nat, locked: set<Id>) returns (rows: seq<Id>)
      requires Valid() && ClockFits(now)
      modifies this
      ensures Valid() && Selected(old(schedules), locked, now, limit, rows)
      ensures BatchFits(accepts, old(Now()), Now(), rows, now)
      ensures Now() == FireAll(next, accepts, old(Now()), rows, now)
    {
      rows := ClaimDue(schedules, locked, now, limit);
      FireRows(rows, now);
      FireAllCounts(next, accepts, old(Now()), rows, now);
      FireAllFits(next, accepts, old(Now()), rows, now);
    }

    method FireRows(rows: seq<Id>, now: int)
      requires forall k :: 0 <= k < |rows| ==> rows[k] in schedules
      modifies this
      ensures Now() == FireAll(next, accepts, old(Now()), rows, now)
    {
      for k := 0 to |rows|
        invariant Now() == FireAll(next, accepts, old(Now()), rows[..k], now)
      {
        var id := rows[k];
        assert rows[..k + 1][..k] == rows[..k];
        var s := schedules[id];
        if !accepts(s) {
          schedules := schedules[id := s.(active := false)];
          continue;
        }
        outbox := outbox + [Request(id, s.inputs)];
        schedules := schedules[id := s.(nextRunAt := next(s, now), lastRunAt := Some(now), runs := s.runs + 1)];
      }
      assert rows[..|rows|] == rows;
    }

    /** Batch after batch until nothing is due, as the scheduler does after an outage of any
        length. Every schedule that was due has fired once and staged exactly one request with its
        inputs, or was switched off if its request is refused; the others are as they were. */
    method CatchUpAll(now: int, limit: nat)
      requires Valid() && ClockFits(now) && limit >= 1
      modifies this
      ensures Valid() && schedules.Keys == old(schedules).Keys
      ensures DueIds(schedules, now) == {}
      ensures forall id :: id in schedules ==>
                var s := old(schedules)[id];
                && (if s.Due(now) then FiredAs(s, schedules[id], now, accepts(s)) else schedules[id] == s)
                && Count(outbox, id) == old(Count(outbox, id)) + if s.Due(now) && accepts(s) then 1 else 0
      ensures old(outbox) <= outbox
      ensures forall k :: |old(outbox)| <= k < |outbox| ==>
                && outbox[k].schedule in old(schedules)
                && outbox[k].inputs == old(schedules)[outbox[k].schedule].inputs
    {
      PunctualIsForward(next);
      ghost var before := Now();
      assert CatchingUp(next, accepts, before, Now(), now);
      while DueIds(schedules, now) != {}
        invariant Punctual(next) && CatchingUp(next, accepts, before, Now(), now)
        decreases DueIds(schedules, now)
      {
        ghost var mid := Now();
        var rows := FireDue(now, limit, {});
        CatchingUpOn(next, accepts, before, mid, rows, now, limit);
      }
      forall id | id in schedules
        ensures !schedules[id].Due(now) && Touched(next, accepts, before, Now(), now, id, before.schedules[id].Due(now))
        ensures var s := before.schedules[id];
                FiredAs(s, Fired(next, s, now, accepts(s)), now, accepts(s))
      {
        assert id !in DueIds(schedules, now);
        FiredIs(next, before.schedules[id], now, accepts(before.schedules[id]));
      }
    }
  }
}
