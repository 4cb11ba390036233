/** The transactional outbox and the relays that drain it onto the bus.

    A stager's commit puts a row in the table. A relay claims a batch of unpublished rows nobody
    else holds, publishes and marks them one by one, and commits; if it dies or the broker
    refuses, its marks are rolled back and its locks go, but what it published stays published.
    Pruning deletes rows whose publication has been committed.
  */
module Outbox {
  import opened Options

  type RowId = nat
  type Pid = nat

  /** What a stager commits and what a consumer receives: the relay copies every field. */
  datatype Envelope = Envelope(
    id: string, eventType: string, producer: string, tenant: Option<string>, project: Option<string>,
    correlation: string, causation: Option<string>, payload: string)

  datatype Row = Row(event: Envelope, publishedAt: Option<int>)

  datatype Sent = Sent(row: RowId, envelope: Envelope)

  datatype Relay = Idle | Draining(claimed: seq<RowId>, sent: nat, marked: nat)

  /** `inserted` remembers every row ever committed and `wasted` the publications of passes that
      were rolled back. Neither is read by a step. */
  datatype System = System(
    rows: map<RowId, Row>, bus: seq<Sent>, relays: map<Pid, Relay>,
    inserted: map<RowId, Envelope>, wasted: multiset<RowId>)

  datatype Action =
    | Stage(row: RowId, event: Envelope)
    | Claim(p: Pid, batch: nat, ids: seq<RowId>)
    | Publish(p: Pid)
    | Mark(p: Pid)
    | Commit(p: Pid, now: int)
    | Abort(p: Pid)
    | Prune(cutoff: int)

  predicate Unpublished(rows: map<RowId, Row>, id: RowId) {
    id in rows && rows[id].publishedAt.None?
  }

  predicate HeldBy(r: Relay, id: RowId) {
    r.Draining? && id in r.claimed
  }

  predicate Held(s: System, id: RowId) {
    exists p :: p in s.relays && HeldBy(s.relays[p], id)
  }

  function Locked(s: System): set<RowId> {
    set p, id | p in s.relays && s.relays[p].Draining? && id in s.relays[p].claimed :: id
  }

  predicate Increasing(ids: seq<RowId>) {
    forall i, j :: 0 <= i < j < |ids| ==> ids[i] < ids[j]
  }

  /** What the claim query returns: the lowest unpublished rows that are not locked. */
  ghost predicate Selected(rows: map<RowId, Row>, locked: set<RowId>, batch: nat, ids: seq<RowId>) {
    && |ids| <= batch && Increasing(ids)
    && (forall k :: 0 <= k < |ids| ==> Unpublished(rows, ids[k]) && ids[k] !in locked)
    && (forall id :: Unpublished(rows, id) && id !in locked && id !in ids ==>
          |ids| == batch && forall k :: 0 <= k < |ids| ==> ids[k] < id)
  }

  function EventIds(rows: map<RowId, Row>): set<string> {
    set r | r in rows :: rows[r].event.id
  }

  function MarkAll(rows: map<RowId, Row>, ids: seq<RowId>, now: int): map<RowId, Row> {
    map r | r in rows :: if r in ids then rows[r].(publishedAt := Some(now)) else rows[r]
  }

  function Pruned(rows: map<RowId, Row>, cutoff: int): map<RowId, Row> {
    map r | r in rows && !(rows[r].publishedAt.Some? && rows[r].publishedAt.value < cutoff) :: rows[r]
  }

  function Copy(rows: map<RowId, Row>, id: RowId): Sent
    requires id in rows
  {
    Sent(id, rows[id].event)
  }

  /** Row ids come from a sequence, so they are never used twice, but they need not commit in
      order. An event id that is already in the table is not inserted again. */
  ghost predicate Next(s: System, a: Action, s': System) {
    match a
    case Stage(row, event) =>
      && row !in s.inserted
      && s' == if event.id in EventIds(s.rows) then s
               else s.(rows := s.rows[row := Row(event, None)], inserted := s.inserted[row := event])
    case Claim(p, batch, ids) =>
      && p in s.relays && s.relays[p].Idle? && Selected(s.rows, Locked(s), batch, ids)
      && s' == s.(relays := s.relays[p := Draining(ids, 0, 0)])
    case Publish(p) =>
      && p in s.relays && s.relays[p].Draining?
      && var r := s.relays[p];
      && r.sent == r.marked < |r.claimed| && r.claimed[r.sent] in s.rows
      && s' == s.(bus := s.bus + [Copy(s.rows, r.claimed[r.sent])],
                  relays := s.relays[p := r.(sent := r.sent + 1)])
    case Mark(p) =>
      && p in s.relays && s.relays[p].Draining?
      && var r := s.relays[p];
      && r.marked < r.sent
      && s' == s.(relays := s.relays[p := r.(marked := r.marked + 1)])
    case Commit(p, now) =>
      && p in s.relays && s.relays[p].Draining?
      && var r := s.relays[p];
      && r.marked == |r.claimed|
      && s' == s.(rows := MarkAll(s.rows, r.claimed, now), relays := s.relays[p := Idle])
    case Abort(p) =>
      && p in s.relays && s.relays[p].Draining?
      && var r := s.relays[p];
      && r.sent <= |r.claimed|
      && s' == s.(relays := s.relays[p := Idle], wasted := s.wasted + multiset(r.claimed[..r.sent]))
    case Prune(cutoff) =>
      s' == s.(rows := Pruned(s.rows, cutoff))
  }

  predicate Init(s: System) {
    && s.rows == map[] && s.bus == [] && s.inserted == map[] && s.wasted == multiset{}
    && forall p :: p in s.relays ==> s.relays[p].Idle?
  }

  ghost predicate IsRun(run: seq<System>, actions: seq<Action>) {
    && |run| == |actions| + 1 && Init(run[0])
    && forall i :: 0 <= i < |actions| ==> Next(run[i], actions[i], run[i + 1])
  }

  // ---- the invariant

  function Copies(bus: seq<Sent>, id: RowId): nat {
    if bus == [] then 0 else Copies(bus[..|bus| - 1], id) + if bus[|bus| - 1].row == id then 1 else 0
  }

  predicate RelayFits(s: System, p: Pid)
    requires p in s.relays
  {
    s.relays[p].Draining? ==>
      var r := s.relays[p];
      && r.marked <= r.sent <= r.marked + 1 && r.sent <= |r.claimed|
      && Increasing(r.claimed)
      && forall k :: 0 <= k < |r.claimed| ==> Unpublished(s.rows, r.claimed[k])
  }

  predicate Disjoint(a: Relay, b: Relay) {
    a.Idle? || b.Idle? || forall i, j :: 0 <= i < |a.claimed| && 0 <= j < |b.claimed| ==> a.claimed[i] != b.claimed[j]
  }

  /** The relay has published the row in a pass it has not committed. */
  predicate InFlight(r: Relay, id: RowId) {
    r.Draining? && r.sent <= |r.claimed| && id in r.claimed[..r.sent]
  }

  predicate AnyInFlight(s: System, id: RowId) {
    exists p :: p in s.relays && InFlight(s.relays[p], id)
  }

  /** Committed as published: it is no longer an unpublished row. */
  predicate Delivered(s: System, id: RowId) {
    id in s.inserted && !Unpublished(s.rows, id)
  }

  /** Every copy on the bus is accounted for. */
  predicate Balanced(s: System, id: RowId) {
    Copies(s.bus, id)
      == (if Delivered(s, id) then 1 else 0) + (if AnyInFlight(s, id) then 1 else 0) + s.wasted[id]
  }

  ghost predicate Inv(s: System) {
    && (forall id :: id in s.rows ==> id in s.inserted && s.rows[id].event == s.inserted[id])
    && (forall k :: 0 <= k < |s.bus| ==> s.bus[k].row in s.inserted && s.bus[k].envelope == s.inserted[s.bus[k].row])
    && (forall p :: p in s.relays ==> RelayFits(s, p))
    && (forall p, q :: p in s.relays && q in s.relays && p != q ==> Disjoint(s.relays[p], s.relays[q]))
    && (forall id :: Balanced(s, id))
  }

  lemma CopiesAppend(bus: seq<Sent>, e: Sent, id: RowId)
    ensures Copies(bus + [e], id) == Copies(bus, id) + if e.row == id then 1 else 0
  {
    assert (bus + [e])[..|bus|] == bus;
  }

  lemma StageKeeps(s: System, row: RowId, event: Envelope, s': System)
    requires Inv(s) && Next(s, Stage(row, event), s')
    ensures Inv(s')
  {
    if s' != s {
      forall id ensures Balanced(s', id) {
        StageBalances(s, row, event, s', id);
      }
    }
  }

  lemma StageBalances(s: System, row: RowId, event: Envelope, s': System, id: RowId)
    requires Inv(s) && Next(s, Stage(row, event), s') && s' != s
    ensures Balanced(s', id)
  {
    assert Balanced(s, id);
    assert AnyInFlight(s', id) == AnyInFlight(s, id);
    if id == row {
      NoCopies(s.bus, row);
    }
  }

  lemma {:induction false} NoCopies(bus: seq<Sent>, id: RowId)
    requires forall k :: 0 <= k < |bus| ==> bus[k].row != id
    ensures Copies(bus, id) == 0
  {
    if bus != [] {
      NoCopies(bus[..|bus| - 1], id);
    }
  }

  lemma ClaimKeeps(s: System, p: Pid, batch: nat, ids: seq<RowId>, s': System)
    requires Inv(s) && Next(s, Claim(p, batch, ids), s')
    ensures Inv(s')
  {
    forall q | q in s.relays && q != p
      ensures Disjoint(s'.relays[p], s.relays[q]) && Disjoint(s.relays[q], s'.relays[p])
    {
      if s.relays[q].Draining? {
        forall i, j | 0 <= i < |ids| && 0 <= j < |s.relays[q].claimed| ensures ids[i] != s.relays[q].claimed[j] {
          var held := s.relays[q].claimed[j];
          assert held in s.relays[q].claimed;
          assert held in Locked(s);
        }
      }
    }
    forall id ensures Balanced(s', id) {
      ClaimBalances(s, p, batch, ids, s', id);
    }
  }

  lemma ClaimBalances(s: System, p: Pid, batch: nat, ids: seq<RowId>, s': System, id: RowId)
    requires Inv(s) && Next(s, Claim(p, batch, ids), s')
    ensures Balanced(s', id)
  {
    assert Balanced(s, id);
    SameFlight(s, s', p, id);
  }

  /** Who is in flight, when only relay `p` moved. */
  lemma SameFlight(s: System, s': System, p: Pid, id: RowId)
    requires p in s.relays && s'.relays.Keys == s.relays.Keys
    requires forall q :: q in s.relays && q != p ==> s'.relays[q] == s.relays[q]
    requires InFlight(s'.relays[p], id) == InFlight(s.relays[p], id)
    ensures AnyInFlight(s', id) == AnyInFlight(s, id)
  {
    if AnyInFlight(s, id) {
      var q :| q in s.relays && InFlight(s.relays[q], id);
      assert InFlight(s'.relays[q], id);
    }
    if AnyInFlight(s', id) {
      var q :| q in s'.relays && InFlight(s'.relays[q], id);
      assert InFlight(s.relays[q], id);
    }
  }

  lemma PublishKeeps(s: System, p: Pid, s': System)
    requires Inv(s) && Next(s, Publish(p), s')
    ensures Inv(s')
  {
    assert RelayFits(s, p);
    forall id ensures Balanced(s', id) {
      PublishBalances(s, p, s', id);
    }
  }

  lemma PublishBalances(s: System, p: Pid, s': System, id: RowId)
    requires Inv(s) && Next(s, Publish(p), s')
    ensures Balanced(s', id)
  {
    var r, r' := s.relays[p], s'.relays[p];
    var row := r.claimed[r.sent];
    assert RelayFits(s, p) && Balanced(s, id);
    CopiesAppend(s.bus, Copy(s.rows, row), id);
    assert r'.claimed[..r'.sent] == r.claimed[..r.sent] + [row];
    if id == row {
      NotYetInFlight(s, p, row);
      assert InFlight(s'.relays[p], row);
    } else {
      SameFlight(s, s', p, id);
    }
  }

  lemma NotYetInFlight(s: System, p: Pid, row: RowId)
    requires Inv(s) && p in s.relays && s.relays[p].Draining?
    requires s.relays[p].sent < |s.relays[p].claimed| && row == s.relays[p].claimed[s.relays[p].sent]
    ensures !AnyInFlight(s, row)
  {
    assert RelayFits(s, p);
    forall q | q in s.relays ensures !InFlight(s.relays[q], row) {
      assert RelayFits(s, q);
      if q != p {
        assert Disjoint(s.relays[q], s.relays[p]);
      }
    }
  }

  lemma MarkKeeps(s: System, p: Pid, s': System)
    requires Inv(s) && Next(s, Mark(p), s')
    ensures Inv(s')
  {
    assert RelayFits(s, p);
    forall id ensures Balanced(s', id) {
      MarkBalances(s, p, s', id);
    }
  }

  lemma MarkBalances(s: System, p: Pid, s': System, id: RowId)
    requires Inv(s) && Next(s, Mark(p), s')
    ensures Balanced(s', id)
  {
    assert Balanced(s, id);
    SameFlight(s, s', p, id);
  }

  lemma CommitKeeps(s: System, p: Pid, now: int, s': System)
    requires Inv(s) && Next(s, Commit(p, now), s')
    ensures Inv(s')
  {
    var r := s.relays[p];
    assert RelayFits(s, p);
    assert r.claimed[..r.sent] == r.claimed;
    forall q | q in s'.relays ensures RelayFits(s', q) {
      assert RelayFits(s, q);
      assert q != p ==> Disjoint(s.relays[p], s.relays[q]);
    }
    forall id ensures Balanced(s', id) {
      CommitBalances(s, p, now, s', id);
    }
  }

  lemma CommitBalances(s: System, p: Pid, now: int, s': System, id: RowId)
    requires Inv(s) && Next(s, Commit(p, now), s')
    ensures Balanced(s', id)
  {
    var r := s.relays[p];
    assert RelayFits(s, p) && Balanced(s, id);
    assert r.claimed[..r.sent] == r.claimed;
    if id in r.claimed {
      assert InFlight(s.relays[p], id);
      assert Delivered(s', id) && !Delivered(s, id);
      OnlyMine(s, p, id, s');
    } else {
      SameFlight(s, s', p, id);
      assert Delivered(s', id) == Delivered(s, id);
    }
  }

  /** A row held by `p` is in flight with nobody else. */
  lemma OnlyMine(s: System, p: Pid, id: RowId, s': System)
    requires Inv(s) && p in s.relays && s.relays[p].Draining? && id in s.relays[p].claimed
    requires s'.relays == s.relays[p := Idle]
    ensures !AnyInFlight(s', id)
  {
    forall q | q in s'.relays ensures !InFlight(s'.relays[q], id) {
      if q != p {
        assert RelayFits(s, q) && Disjoint(s.relays[p], s.relays[q]);
      }
    }
  }

  lemma AbortKeeps(s: System, p: Pid, s': System)
    requires Inv(s) && Next(s, Abort(p), s')
    ensures Inv(s')
  {
    assert RelayFits(s, p);
    forall id ensures Balanced(s', id) {
      AbortBalances(s, p, s', id);
    }
  }

  lemma AbortBalances(s: System, p: Pid, s': System, id: RowId)
    requires Inv(s) && Next(s, Abort(p), s')
    ensures Balanced(s', id)
  {
    var r := s.relays[p];
    assert RelayFits(s, p) && Balanced(s, id);
    CountOnce(r.claimed[..r.sent], id);
    if id in r.claimed[..r.sent] {
      assert InFlight(s.relays[p], id);
      OnlyMine(s, p, id, s');
    } else {
      SameFlight(s, s', p, id);
    }
  }

  lemma {:induction false} CountOnce(ids: seq<RowId>, id: RowId)
    requires Increasing(ids)
    ensures multiset(ids)[id] == if id in ids then 1 else 0
  {
    if ids != [] {
      var init := ids[..|ids| - 1];
      CountOnce(init, id);
      assert ids == init + [ids[|ids| - 1]];
    }
  }

  lemma PruneKeeps(s: System, cutoff: int, s': System)
    requires Inv(s) && Next(s, Prune(cutoff), s')
    ensures Inv(s')
  {
    forall p | p in s'.relays ensures RelayFits(s', p) {
      assert RelayFits(s, p);
    }
    forall id ensures Balanced(s', id) {
      assert Balanced(s, id);
      assert Unpublished(s'.rows, id) == Unpublished(s.rows, id);
      assert AnyInFlight(s', id) == AnyInFlight(s, id);
    }
  }

  lemma NextKeeps(s: System, a: Action, s': System)
    requires Inv(s) && Next(s, a, s')
    ensures Inv(s')
  {
    match a
    case Stage(row, event) => StageKeeps(s, row, event, s');
    case Claim(p, batch, ids) => ClaimKeeps(s, p, batch, ids, s');
    case Publish(p) => PublishKeeps(s, p, s');
    case Mark(p) => MarkKeeps(s, p, s');
    case Commit(p, now) => CommitKeeps(s, p, now, s');
    case Abort(p) => AbortKeeps(s, p, s');
    case Prune(cutoff) => PruneKeeps(s, cutoff, s');
  }

  lemma {:induction false} RunKeeps(run: seq<System>, actions: seq<Action>, i: nat)
    requires IsRun(run, actions) && i < |run|
    ensures Inv(run[i])
  {
    if i > 0 {
      RunKeeps(run, actions, i - 1);
      NextKeeps(run[i - 1], actions[i - 1], run[i]);
    }
  }

  // ---- what follows for every run

  lemma {:induction false} CopyIsThere(bus: seq<Sent>, id: RowId)
    requires Copies(bus, id) > 0
    ensures exists k :: 0 <= k < |bus| && bus[k].row == id
  {
    if bus[|bus| - 1].row != id {
      CopyIsThere(bus[..|bus| - 1], id);
      var k :| 0 <= k < |bus| - 1 && bus[..|bus| - 1][k].row == id;
      assert bus[k].row == id;
    }
  }

  /** No event is lost and none is invented. Whatever was committed is still waiting in the
      table, unpublished and unchanged, or is on the bus with every field as committed; and
      whatever is on the bus was committed. In particular a row is gone or marked only if it
      was published. */
  lemma NothingLost(run: seq<System>, actions: seq<Action>, i: nat, id: RowId)
    requires IsRun(run, actions) && i < |run| && id in run[i].inserted
    ensures var s := run[i];
            || (Unpublished(s.rows, id) && s.rows[id].event == s.inserted[id])
            || (exists k :: 0 <= k < |s.bus| && s.bus[k] == Sent(id, s.inserted[id]))
    ensures forall k :: 0 <= k < |run[i].bus| ==>
              run[i].bus[k].row in run[i].inserted
              && run[i].bus[k].envelope == run[i].inserted[run[i].bus[k].row]
  {
    RunKeeps(run, actions, i);
    var s := run[i];
    if !Unpublished(s.rows, id) {
      assert Balanced(s, id);
      CopyIsThere(s.bus, id);
    }
  }

  /** Without rolled-back passes a committed event is published at most once; each rolled-back
      publication accounts for one more copy. */
  lemma CopiesAccounted(run: seq<System>, actions: seq<Action>, i: nat, id: RowId)
    requires IsRun(run, actions) && i < |run|
    ensures var s := run[i];
            && Copies(s.bus, id) <= 1 + s.wasted[id]
            && (Unpublished(s.rows, id) && !Held(s, id) ==> Copies(s.bus, id) == s.wasted[id])
            && (id in s.inserted && !Unpublished(s.rows, id) ==> Copies(s.bus, id) == 1 + s.wasted[id])
  {
    RunKeeps(run, actions, i);
    var s := run[i];
    assert Balanced(s, id);
    if AnyInFlight(s, id) {
      var p :| p in s.relays && InFlight(s.relays[p], id);
      assert RelayFits(s, p);
      assert HeldBy(s.relays[p], id);
    }
  }

  /** Committed events stay committed: the record of them only grows. */
  lemma {:induction false} InsertedForGood(run: seq<System>, actions: seq<Action>, i: nat, j: nat, id: RowId)
    requires IsRun(run, actions) && i <= j < |run| && id in run[i].inserted
    ensures id in run[j].inserted && run[j].inserted[id] == run[i].inserted[id]
    decreases j
  {
    if i < j {
      InsertedForGood(run, actions, i, j - 1, id);
      assert Next(run[j - 1], actions[j - 1], run[j]);
    }
  }
}
