/** The relay's own code: one pass of `drain` as a method, and the proof that a pass is a run of
    the protocol in Outbox.dfy.
  */
module RelayLoop {
  import opened Options
  import opened Outbox

  /** The claim query has only one possible answer. */
  lemma SelectionUnique(rows: map<RowId, Row>, locked: set<RowId>, batch: nat, a: seq<RowId>, b: seq<RowId>)
    requires Selected(rows, locked, batch, a) && Selected(rows, locked, batch, b)
    ensures a == b
  {
    forall k | 0 <= k < |a| && k < |b| ensures a[k] == b[k] {
      SamePrefix(rows, locked, batch, a, b, k);
    }
    NotShorter(rows, locked, batch, a, b);
    NotShorter(rows, locked, batch, b, a);
  }

  lemma {:induction false} SamePrefix(rows: map<RowId, Row>, locked: set<RowId>, batch: nat,
                                      a: seq<RowId>, b: seq<RowId>, k: nat)
    requires Selected(rows, locked, batch, a) && Selected(rows, locked, batch, b)
    requires k < |a| && k < |b|
    ensures a[k] == b[k]
  {
    forall j | 0 <= j < k ensures a[j] == b[j] {
      SamePrefix(rows, locked, batch, a, b, j);
    }
    NotBelow(rows, locked, batch, a, b, k);
    NotBelow(rows, locked, batch, b, a, k);
  }

  /** Where two selections have agreed so far, neither goes on with a smaller row. */
  lemma NotBelow(rows: map<RowId, Row>, locked: set<RowId>, batch: nat, a: seq<RowId>, b: seq<RowId>, k: nat)
    requires Selected(rows, locked, batch, a) && Selected(rows, locked, batch, b)
    requires k < |a| && k < |b| && forall j :: 0 <= j < k ==> a[j] == b[j]
    ensures b[k] <= a[k]
  {
    var id := a[k];
    assert forall j :: 0 <= j < |b| && b[j] == id ==> k <= j;
    assert Unpublished(rows, id) && id !in locked;
  }

  lemma NotShorter(rows: map<RowId, Row>, locked: set<RowId>, batch: nat, a: seq<RowId>, b: seq<RowId>)
    requires Selected(rows, locked, batch, a) && Selected(rows, locked, batch, b)
    requires forall k :: 0 <= k < |a| && k < |b| ==> a[k] == b[k]
    ensures |a| >= |b|
  {
    assert forall k, j :: |a| <= k < |b| && 0 <= j < |a| ==> b[k] != a[j];
    var id := if |a| < |b| then b[|a|] else 0;
    assert |a| < |b| ==> Unpublished(rows, id) && id !in locked;
  }

  /** The copies a pass puts on the bus. */
  function CopiesOf(rows: map<RowId, Row>, ids: seq<RowId>): (c: seq<Sent>)
    requires forall k :: 0 <= k < |ids| ==> ids[k] in rows
    ensures |c| == |ids| && forall k :: 0 <= k < |c| ==> c[k] == Copy(rows, ids[k])
  {
    seq(|ids|, k requires 0 <= k < |ids| => Copy(rows, ids[k]))
  }

  /** What a pass over the claimed rows `ids` comes to: the first `sent` of them are on the bus, in
      order and with every field, and if it was committed exactly the claimed rows are marked. */
  ghost predicate Relayed(rows: map<RowId, Row>, rows': map<RowId, Row>, bus: seq<Sent>, bus': seq<Sent>,
                          ids: seq<RowId>, sent: nat, committed: bool, now: int) {
    && rows'.Keys == rows.Keys
    && (forall id :: id in rows ==>
          rows'[id] == if committed && id in ids then Row(rows[id].event, Some(now)) else rows[id])
    && sent <= |ids| && |bus'| == |bus| + sent && bus <= bus'
    && (forall k :: 0 <= k < sent ==> ids[k] in rows && bus'[|bus| + k] == Sent(ids[k], rows[ids[k]].event))
  }

  lemma PassRelays(rows: map<RowId, Row>, bus: seq<Sent>, ids: seq<RowId>, sent: nat, committed: bool, now: int)
    requires sent <= |ids| && forall k :: 0 <= k < |ids| ==> ids[k] in rows
    ensures Relayed(rows, if committed then MarkAll(rows, ids, now) else rows, bus, bus + CopiesOf(rows, ids[..sent]),
                    ids, sent, committed, now)
  {
  }

  class Table {
    var rows: map<RowId, Row>
    var bus: seq<Sent>

    constructor ()
      ensures rows == map[] && bus == []
    {
      rows, bus := map[], [];
    }

    /** The smallest of a set of row ids. */
    static method Least(ids: set<RowId>) returns (least: RowId)
      requires ids != {}
      ensures least in ids && forall id :: id in ids ==> least <= id
    {
      least :| least in ids;
      var rest := ids - {least};
      while rest != {}
        invariant rest <= ids && least in ids
        invariant forall id :: id in ids && id !in rest ==> least <= id
        decreases rest
      {
        var id :| id in rest;
        if id < least {
          least := id;
        }
        rest := rest - {id};
      }
    }

    /** The claim query: up to `batch` unpublished rows that nobody has locked, lowest first. */
    method ClaimBatch(locked: set<RowId>, batch: nat) returns (ids: seq<RowId>)
      ensures Selected(rows, locked, batch, ids)
    {
      var open := set r | r in rows && rows[r].publishedAt.None? && r !in locked;
      ids := [];
      while open != {} && |ids| < batch
        invariant |ids| <= batch && Increasing(ids)
        invariant forall k :: 0 <= k < |ids| ==> Unpublished(rows, ids[k]) && ids[k] !in locked
        invariant forall id :: id in open <==> Unpublished(rows, id) && id !in locked && id !in ids
        invariant forall k, id :: 0 <= k < |ids| && id in open ==> ids[k] < id
        decreases open
      {
        var least := Least(open);
        ids := ids + [least];
        open := open - {least};
      }
    }

    /** One pass. The broker accepts `accepted` messages before it fails. If it accepts the whole
        batch the marks are committed; otherwise they are rolled back and only the messages that
        went out remain. */
    method Drain(locked: set<RowId>, batch: nat, accepted: nat, now: int) returns (ok: bool, ids: seq<RowId>)
      modifies this
      ensures Selected(old(rows), locked, batch, ids)
      ensures ok <==> |ids| <= accepted
      ensures Relayed(old(rows), rows, old(bus), bus, ids, if ok then |ids| else accepted, ok, now)
      ensures rows == if ok then MarkAll(old(rows), ids, now) else old(rows)
      ensures bus == old(bus) + CopiesOf(old(rows), if ok then ids else ids[..accepted])
    {
      ids := ClaimBatch(locked, batch);
      var before := rows;
      for k := 0 to |ids|
        invariant k <= accepted
        invariant rows == MarkAll(before, ids[..k], now)
        invariant bus == old(bus) + CopiesOf(before, ids[..k])
      {
        if k == accepted {
          rows := before;
          PassRelays(before, old(bus), ids, k, false, now);
          return false, ids;
        }
        assert ids[..k + 1] == ids[..k] + [ids[k]];
        bus := bus + [Copy(rows, ids[k])];
        rows := rows[ids[k] := rows[ids[k]].(publishedAt := Some(now))];
      }
      assert ids[..|ids|] == ids;
      PassRelays(before, old(bus), ids, |ids|, true, now);
      ok := true;
    }

    /** What was published before the cutoff goes, and nothing else. */
    method PruneBefore(cutoff: int) returns (deleted: nat)
      modifies this`rows
      ensures rows == Pruned(old(rows), cutoff)
      ensures forall id :: id in rows <==>
                id in old(rows) && (old(rows)[id].publishedAt == None || old(rows)[id].publishedAt.value >= cutoff)
      ensures forall id :: id in rows ==> rows[id] == old(rows)[id]
      ensures deleted == |old(rows)| - |rows|
    {
      ghost var before := rows;
      var gone := set r | r in rows && rows[r].publishedAt.Some? && rows[r].publishedAt.value < cutoff;
      deleted := |gone|;
      rows := rows - gone;
      assert before.Keys == rows.Keys + gone;
      assert rows == Pruned(before, cutoff);
    }
  }

  // ---- a pass is a run of the protocol

  ghost predicate Leads(s: System, actions: seq<Action>, s': System)
    decreases |actions|
  {
    if actions == [] then s == s'
    else exists mid :: Next(s, actions[0], mid) && Leads(mid, actions[1..], s')
  }

  lemma {:induction false} LeadsThen(s: System, actions: seq<Action>, mid: System, a: Action, s': System)
    requires Leads(s, actions, mid) && Next(mid, a, s')
    ensures Leads(s, actions + [a], s')
    decreases |actions|
  {
    var all := actions + [a];
    if actions == [] {
      assert all[1..] == [];
      assert Next(s, all[0], s') && Leads(s', all[1..], s');
    } else {
      var first :| Next(s, actions[0], first) && Leads(first, actions[1..], mid);
      LeadsThen(first, actions[1..], mid, a, s');
      assert all[1..] == actions[1..] + [a];
      assert Next(s, all[0], first) && Leads(first, all[1..], s');
    }
  }

  /** The state of a pass after `k` rows were published and marked. */
  function Midway(s: System, p: Pid, ids: seq<RowId>, k: nat): System
    requires k <= |ids| && forall j :: 0 <= j < |ids| ==> ids[j] in s.rows
  {
    s.(bus := s.bus + CopiesOf(s.rows, ids[..k]), relays := s.relays[p := Draining(ids, k, k)])
  }

  lemma {:induction false} LeadsMidway(s: System, p: Pid, batch: nat, ids: seq<RowId>, k: nat)
    returns (actions: seq<Action>)
    requires p in s.relays && s.relays[p].Idle? && Selected(s.rows, Locked(s), batch, ids) && k <= |ids|
    ensures Leads(s, actions, Midway(s, p, ids, k))
  {
    if k == 0 {
      var s1 := Midway(s, p, ids, 0);
      assert s.bus + [] == s.bus;
      assert Next(s, Claim(p, batch, ids), s1);
      LeadsThen(s, [], s, Claim(p, batch, ids), s1);
      actions := [] + [Claim(p, batch, ids)];
    } else {
      actions := LeadsMidway(s, p, batch, ids, k - 1);
      var a := Midway(s, p, ids, k - 1);
      var b := OneRowOn(s, p, ids, k);
      LeadsThen(s, actions, a, Publish(p), b);
      LeadsThen(s, actions + [Publish(p)], b, Mark(p), Midway(s, p, ids, k));
      actions := actions + [Publish(p)] + [Mark(p)];
    }
  }

  /** One more row published and marked. */
  lemma OneRowOn(s: System, p: Pid, ids: seq<RowId>, k: nat) returns (b: System)
    requires p in s.relays && 0 < k <= |ids| && forall j :: 0 <= j < |ids| ==> ids[j] in s.rows
    ensures Next(Midway(s, p, ids, k - 1), Publish(p), b) && Next(b, Mark(p), Midway(s, p, ids, k))
  {
    var a, c := Midway(s, p, ids, k - 1), Midway(s, p, ids, k);
    b := a.(bus := a.bus + [Copy(s.rows, ids[k - 1])], relays := a.relays[p := Draining(ids, k, k - 1)]);
    assert CopiesOf(s.rows, ids[..k]) == CopiesOf(s.rows, ids[..k - 1]) + [Copy(s.rows, ids[k - 1])];
    assert c.relays == b.relays[p := Draining(ids, k, k)];
  }

  /** What `Drain` does is what the protocol's steps do: the same rows and the same bus, whether
      the pass is committed or cut short by the broker. */
  lemma PassIsRun(s: System, p: Pid, batch: nat, ids: seq<RowId>, accepted: nat, now: int)
    returns (actions: seq<Action>, s': System)
    requires p in s.relays && s.relays[p].Idle? && Selected(s.rows, Locked(s), batch, ids)
    ensures var ok := |ids| <= accepted;
            && Leads(s, actions, s')
            && Relayed(s.rows, s'.rows, s.bus, s'.bus, ids, if ok then |ids| else accepted, ok, now)
            && s'.relays == s.relays
  {
    var ok := |ids| <= accepted;
    var k := if ok then |ids| else accepted;
    actions := LeadsMidway(s, p, batch, ids, k);
    var m := Midway(s, p, ids, k);
    assert ids[..|ids|] == ids;
    PassRelays(s.rows, s.bus, ids, k, ok, now);
    if ok {
      s' := m.(rows := MarkAll(m.rows, ids, now), relays := m.relays[p := Idle]);
      assert Next(m, Commit(p, now), s');
      LeadsThen(s, actions, m, Commit(p, now), s');
      actions := actions + [Commit(p, now)];
      assert s'.relays == s.relays;
    } else {
      s' := m.(relays := m.relays[p := Idle], wasted := m.wasted + multiset(ids[..k]));
      assert Next(m, Abort(p), s');
      LeadsThen(s, actions, m, Abort(p), s');
      actions := actions + [Abort(p)];
      assert s'.relays == s.relays;
    }
  }

  /** A committed pass leaves exactly the rest of the queue, and leaves a row that nobody else holds
      only if its batch was full. */
  lemma PassDrains(rows: map<RowId, Row>, locked: set<RowId>, batch: nat, ids: seq<RowId>, now: int)
    requires Selected(rows, locked, batch, ids)
    ensures forall id :: Unpublished(MarkAll(rows, ids, now), id) <==> Unpublished(rows, id) && id !in ids
    ensures (exists id :: Unpublished(MarkAll(rows, ids, now), id) && id !in locked) ==> |ids| == batch
  {
  }
}
