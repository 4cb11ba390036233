/** Send-once notifications: claim a (channel, event) pair, send, record, and give the pair back
    only after a failure worth retrying. Any number of workers, crashes anywhere, and channels
    deleted while a worker is busy with them.
  */
module Notifications {
  import opened Options

  type Id = string
  type Pid = nat

  datatype Pair = Pair(channel: Id, event: Id)

  datatype Status = Sending | Sent | Failed

  /** What sending came to. */
  datatype Result = Result(ok: bool, status: Option<int>)

  const RETRYABLE_STATUS := {408, 425, 429, 500, 502, 503, 504}

  /** No answer at all is worth another try, and so are the "come back later" answers. */
  predicate Retryable(r: Result) {
    !r.ok && (r.status.None? || r.status.value in RETRYABLE_STATUS)
  }

  datatype Attempt = Attempt(pair: Pair, result: Result)

  datatype Pc = Idle | Claimed(pair: Pair) | Answered(pair: Pair, result: Result) | Closing(pair: Pair)

  datatype System = System(
    channels: set<Id>, deleted: set<Id>, rows: map<Pair, Status>, pcs: map<Pid, Pc>, log: seq<Attempt>)

  datatype Action =
    | Claim(p: Pid, pair: Pair)
    | Send(p: Pid, result: Result)
    | Finish(p: Pid)
    | Release(p: Pid)
    | Crash(p: Pid)
    | AddChannel(channel: Id)
    | DeleteChannel(channel: Id)

  function WithoutChannel(rows: map<Pair, Status>, channel: Id): map<Pair, Status> {
    map pair | pair in rows && pair.channel != channel :: rows[pair]
  }

  function FinishRow(rows: map<Pair, Status>, pair: Pair, ok: bool): map<Pair, Status> {
    if pair in rows then rows[pair := if ok then Sent else Failed] else rows
  }

  /** The unique index refuses a pair that is taken, and the foreign key one whose channel is
      gone. Channel ids are never used again. */
  predicate Next(s: System, a: Action, s': System) {
    match a
    case Claim(p, pair) =>
      && p in s.pcs && s.pcs[p].Idle?
      && s' == if pair in s.rows || pair.channel !in s.channels then s
               else s.(rows := s.rows[pair := Sending], pcs := s.pcs[p := Claimed(pair)])
    case Send(p, result) =>
      && p in s.pcs && s.pcs[p].Claimed?
      && s' == s.(log := s.log + [Attempt(s.pcs[p].pair, result)], pcs := s.pcs[p := Answered(s.pcs[p].pair, result)])
    case Finish(p) =>
      && p in s.pcs && s.pcs[p].Answered?
      && var pc := s.pcs[p];
      && s' == s.(rows := FinishRow(s.rows, pc.pair, pc.result.ok),
                  pcs := s.pcs[p := if Retryable(pc.result) then Closing(pc.pair) else Idle])
    case Release(p) =>
      && p in s.pcs && s.pcs[p].Closing?
      && s' == s.(rows := s.rows - {s.pcs[p].pair}, pcs := s.pcs[p := Idle])
    case Crash(p) =>
      && p in s.pcs
      && s' == s.(pcs := s.pcs[p := Idle])
    case AddChannel(channel) =>
      && channel !in s.channels && channel !in s.deleted
      && s' == s.(channels := s.channels + {channel})
    case DeleteChannel(channel) =>
      && channel in s.channels
      && s' == s.(channels := s.channels - {channel}, deleted := s.deleted + {channel},
                  rows := WithoutChannel(s.rows, channel))
  }

  predicate Init(s: System) {
    && s.rows == map[] && s.log == [] && s.channels == {} && s.deleted == {}
    && forall p :: p in s.pcs ==> s.pcs[p].Idle?
  }

  ghost predicate IsRun(run: seq<System>, actions: seq<Action>) {
    && |run| == |actions| + 1 && Init(run[0])
    && forall i :: 0 <= i < |actions| ==> Next(run[i], actions[i], run[i + 1])
  }

  // ---- the invariant

  /** So far every attempt for the pair failed in a way worth retrying. */
  predicate Clean(log: seq<Attempt>, pair: Pair) {
    forall k :: 0 <= k < |log| && log[k].pair == pair ==> Retryable(log[k].result)
  }

  /** Nothing is sent for a pair after a success or a permanent failure. */
  predicate SendsOnce(log: seq<Attempt>) {
    forall i, j :: 0 <= i < j < |log| && log[i].pair == log[j].pair ==> Retryable(log[i].result)
  }

  /** A worker busy with a pair holds its row, unless the channel was deleted meanwhile. */
  predicate PcFits(s: System, pc: Pc) {
    && (!pc.Idle? ==> pc.pair in s.rows || pc.pair.channel in s.deleted)
    && (pc.Claimed? || pc.Closing? ==> Clean(s.log, pc.pair))
    && (pc.Answered? && Retryable(pc.result) ==> Clean(s.log, pc.pair))
  }

  /** Not busy with the same pair. */
  predicate Apart(a: Pc, b: Pc) {
    a.Idle? || b.Idle? || a.pair != b.pair
  }

  predicate Inv(s: System) {
    && s.channels !! s.deleted
    && (forall pair :: pair in s.rows ==> pair.channel in s.channels)
    && (forall p :: p in s.pcs ==> PcFits(s, s.pcs[p]))
    && (forall p, q :: p in s.pcs && q in s.pcs && p != q ==> Apart(s.pcs[p], s.pcs[q]))
    && (forall k :: 0 <= k < |s.log| ==> Accounted(s, s.log[k]))
    && SendsOnce(s.log)
  }

  /** An attempt worth no retry has left its row behind, or its channel is gone. */
  predicate Accounted(s: System, a: Attempt) {
    Retryable(a.result) || a.pair in s.rows || a.pair.channel in s.deleted
  }

  lemma ClaimKeeps(s: System, p: Pid, pair: Pair, s': System)
    requires Inv(s) && Next(s, Claim(p, pair), s')
    ensures Inv(s')
  {
    if s' != s {
      forall q | q in s.pcs && q != p ensures Apart(Claimed(pair), s.pcs[q]) {
        assert PcFits(s, s.pcs[q]);
      }
      forall k | 0 <= k < |s.log| && s.log[k].pair == pair ensures Retryable(s.log[k].result) {
        assert Accounted(s, s.log[k]);
      }
      forall q | q in s'.pcs ensures PcFits(s', s'.pcs[q]) {
        assert q != p ==> PcFits(s, s.pcs[q]);
      }
      forall k | 0 <= k < |s.log| ensures Accounted(s', s.log[k]) {
        assert Accounted(s, s.log[k]);
      }
    }
  }

  lemma SendKeeps(s: System, p: Pid, result: Result, s': System)
    requires Inv(s) && Next(s, Send(p, result), s')
    ensures Inv(s')
  {
    var pair := s.pcs[p].pair;
    assert PcFits(s, s.pcs[p]);
    forall q | q in s'.pcs ensures PcFits(s', s'.pcs[q]) {
      assert q != p ==> PcFits(s, s.pcs[q]) && Apart(s.pcs[p], s.pcs[q]);
    }
    forall k | 0 <= k < |s'.log| ensures Accounted(s', s'.log[k]) {
      assert k < |s.log| ==> Accounted(s, s.log[k]);
    }
  }

  lemma FinishKeeps(s: System, p: Pid, s': System)
    requires Inv(s) && Next(s, Finish(p), s')
    ensures Inv(s')
  {
    assert PcFits(s, s.pcs[p]);
    assert s'.rows.Keys == s.rows.Keys;
    forall q | q in s'.pcs ensures PcFits(s', s'.pcs[q]) {
      assert PcFits(s, s.pcs[q]);
    }
    forall k | 0 <= k < |s.log| ensures Accounted(s', s.log[k]) {
      assert Accounted(s, s.log[k]);
    }
  }

  lemma ReleaseKeeps(s: System, p: Pid, s': System)
    requires Inv(s) && Next(s, Release(p), s')
    ensures Inv(s')
  {
    var pair := s.pcs[p].pair;
    assert PcFits(s, s.pcs[p]);
    forall q | q in s'.pcs ensures PcFits(s', s'.pcs[q]) {
      assert PcFits(s, s.pcs[q]) && (q != p ==> Apart(s.pcs[p], s.pcs[q]));
    }
    forall k | 0 <= k < |s.log| ensures Accounted(s', s.log[k]) {
      assert Accounted(s, s.log[k]);
    }
  }

  lemma ChannelKeeps(s: System, a: Action, s': System)
    requires Inv(s) && Next(s, a, s') && (a.AddChannel? || a.DeleteChannel? || a.Crash?)
    ensures Inv(s')
  {
    forall q | q in s'.pcs ensures PcFits(s', s'.pcs[q]) {
      assert PcFits(s, s.pcs[q]);
    }
    forall k | 0 <= k < |s.log| ensures Accounted(s', s.log[k]) {
      assert Accounted(s, s.log[k]);
    }
  }

  lemma NextKeeps(s: System, a: Action, s': System)
    requires Inv(s) && Next(s, a, s')
    ensures Inv(s')
  {
    match a
    case Claim(p, pair) => ClaimKeeps(s, p, pair, s');
    case Send(p, result) => SendKeeps(s, p, result, s');
    case Finish(p) => FinishKeeps(s, p, s');
    case Release(p) => ReleaseKeeps(s, p, s');
    case Crash(p) => ChannelKeeps(s, a, s');
    case AddChannel(channel) => ChannelKeeps(s, a, s');
    case DeleteChannel(channel) => ChannelKeeps(s, a, s');
  }

  lemma {:induction false} RunKeeps(run: seq<System>, actions: seq<Action>, i: nat)
    requires IsRun(run, actions) && i < |run|
    ensures Inv(run[i])
  {
    if i > 0 {
      RunKeeps(run, actions, i - 1);
      NextKeeps(run[i - 1], actions[i - 1], run[i]);
    }
  }

  /** Under any interleaving and any crashes: one worker at a time is busy with a pair, at most
      one attempt for a pair succeeds, and none follows a success or a permanent failure. */
  lemma SentAtMostOnce(run: seq<System>, actions: seq<Action>, i: nat)
    requires IsRun(run, actions) && i < |run|
    ensures forall p, q :: p in run[i].pcs && q in run[i].pcs && p != q ==> Apart(run[i].pcs[p], run[i].pcs[q])
    ensures SendsOnce(run[i].log)
    ensures forall j, k :: 0 <= j < k < |run[i].log| && run[i].log[j].pair == run[i].log[k].pair ==>
              var r := run[i].log[j].result;
              !r.ok && (r.status == None || r.status.value in {408, 425, 429, 500, 502, 503, 504})
  {
    RunKeeps(run, actions, i);
  }

  // ---- the worker's loop

  datatype Channel = Channel(id: Id, active: bool, events: seq<string>)

  /** An empty list of events means all of them. */
  predicate Wants(c: Channel, eventType: string) {
    c.active && (c.events == [] || eventType in c.events)
  }

  predicate Concerns(pair: Pair, event: Id, channels: seq<Channel>) {
    pair.event == event && exists k :: 0 <= k < |channels| && channels[k].id == pair.channel
  }

  /** The row of a pair says how an attempt went: sent, or gone if it is worth another try, or
      failed for good. */
  predicate RowTells(rows: map<Pair, Status>, pair: Pair, r: Result) {
    if r.ok then pair in rows && rows[pair] == Sent
    else if r.status == None || r.status.value in {408, 425, 429, 500, 502, 503, 504} then pair !in rows
    else pair in rows && rows[pair] == Failed
  }

  datatype ClaimResult = Won | Taken | NoChannel

  class NotificationStore {
    var channels: set<Id>
    var rows: map<Pair, Status>
    var log: seq<Attempt>

    constructor ()
      ensures Valid() && channels == {} && rows == map[] && log == []
    {
      channels, rows, log := {}, map[], [];
    }

    /** The foreign key: a delivery belongs to a channel that exists. */
    predicate Valid()
      reads this
    {
      forall pair :: pair in rows ==> pair.channel in channels
    }

    method AddChannel(channel: Id)
      requires Valid()
      modifies this`channels
      ensures Valid() && channels == old(channels) + {channel}
    {
      channels := channels + {channel};
    }

    /** Deleting a channel takes its deliveries with it. */
    method DeleteChannel(channel: Id) returns (found: bool)
      requires Valid()
      modifies this`channels, this`rows
      ensures Valid() && found == (channel in old(channels))
      ensures channels == old(channels) - {channel}
      ensures forall pair :: pair in rows <==> pair in old(rows) && pair.channel != channel
      ensures forall pair :: pair in rows ==> rows[pair] == old(rows)[pair]
      ensures rows == WithoutChannel(old(rows), channel)
    {
      found := channel in channels;
      channels := channels - {channel};
      rows := map pair | pair in rows && pair.channel != channel :: rows[pair];
    }

    method TryClaim(pair: Pair) returns (r: ClaimResult)
      requires Valid()
      modifies this`rows
      ensures Valid()
      ensures r == if pair.channel !in channels then NoChannel else if pair in old(rows) then Taken else Won
      ensures rows == if r == Won then old(rows)[pair := Sending] else old(rows)
    {
      if pair in rows {
        return Taken;
      }
      if pair.channel !in channels {
        return NoChannel;
      }
      rows := rows[pair := Sending];
      r := Won;
    }

    method RecordOutcome(pair: Pair, ok: bool)
      requires Valid()
      modifies this`rows
      ensures Valid() && rows == FinishRow(old(rows), pair, ok)
      ensures pair in old(rows) ==> rows == old(rows)[pair := if ok then Sent else Failed]
      ensures pair !in old(rows) ==> rows == old(rows)
    {
      if pair in rows {
        rows := rows[pair := if ok then Sent else Failed];
      }
    }

    method GiveBack(pair: Pair)
      requires Valid()
      modifies this`rows
      ensures Valid() && rows == old(rows) - {pair}
    {
      rows := rows - {pair};
    }

    /** One event for a tenant's channels, in order. Up to the first wanted channel that has been
        deleted meanwhile, where the handler fails, each channel that wants the event and whose pair
        was free gets exactly one attempt, and its row says how that went. Every other pair is left
        alone. */
    method Handle(event: Id, eventType: string, wanting: seq<Channel>, send: Id -> Result) returns (done: nat)
      requires Valid()
      requires forall i, j :: 0 <= i < j < |wanting| ==> wanting[i].id != wanting[j].id
      modifies this`rows, this`log
      ensures Valid() && done <= |wanting|
      ensures done < |wanting| ==> Wants(wanting[done], eventType) && wanting[done].id !in channels
      ensures forall k :: 0 <= k < done ==> Wants(wanting[k], eventType) ==> wanting[k].id in channels
      ensures forall k :: 0 <= k < done ==>
                Delivered(old(rows), rows, old(log), log, event, eventType, wanting[k], send)
      ensures forall pair :: !Concerns(pair, event, wanting[..done]) ==> Alike(old(rows), rows, old(log), log, pair)
    {
      ghost var rows0, log0 := rows, log;
      done := 0;
      while done < |wanting|
        invariant Valid() && done <= |wanting|
        invariant forall k :: 0 <= k < done ==> Wants(wanting[k], eventType) ==> wanting[k].id in channels
        invariant forall k :: 0 <= k < done ==>
                    Delivered(rows0, rows, log0, log, event, eventType, wanting[k], send)
        invariant forall pair :: !Concerns(pair, event, wanting[..done]) ==> Alike(rows0, rows, log0, log, pair)
      {
        var c := wanting[done];
        ghost var rows1, log1 := rows, log;
        if Wants(c, eventType) {
          var ok := HandleChannel(Pair(c.id, event), send(c.id));
          if !ok {
            return;
          }
        }
        OneMoreChannel(rows0, rows1, rows, log0, log1, log, event, eventType, wanting, done, send);
        done := done + 1;
      }
    }

    /** Claim, send, record, and give back if it is worth it; not if the channel is gone. */
    method HandleChannel(pair: Pair, result: Result) returns (ok: bool)
      requires Valid()
      modifies this`rows, this`log
      ensures Valid() && (ok <==> pair.channel in channels)
      ensures forall other :: other != pair ==> Alike(old(rows), rows, old(log), log, other)
      ensures if !ok || pair in old(rows) then rows == old(rows) && log == old(log)
              else RowTells(rows, pair, result) && Tries(log, pair) == Tries(old(log), pair) + [result]
    {
      var claimed := TryClaim(pair);
      if claimed != Won {
        return claimed == Taken;
      }
      forall other
        ensures Tries(log + [Attempt(pair, result)], other)
             == Tries(log, other) + if other == pair then [result] else []
      {
        TriesAppend(log, Attempt(pair, result), other);
      }
      log := log + [Attempt(pair, result)];
      ok := true;
      if result.ok {
        RecordOutcome(pair, true);
        return;
      }
      RecordOutcome(pair, false);
      if Retryable(result) {
        GiveBack(pair);
      }
    }
  }

  /** Nothing has happened to a pair. */
  predicate Alike(rows: map<Pair, Status>, rows': map<Pair, Status>, log: seq<Attempt>, log': seq<Attempt>,
                  pair: Pair) {
    Same(rows, rows', pair) && Tries(log', pair) == Tries(log, pair)
  }

  /** Handling one more channel settles that channel and leaves the others as they stood. */
  lemma OneMoreChannel(rows0: map<Pair, Status>, rows1: map<Pair, Status>, rows: map<Pair, Status>,
                       log0: seq<Attempt>, log1: seq<Attempt>, log: seq<Attempt>,
                       event: Id, eventType: string, wanting: seq<Channel>, n: nat, send: Id -> Result)
    requires n < |wanting| && forall i, j :: 0 <= i < j < |wanting| ==> wanting[i].id != wanting[j].id
    requires forall k :: 0 <= k < n ==> Delivered(rows0, rows1, log0, log1, event, eventType, wanting[k], send)
    requires forall pair :: !Concerns(pair, event, wanting[..n]) ==> Alike(rows0, rows1, log0, log1, pair)
    requires forall pair :: pair != Pair(wanting[n].id, event) ==> Alike(rows1, rows, log1, log, pair)
    requires Delivered(rows1, rows, log1, log, event, eventType, wanting[n], send)
    ensures forall k :: 0 <= k <= n ==> Delivered(rows0, rows, log0, log, event, eventType, wanting[k], send)
    ensures forall pair :: !Concerns(pair, event, wanting[..n + 1]) ==> Alike(rows0, rows, log0, log, pair)
  {
    var pair := Pair(wanting[n].id, event);
    assert !Concerns(pair, event, wanting[..n]);
    assert Alike(rows0, rows1, log0, log1, pair);
    forall k | 0 <= k < n ensures Delivered(rows0, rows, log0, log, event, eventType, wanting[k], send) {
      assert Alike(rows1, rows, log1, log, Pair(wanting[k].id, event));
    }
    forall other | !Concerns(other, event, wanting[..n + 1]) ensures Alike(rows0, rows, log0, log, other) {
      NotConcerned(other, event, wanting, n);
      assert Alike(rows0, rows1, log0, log1, other) && Alike(rows1, rows, log1, log, other);
    }
  }

  lemma NotConcerned(pair: Pair, event: Id, wanting: seq<Channel>, n: nat)
    requires n < |wanting| && !Concerns(pair, event, wanting[..n + 1])
    ensures !Concerns(pair, event, wanting[..n]) && pair != Pair(wanting[n].id, event)
  {
    assert wanting[..n + 1] == wanting[..n] + [wanting[n]];
    assert wanting[..n + 1][n] == wanting[n];
    assert forall k :: 0 <= k < n ==> wanting[..n][k] == wanting[..n + 1][k];
  }

  function Lookup(rows: map<Pair, Status>, pair: Pair): Option<Status> {
    if pair in rows then Some(rows[pair]) else None
  }

  predicate Same(a: map<Pair, Status>, b: map<Pair, Status>, pair: Pair) {
    Lookup(a, pair) == Lookup(b, pair)
  }

  /** The results of the attempts for a pair, in order. */
  function Tries(log: seq<Attempt>, pair: Pair): seq<Result> {
    if log == [] then []
    else
      var last := log[|log| - 1];
      Tries(log[..|log| - 1], pair) + if last.pair == pair then [last.result] else []
  }

  lemma TriesAppend(log: seq<Attempt>, a: Attempt, pair: Pair)
    ensures Tries(log + [a], pair) == Tries(log, pair) + if a.pair == pair then [a.result] else []
  {
    assert (log + [a])[..|log|] == log;
  }

  /** How one channel stands after an event was handled. */
  predicate Delivered(rows: map<Pair, Status>, rows': map<Pair, Status>, log: seq<Attempt>, log': seq<Attempt>,
                      event: Id, eventType: string, c: Channel, send: Id -> Result)
  {
    var pair := Pair(c.id, event);
    var wanted := c.active && (c.events == [] || eventType in c.events);
    if wanted && pair !in rows then
      RowTells(rows', pair, send(c.id)) && Tries(log', pair) == Tries(log, pair) + [send(c.id)]
    else Same(rows, rows', pair) && Tries(log', pair) == Tries(log, pair)
  }

  /** Handling a free pair without interruption is a run of the protocol: claim, send, record and,
      after a failure worth retrying, release. */
  lemma ChannelSteps(s: System, p: Pid, pair: Pair, result: Result)
    requires p in s.pcs && s.pcs[p].Idle? && pair.channel in s.channels && pair !in s.rows
    ensures exists s1, s2, s3, s4 ::
              && Next(s, Claim(p, pair), s1) && Next(s1, Send(p, result), s2) && Next(s2, Finish(p), s3)
              && (if Retryable(result) then Next(s3, Release(p), s4) else s4 == s3)
              && RowTells(s4.rows, pair, result) && s4.pcs == s.pcs
              && s4.log == s.log + [Attempt(pair, result)]
              && forall other :: other != pair ==> Same(s.rows, s4.rows, other)
  {
    var s1 := s.(rows := s.rows[pair := Sending], pcs := s.pcs[p := Claimed(pair)]);
    var s2 := s1.(log := s.log + [Attempt(pair, result)], pcs := s1.pcs[p := Answered(pair, result)]);
    var s3 := s2.(rows := FinishRow(s2.rows, pair, result.ok),
                  pcs := s2.pcs[p := if Retryable(result) then Closing(pair) else Idle]);
    var s4 := if Retryable(result) then s3.(rows := s3.rows - {pair}, pcs := s3.pcs[p := Idle]) else s3;
    assert Next(s, Claim(p, pair), s1) && Next(s1, Send(p, result), s2) && Next(s2, Finish(p), s3);
    assert s4.pcs == s.pcs;
  }
}
