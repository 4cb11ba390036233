/** The orchestrator and the relays together: a request that was staged with a step's dispatch
    reaches the bus, or is still waiting to, whatever crashes on either side.
  */
module Delivery {
  import opened Workflows
  import opened Interpreter
  import opened RowInvariant
  import Orchestrator = Protocol
  import Orchestration
  import Outbox

  /** How the n-th event the orchestrator stages looks on the wire; event ids are never reused. */
  type Encoding = (nat, Event) -> Outbox.Envelope

  ghost predicate UniqueIds(encode: Encoding) {
    forall i: nat, j: nat, e: Event, f: Event :: encode(i, e).id == encode(j, f).id ==> i == j
  }

  /** `at` says which outbox row holds each event the orchestrator has staged. */
  datatype World = World(orch: Orchestrator.System, mail: Outbox.System, at: seq<Outbox.RowId>)

  datatype Action = Orchestrate(a: Orchestrator.Action, row: Outbox.RowId) | Deliver(b: Outbox.Action)

  /** An orchestrator action and the row it stages are one transaction. Everything else in the
      outbox belongs to other services, whose event ids are their own. */
  ghost predicate Next(rules: Rules, encode: Encoding, w: World, action: Action, w': World) {
    match action
    case Orchestrate(a, row) =>
      var n := |w.orch.db.outbox|;
      && Orchestrator.Next(rules, w.orch, a, w'.orch)
      && (if |w'.orch.db.outbox| == n then w'.mail == w.mail && w'.at == w.at
          else
            && |w'.orch.db.outbox| == n + 1
            && Outbox.Next(w.mail, Outbox.Stage(row, encode(n, w'.orch.db.outbox[n])), w'.mail)
            && w'.at == w.at + [row])
    case Deliver(b) =>
      && Outbox.Next(w.mail, b, w'.mail)
      && (b.Stage? ==> forall k: nat, e: Event :: encode(k, e).id != b.event.id)
      && w'.orch == w.orch && w'.at == w.at
  }

  ghost predicate IsRun(rules: Rules, encode: Encoding, run: seq<World>, actions: seq<Action>) {
    && |run| == |actions| + 1
    && Orchestrator.Init(run[0].orch) && Outbox.Init(run[0].mail) && run[0].at == []
    && forall i :: 0 <= i < |actions| ==> Next(rules, encode, run[i], actions[i], run[i + 1])
  }

  /** No orchestrator action stages more than one event, so every one of them is a step here. */
  lemma AtMostOneEvent(rules: Rules, s: Orchestrator.System, a: Orchestrator.Action, s': Orchestrator.System)
    requires Orchestrator.Next(rules, s, a, s')
    ensures s.db.outbox <= s'.db.outbox && |s'.db.outbox| <= |s.db.outbox| + 1
  {
  }

  predicate Filed(encode: Encoding, outbox: seq<Event>, mail: Outbox.System, at: seq<Outbox.RowId>) {
    && |at| == |outbox|
    && forall k :: 0 <= k < |outbox| ==> at[k] in mail.inserted && mail.inserted[at[k]] == encode(k, outbox[k])
  }

  /** Rows under the orchestrator's event ids are events it has staged. */
  ghost predicate NoneAhead(encode: Encoding, n: nat, mail: Outbox.System) {
    forall row, k: nat, e: Event :: row in mail.rows && mail.rows[row].event.id == encode(k, e).id ==> k < n
  }

  ghost predicate Linked(encode: Encoding, w: World) {
    && Outbox.Inv(w.mail)
    && Filed(encode, w.orch.db.outbox, w.mail, w.at)
    && NoneAhead(encode, |w.orch.db.outbox|, w.mail)
  }

  lemma StageLinks(encode: Encoding, w: World, event: Event, row: Outbox.RowId, w': World)
    requires UniqueIds(encode) && Linked(encode, w)
    requires w'.orch.db.outbox == w.orch.db.outbox + [event] && w'.at == w.at + [row]
    requires Outbox.Next(w.mail, Outbox.Stage(row, encode(|w.orch.db.outbox|, event)), w'.mail)
    ensures Linked(encode, w')
  {
    var n := |w.orch.db.outbox|;
    var envelope := encode(n, event);
    Outbox.NextKeeps(w.mail, Outbox.Stage(row, envelope), w'.mail);
    assert envelope.id !in Outbox.EventIds(w.mail.rows);
  }

  lemma DeliverLinks(encode: Encoding, w: World, b: Outbox.Action, w': World)
    requires Linked(encode, w) && Outbox.Next(w.mail, b, w'.mail)
    requires b.Stage? ==> forall k: nat, e: Event :: encode(k, e).id != b.event.id
    requires w'.orch == w.orch && w'.at == w.at
    ensures Linked(encode, w')
  {
    Outbox.NextKeeps(w.mail, b, w'.mail);
  }

  lemma {:induction false} RunLinks(rules: Rules, encode: Encoding, run: seq<World>, actions: seq<Action>, i: nat)
    requires UniqueIds(encode) && IsRun(rules, encode, run, actions) && i < |run|
    ensures Linked(encode, run[i])
  {
    if i > 0 {
      RunLinks(rules, encode, run, actions, i - 1);
      var w, w' := run[i - 1], run[i];
      match actions[i - 1]
      case Deliver(b) => DeliverLinks(encode, w, b, w');
      case Orchestrate(a, row) => OrchestrateLinks(rules, encode, w, a, row, w');
    }
  }

  lemma OrchestrateLinks(rules: Rules, encode: Encoding, w: World, a: Orchestrator.Action, row: Outbox.RowId, w': World)
    requires UniqueIds(encode) && Linked(encode, w) && Next(rules, encode, w, Orchestrate(a, row), w')
    ensures Linked(encode, w')
  {
    AtMostOneEvent(rules, w.orch, a, w'.orch);
    var n := |w.orch.db.outbox|;
    if |w'.orch.db.outbox| == n + 1 {
      StageLinks(encode, w, w'.orch.db.outbox[n], row, w');
    } else {
      assert w'.orch.db.outbox == w.orch.db.outbox;
    }
  }

  /** The orchestrator's part of a run, which is a run of the orchestrator up to idle moments. */
  lemma {:induction false} OrchestratorKeeps(rules: Rules, encode: Encoding, run: seq<World>, actions: seq<Action>,
                                             i: nat)
    requires IsRun(rules, encode, run, actions) && i < |run|
    ensures Orchestrator.Inv(Orchestrator.RowInvOf(rules), run[i].orch)
  {
    if i == 0 {
      Orchestrator.InitFits(rules, run[0].orch);
    } else {
      OrchestratorKeeps(rules, encode, run, actions, i - 1);
      match actions[i - 1]
      case Deliver(b) =>
      case Orchestrate(a, row) => Orchestrator.NextKeeps(rules, run[i - 1].orch, a, run[i].orch);
    }
  }

  /** The request of a step that has been asked for was staged. */
  lemma RequestStaged(outbox: seq<Event>, wid: Id, w: Workflow, j: nat)
    requires DistinctJobs(w.steps) && LogAgrees(w, Orchestrator.Staged(outbox, wid))
    requires j < |w.steps| && Requestable(w.steps[j])
    ensures exists k, request :: 0 <= k < |outbox| && outbox[k] == Requested(wid, w.steps[j].jobId, request)
  {
    Orchestration.AskedCount(w.steps, j);
    assert w.steps[j].jobId in Jobs(Orchestrator.Staged(outbox, wid));
    FindRequest(outbox, wid, w.steps[j].jobId);
  }

  lemma {:induction false} FindRequest(outbox: seq<Event>, wid: Id, jobId: Id)
    requires jobId in Jobs(Orchestrator.Staged(outbox, wid))
    ensures exists k, request :: 0 <= k < |outbox| && outbox[k] == Requested(wid, jobId, request)
  {
    var head := if outbox[0].workflowId == wid then [outbox[0]] else [];
    JobsConcat(head, Orchestrator.Staged(outbox[1..], wid));
    if jobId in Jobs(head) {
      assert outbox[0] == Requested(wid, jobId, outbox[0].request);
    } else {
      FindRequest(outbox[1..], wid, jobId);
      var k, request :| 0 <= k < |outbox[1..]| && outbox[1..][k] == Requested(wid, jobId, request);
      assert outbox[k + 1] == Requested(wid, jobId, request);
    }
  }

  /** Every event the orchestrator ever staged, request or announcement, is on the bus as it was
      committed, or unpublished in the outbox. */
  lemma EventsGetOut(rules: Rules, encode: Encoding, run: seq<World>, actions: seq<Action>, i: nat, k: nat)
    requires UniqueIds(encode) && IsRun(rules, encode, run, actions) && i < |run|
    requires k < |run[i].orch.db.outbox|
    ensures k < |run[i].at| && OutOrWaiting(run[i].mail, run[i].at[k], encode(k, run[i].orch.db.outbox[k]))
  {
    RunLinks(rules, encode, run, actions, i);
    Delivered(run[i].mail, run[i].at[k]);
  }

  /** Every step that is dispatched, completed or failed had its request committed to the outbox,
      and that request is on the bus as it was committed, or unpublished in the outbox. */
  lemma RequestsGetOut(rules: Rules, encode: Encoding, run: seq<World>, actions: seq<Action>, i: nat, wid: Id, j: nat)
    requires UniqueIds(encode) && IsRun(rules, encode, run, actions) && i < |run|
    requires wid in run[i].orch.db.workflows && j < |run[i].orch.db.workflows[wid].steps|
    requires Requestable(run[i].orch.db.workflows[wid].steps[j])
    ensures exists k, request, row ::
              && 0 <= k < |run[i].orch.db.outbox|
              && run[i].orch.db.outbox[k] == Requested(wid, run[i].orch.db.workflows[wid].steps[j].jobId, request)
              && OutOrWaiting(run[i].mail, row, encode(k, run[i].orch.db.outbox[k]))
  {
    OrchestratorKeeps(rules, encode, run, actions, i);
    var w := run[i];
    assert Orchestrator.RowInvOf(rules)(wid, w.orch.db.workflows[wid], w.orch.answers[wid],
                                        Orchestrator.Staged(w.orch.db.outbox, wid));
    RequestStaged(w.orch.db.outbox, wid, w.orch.db.workflows[wid], j);
    var k, request :| 0 <= k < |w.orch.db.outbox|
      && w.orch.db.outbox[k] == Requested(wid, w.orch.db.workflows[wid].steps[j].jobId, request);
    EventsGetOut(rules, encode, run, actions, i, k);
    assert OutOrWaiting(w.mail, w.at[k], encode(k, w.orch.db.outbox[k]));
  }

  predicate OutOrWaiting(mail: Outbox.System, row: Outbox.RowId, envelope: Outbox.Envelope) {
    || (Outbox.Unpublished(mail.rows, row) && mail.rows[row].event == envelope)
    || (exists b :: 0 <= b < |mail.bus| && mail.bus[b] == Outbox.Sent(row, envelope))
  }

  lemma Delivered(mail: Outbox.System, row: Outbox.RowId)
    requires Outbox.Inv(mail) && row in mail.inserted
    ensures OutOrWaiting(mail, row, mail.inserted[row])
  {
    if !Outbox.Unpublished(mail.rows, row) {
      assert Outbox.Balanced(mail, row);
      Outbox.CopyIsThere(mail.bus, row);
      var b :| 0 <= b < |mail.bus| && mail.bus[b].row == row;
      assert mail.bus[b] == Outbox.Sent(row, mail.inserted[row]);
    }
  }
}
