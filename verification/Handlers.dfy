/** The tables as an object and the handlers as methods, written the way the orchestrator
    writes them: one conditional UPDATE after another.

    Each method is tied to the function that specifies it. `HandlerSteps` and `StartSteps`
    show that a handler run without interruption is a run of the protocol.
  */
module Handlers {
  import opened Options
  import opened Workflows
  import opened Interpreter
  import opened Protocol

  /** `advance` when nothing else writes in between. */
  function AdvanceDb(rules: Rules, db: Db, wid: Id): Db {
    if wid !in db.workflows then db
    else
      var p := Advance(rules, wid, db.workflows[wid], db.workflows[wid]);
      Db(db.workflows[wid := p.workflow], db.outbox + p.events)
  }

  function MarkStepDb(db: Db, wid: Id, i: nat, a: Answer): Db
    requires wid in db.workflows && i < |db.workflows[wid].steps|
  {
    var w := db.workflows[wid];
    db.(workflows := db.workflows[wid := SetStep(w, i, Record(w.steps[i], a))])
  }

  /** A plan can be inserted if the workflow is new and so is every job. */
  ghost predicate Insertable(db: Db, wid: Id, plan: seq<Step>) {
    && wid !in db.workflows && Plan(plan) == plan && DistinctJobs(plan)
    && forall i :: 0 <= i < |plan| ==> JobUnused(db, plan[i].jobId)
  }

  function StartDb(rules: Rules, db: Db, wid: Id, inputs: Inputs, plan: seq<Step>): Db {
    AdvanceDb(rules, db.(workflows := db.workflows[wid := Workflow(inputs, Running, None, plan)]), wid)
  }

  class WorkflowStore {
    var workflows: map<Id, Workflow>
    var outbox: seq<Event>

    constructor ()
      ensures Contents() == Db(map[], [])
    {
      workflows, outbox := map[], [];
    }

    function Contents(): Db
      reads this
    {
      Db(workflows, outbox)
    }

    /** Insert the workflow and its plan in one transaction, or leave everything as it was. */
    method Create(wid: Id, inputs: Inputs, plan: seq<Step>) returns (ok: bool)
      requires Plan(plan) == plan
      modifies this
      ensures ok <==> Insertable(old(Contents()), wid, plan)
      ensures Contents() == if ok
        then old(Contents()).(workflows := old(workflows)[wid := Workflow(inputs, Queued, None, plan)])
        else old(Contents())
    {
      if wid in workflows {
        return false;
      }
      var rows: seq<Step> := [];
      for i := 0 to |plan|
        invariant rows == plan[..i]
        invariant workflows == old(workflows) && outbox == old(outbox)
        invariant forall j :: 0 <= j < i ==> JobUnused(Contents(), plan[j].jobId)
        invariant DistinctJobs(plan[..i])
      {
        // the unique index on job_id, over this plan and over every other workflow
        if exists j :: 0 <= j < i && rows[j].jobId == plan[i].jobId {
          return false;
        }
        if wf, j :| wf in workflows && 0 <= j < |workflows[wf].steps| && workflows[wf].steps[j].jobId == plan[i].jobId {
          return false;
        }
        assert plan[..i + 1] == plan[..i] + [plan[i]];
        rows := rows + [plan[i]];
      }
      assert plan[..|plan|] == plan;
      workflows := workflows[wid := Workflow(inputs, Queued, None, rows)];
      ok := true;
    }

    /** Record a step's outcome if it is dispatched, and say whose step it was. */
    method MarkStep(jobId: Id, a: Answer) returns (wid: Option<Id>)
      modifies this
      ensures match wid
              case None => Contents() == old(Contents()) && forall v, i :: !Matches(old(Contents()), v, i, jobId)
              case Some(v) =>
                exists i :: Matches(old(Contents()), v, i, jobId) && Contents() == MarkStepDb(old(Contents()), v, i, a)
    {
      if v, i :| v in workflows && 0 <= i < |workflows[v].steps|
                 && workflows[v].steps[i].jobId == jobId && workflows[v].steps[i].status.Dispatched? {
        assert Matches(old(Contents()), v, i, jobId);
        workflows := workflows[v := SetStep(workflows[v], i, Record(workflows[v].steps[i], a))];
        wid := Some(v);
      } else {
        wid := None;
      }
    }

    method SetStatus(wid: Id, status: Status, error: Option<Failure>, events: seq<Event>)
      requires wid in workflows
      modifies this
      ensures Contents() == Db(old(workflows)[wid := old(workflows)[wid].(status := status, error := error)],
                               old(outbox) + events)
    {
      workflows := workflows[wid := workflows[wid].(status := status, error := error)];
      outbox := outbox + events;
    }

    method SkipStep(wid: Id, i: nat, reason: string)
      requires wid in workflows && i < |workflows[wid].steps|
      modifies this`workflows
      ensures workflows == old(workflows)[wid := MarkSkipped(old(workflows)[wid], i, reason)]
    {
      var w := workflows[wid];
      if w.steps[i].status.Pending? {
        w := w.(steps := w.steps[i := w.steps[i].(status := Skipped, error := Some(reason))]);
      }
      workflows := workflows[wid := w];
    }

    method MarkDispatched(wid: Id, i: nat)
      requires wid in workflows && i < |workflows[wid].steps|
      modifies this`workflows
      ensures workflows == old(workflows)[wid := Workflows.MarkDispatched(old(workflows)[wid], i)]
    {
      var w := workflows[wid];
      if w.steps[i].status.Pending? {
        w := w.(steps := w.steps[i := w.steps[i].(status := Dispatched)]);
      }
      workflows := workflows[wid := w];
    }

    method Finish(rules: Rules, wid: Id, status: Status, error: Option<Failure>)
      requires wid in workflows
      modifies this
      ensures var p := Workflows.Finish(rules, wid, old(workflows)[wid], old(workflows)[wid], status, error);
              Contents() == Db(old(workflows)[wid := p.workflow], old(outbox) + p.events)
    {
      var event := Finished(wid, status, error, Reports(workflows[wid].steps));
      var events := [];
      if rules.publishable(event) {
        events := [event];
      }
      SetStatus(wid, status, error, events);
    }

    method Dispatch(wid: Id, i: nat, request: Request)
      requires wid in workflows && i < |workflows[wid].steps|
      modifies this
      ensures var p := Workflows.Dispatch(wid, old(workflows)[wid], i, request);
              Contents() == Db(old(workflows)[wid := p.workflow], old(outbox) + p.events)
    {
      SetStatus(wid, Running, None, [Requested(wid, workflows[wid].steps[i].jobId, request)]);
      MarkDispatched(wid, i);
    }

    /** Dispatch the next step or finish the workflow, following the branches of the engine. */
    method Advance(rules: Rules, wid: Id)
      modifies this
      ensures Contents() == AdvanceDb(rules, old(Contents()), wid)
    {
      if wid !in workflows {
        return;
      }
      var w := workflows[wid];
      if w.status.Succeeded? || w.status.Broke? {
        assert workflows[wid := w] == workflows && outbox + [] == outbox;
        return;
      }
      if exists i :: 0 <= i < |w.steps| && w.steps[i].Fatal() {
        Finish(rules, wid, Broke, Some(Blame(w.steps, FirstFatal(w.steps))));
        return;
      }
      if exists i :: 0 <= i < |w.steps| && w.steps[i].status.Dispatched? {
        assert workflows[wid := w] == workflows && outbox + [] == outbox;
        return;
      }
      var i := NextPending(w.steps);
      if i == |w.steps| {
        Finish(rules, wid, Succeeded, None);
        return;
      }
      match rules.dispatch(w.inputs, w.steps, i)
      case Send(request) => Dispatch(wid, i, request);
      case Raised(reason) => Finish(rules, wid, Broke, Some(CannotDispatch(reason)));
      case NoWork(reason) =>
        SkipStep(wid, i, reason);
        AdvancePastSkip(rules, wid);
    }

    /** The second attempt: the rows are loaded again, and nothing to do is now an error. */
    method AdvancePastSkip(rules: Rules, wid: Id)
      requires wid in workflows
      modifies this
      ensures var p := Workflows.AdvancePastSkip(rules, wid, old(workflows)[wid]);
              Contents() == Db(old(workflows)[wid := p.workflow], old(outbox) + p.events)
    {
      var w := workflows[wid];
      var i := NextPending(w.steps);
      if i == |w.steps| {
        Finish(rules, wid, Succeeded, None);
        return;
      }
      match rules.dispatch(w.inputs, w.steps, i)
      case Send(request) => Dispatch(wid, i, request);
      case NoWork(reason) => Finish(rules, wid, Broke, Some(CannotDispatch(reason)));
      case Raised(reason) => Finish(rules, wid, Broke, Some(CannotDispatch(reason)));
    }

    /** A completion event, handled to the end; without a job id it is refused. */
    method OnCompletion(rules: Rules, jobId: Id, a: Answer) returns (wid: Option<Id>)
      modifies this
      ensures match wid
              case None => Contents() == old(Contents())
                           && (jobId == "" || forall v, i :: !Matches(old(Contents()), v, i, jobId))
              case Some(v) =>
                exists i :: Matches(old(Contents()), v, i, jobId)
                  && Contents() == AdvanceDb(rules, MarkStepDb(old(Contents()), v, i, a), v)
    {
      if jobId == "" {
        return None;
      }
      wid := MarkStep(jobId, a);
      if wid.Some? {
        Advance(rules, wid.value);
      }
    }

    method Start(rules: Rules, wid: Id, inputs: Inputs, plan: seq<Step>) returns (ok: bool)
      requires Plan(plan) == plan
      modifies this
      ensures ok <==> Insertable(old(Contents()), wid, plan)
      ensures Contents() == if ok then StartDb(rules, old(Contents()), wid, inputs, plan) else old(Contents())
    {
      ok := Create(wid, inputs, plan);
      if ok {
        SetStatus(wid, Running, None, []);
        ghost var w := Workflow(inputs, Running, None, plan);
        assert Contents() == old(Contents()).(workflows := old(workflows)[wid := w]);
        Advance(rules, wid);
      }
    }
  }

  /** A completion handled without interruption is three actions of the protocol. */
  lemma HandlerSteps(rules: Rules, s: System, p: Pid, wid: Id, i: nat, jobId: Id, a: Answer)
    requires p in s.pcs && s.pcs[p].Idle? && LockFree(s, wid) && wid in s.answers
    requires Matches(s.db, wid, i, jobId)
    ensures exists s1, s2, s3 ::
              && Next(rules, s, Accept(p, jobId, a), s1)
              && Next(rules, s1, Lock(p), s2)
              && Next(rules, s2, Commit(p), s3)
              && s3.db == AdvanceDb(rules, MarkStepDb(s.db, wid, i, a), wid) && s3.pcs == s.pcs
  {
    var s1 := Accepted(s, p, wid, i, a);
    var w := s1.db.workflows[wid];
    var s2 := s1.(pcs := s1.pcs[p := Locked(wid, w)]);
    var s3 := Committed(s2, p, wid, Workflows.Advance(rules, wid, w, w));
    assert Next(rules, s, Accept(p, jobId, a), s1);
    assert Next(rules, s1, Lock(p), s2);
    assert Next(rules, s2, Commit(p), s3);
    assert s3.pcs == s.pcs;
  }

  /** Starting a workflow without interruption is four actions of the protocol. */
  lemma StartSteps(rules: Rules, s: System, p: Pid, wid: Id, inputs: Inputs, plan: seq<Step>)
    requires p in s.pcs && s.pcs[p].Idle? && LockFree(s, wid) && Insertable(s.db, wid, plan)
    ensures exists s1, s2, s3, s4 ::
              && Next(rules, s, Create(p, wid, inputs, plan), s1)
              && Next(rules, s1, SetRunning(p), s2)
              && Next(rules, s2, Lock(p), s3)
              && Next(rules, s3, Commit(p), s4)
              && s4.db == StartDb(rules, s.db, wid, inputs, plan) && s4.pcs == s.pcs
  {
    var s1 := s.(db := s.db.(workflows := s.db.workflows[wid := Workflow(inputs, Queued, None, plan)]),
                 pcs := s.pcs[p := Created(wid)], answers := s.answers[wid := map[]]);
    var w := Workflow(inputs, Running, None, plan);
    var s2 := s1.(db := s1.db.(workflows := s1.db.workflows[wid := w]), pcs := s1.pcs[p := Owes(wid)]);
    var s3 := s2.(pcs := s2.pcs[p := Locked(wid, w)]);
    var s4 := Committed(s3, p, wid, Workflows.Advance(rules, wid, w, w));
    assert Next(rules, s, Create(p, wid, inputs, plan), s1);
    assert Next(rules, s1, SetRunning(p), s2);
    assert Next(rules, s2, Lock(p), s3);
    assert Next(rules, s3, Commit(p), s4);
    assert s2.db == s.db.(workflows := s.db.workflows[wid := w]);
    assert s4.db == StartDb(rules, s.db, wid, inputs, plan);
    assert s4.pcs == s.pcs;
  }
}
