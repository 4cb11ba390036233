/** Finishing a job: the job's row and the events it wants published are written in one
    transaction.
  */
module JobStore {
  import opened Options
  import opened Outbox
  import opened RelayLoop

  type Id = string

  datatype PendingEvent = PendingEvent(
    id: string, eventType: string, producer: string,
    correlation: Option<string>, causation: Option<string>, payload: string)

  datatype JobStatus = Queued | Running | Completed | Failed

  /** `derived` holds the columns computed from the result, `other` whatever else a kind of job records. */
  datatype Job = Job(
    subject: string, status: JobStatus, error: Option<string>, result: Option<string>,
    tenant: Option<string>, project: Option<string>, derived: map<string, string>, other: map<string, string>)

  datatype Change =
    | SetStatus(status: JobStatus)
    | SetError(error: Option<string>)
    | SetResult(result: Option<string>)
    | SetSubject(subject: string)
    | SetOther(field: string, value: string)

  /** What is particular to one table of jobs: the other fields its records have, and the columns
      that follow from a result. */
  datatype Layout = Layout(fields: set<string>, derive: Option<string> -> map<string, string>)

  /** A change to a field the records do not have. */
  predicate Unknown(layout: Layout, c: Change) {
    c.SetOther? && c.field !in layout.fields
  }

  function ApplyOne(layout: Layout, job: Job, c: Change): Job {
    match c
    case SetStatus(status) => job.(status := status)
    case SetError(error) => job.(error := error)
    case SetResult(result) => job.(result := result, derived := layout.derive(result))
    case SetSubject(subject) => job.(subject := subject)
    case SetOther(field, value) => job.(other := job.other[field := value])
  }

  function Apply(layout: Layout, job: Job, changes: seq<Change>): Job {
    if changes == [] then job
    else ApplyOne(layout, Apply(layout, job, changes[..|changes| - 1]), changes[|changes| - 1])
  }

  /** Two changes to the same field. */
  predicate SameField(a: Change, b: Change) {
    match a
    case SetStatus(_) => b.SetStatus?
    case SetError(_) => b.SetError?
    case SetResult(_) => b.SetResult?
    case SetSubject(_) => b.SetSubject?
    case SetOther(field, _) => b.SetOther? && b.field == field
  }

  /** The job has the value a change gives. */
  predicate Holds(layout: Layout, job: Job, c: Change) {
    match c
    case SetStatus(status) => job.status == status
    case SetError(error) => job.error == error
    case SetResult(result) => job.result == result && job.derived == layout.derive(result)
    case SetSubject(subject) => job.subject == subject
    case SetOther(field, value) => field in job.other && job.other[field] == value
  }

  /** Both jobs have the same in the field a change is about. */
  predicate Agree(a: Job, b: Job, c: Change) {
    match c
    case SetStatus(_) => a.status == b.status
    case SetError(_) => a.error == b.error
    case SetResult(_) => a.result == b.result && a.derived == b.derived
    case SetSubject(_) => a.subject == b.subject
    case SetOther(field, _) =>
      (field in a.other <==> field in b.other) && (field in a.other ==> a.other[field] == b.other[field])
  }

  predicate LastOn(changes: seq<Change>, k: nat) {
    k < |changes| && forall j :: k < j < |changes| ==> !SameField(changes[k], changes[j])
  }

  lemma OneChange(layout: Layout, job: Job, last: Change, c: Change)
    ensures var after := ApplyOne(layout, job, last);
            && Holds(layout, after, last)
            && (!SameField(c, last) ==> Agree(job, after, c) && (Holds(layout, job, c) <==> Holds(layout, after, c)))
  {
  }

  /** Of several changes to one field the last one counts, and fields no change is about stay as
      they were, the tenant and the project among them. */
  lemma {:induction false} LastChangeCounts(layout: Layout, job: Job, changes: seq<Change>)
    ensures var after := Apply(layout, job, changes);
            && (forall k: nat :: LastOn(changes, k) ==> Holds(layout, after, changes[k]))
            && (forall c :: (forall k :: 0 <= k < |changes| ==> !SameField(c, changes[k])) ==> Agree(job, after, c))
            && after.tenant == job.tenant && after.project == job.project
  {
    if changes != [] {
      var init, last := changes[..|changes| - 1], changes[|changes| - 1];
      LastChangeCounts(layout, job, init);
      var mid, after := Apply(layout, job, init), Apply(layout, job, changes);
      forall k: nat | LastOn(changes, k) ensures Holds(layout, after, changes[k]) {
        OneChange(layout, mid, last, changes[k]);
        if k < |init| {
          assert init[k] == changes[k] && LastOn(init, k) && !SameField(changes[k], last);
        }
      }
      forall c | forall k :: 0 <= k < |changes| ==> !SameField(c, changes[k]) ensures Agree(job, after, c) {
        assert forall k :: 0 <= k < |init| ==> init[k] == changes[k];
        OneChange(layout, mid, last, c);
        assert !SameField(c, last) && Agree(job, mid, c);
      }
    }
  }

  datatype Written = Done | UnknownField | UnknownJob

  /** What a staged event says: the tenant and project are the job's, and the correlation id is
      the job's own id unless the event brings one. */
  function EnvelopeOf(jobId: Id, job: Job, e: PendingEvent): Envelope {
    Envelope(e.id, e.eventType, e.producer, job.tenant, job.project,
             if e.correlation.Some? && e.correlation.value != "" then e.correlation.value else jobId,
             e.causation, e.payload)
  }

  /** An envelope that carries an event of this job. */
  predicate Conveys(jobId: Id, job: Job, e: PendingEvent, v: Envelope) {
    && v.id == e.id && v.eventType == e.eventType && v.producer == e.producer && v.payload == e.payload
    && v.tenant == job.tenant && v.project == job.project && v.causation == e.causation
    && (e.correlation == None || e.correlation == Some("") ==> v.correlation == jobId)
    && (e.correlation != None && e.correlation != Some("") ==> Some(v.correlation) == e.correlation)
  }

  /** Insert one event under the next row id, unless its event id is there already. */
  function StageOne(rows: map<RowId, Row>, row: RowId, e: Envelope): map<RowId, Row> {
    if e.id in EventIds(rows) then rows else rows[row := Row(e, None)]
  }

  /** Insert a list of events; a row id is used up even when nothing is inserted. */
  function StageAll(rows: map<RowId, Row>, next: RowId, events: seq<Envelope>): map<RowId, Row> {
    if events == [] then rows
    else
      var n := |events| - 1;
      StageOne(StageAll(rows, next, events[..n]), next + n, events[n])
  }

  predicate Below(rows: map<RowId, Row>, next: RowId) {
    forall r :: r in rows ==> r < next
  }

  predicate OnePerEvent(rows: map<RowId, Row>) {
    forall r, q :: r in rows && q in rows && rows[r].event.id == rows[q].event.id ==> r == q
  }

  /** What is in the table stays as it is, and what is added is unpublished, each event under
      its own row id counted from `next`. */
  predicate Extends(rows: map<RowId, Row>, after: map<RowId, Row>, next: RowId, events: seq<Envelope>) {
    && (forall r :: r in rows ==> r in after && after[r] == rows[r])
    && (forall r :: r in after && r !in rows ==> next <= r < next + |events| && after[r] == Row(events[r - next], None))
  }

  lemma StageOneSafely(rows: map<RowId, Row>, row: RowId, e: Envelope)
    requires Below(rows, row) && OnePerEvent(rows)
    ensures var after := StageOne(rows, row, e);
            Below(after, row + 1) && OnePerEvent(after)
  {
    if e.id !in EventIds(rows) {
      assert forall r :: r in rows ==> rows[r].event.id in EventIds(rows);
    }
  }

  /** However many events are staged, the table only gains them, and no event id is there twice. */
  lemma {:induction false} StagedSafely(rows: map<RowId, Row>, next: RowId, events: seq<Envelope>)
    requires Below(rows, next) && OnePerEvent(rows)
    ensures var after := StageAll(rows, next, events);
            Below(after, next + |events|) && OnePerEvent(after)
  {
    if events != [] {
      var n := |events| - 1;
      StagedSafely(rows, next, events[..n]);
      StageOneSafely(StageAll(rows, next, events[..n]), next + n, events[n]);
    }
  }

  lemma {:induction false} StagedExtends(rows: map<RowId, Row>, next: RowId, events: seq<Envelope>)
    requires Below(rows, next)
    ensures var after := StageAll(rows, next, events);
            Below(after, next + |events|) && Extends(rows, after, next, events)
  {
    if events != [] {
      StagedExtends(rows, next, events[..|events| - 1]);
    }
  }

  predicate AllStaged(rows: map<RowId, Row>, events: seq<Envelope>) {
    forall k :: 0 <= k < |events| ==> events[k].id in EventIds(rows)
  }

  lemma StageOneIds(rows: map<RowId, Row>, row: RowId, e: Envelope)
    requires row !in rows
    ensures EventIds(StageOne(rows, row, e)) == EventIds(rows) + {e.id}
  {
    var after := StageOne(rows, row, e);
    if e.id !in EventIds(rows) {
      assert row in after && after[row].event == e;
      forall id | id in EventIds(rows) ensures id in EventIds(after) {
        var r :| r in rows && rows[r].event.id == id;
        assert r in after && after[r].event.id == id;
      }
    }
  }

  /** Every event that was to be staged is in the table afterwards. */
  lemma {:induction false} StagedCompletely(rows: map<RowId, Row>, next: RowId, events: seq<Envelope>)
    requires Below(rows, next)
    ensures Below(StageAll(rows, next, events), next + |events|)
    ensures AllStaged(StageAll(rows, next, events), events)
  {
    if events != [] {
      var n := |events| - 1;
      StagedCompletely(rows, next, events[..n]);
      StageOneIds(StageAll(rows, next, events[..n]), next + n, events[n]);
    }
  }

  /** A write that is repeated with the same events adds nothing. */
  lemma {:induction false} StagingTwice(rows: map<RowId, Row>, next: RowId, events: seq<Envelope>)
    requires AllStaged(rows, events)
    ensures StageAll(rows, next, events) == rows
  {
    if events != [] {
      StagingTwice(rows, next, events[..|events| - 1]);
    }
  }

  /** Staging is a run of the outbox protocol: one `Stage` after another. */
  lemma {:induction false} StagingIsRun(s: System, next: RowId, events: seq<Envelope>)
    returns (actions: seq<Action>, s': System)
    requires forall r :: r in s.inserted ==> r < next
    ensures Leads(s, actions, s')
    ensures s'.rows == StageAll(s.rows, next, events) && s'.bus == s.bus && s'.relays == s.relays
    ensures forall r :: r in s'.inserted ==> r < next + |events|
  {
    if events == [] {
      actions, s' := [], s;
    } else {
      var n := |events| - 1;
      var mid;
      actions, mid := StagingIsRun(s, next, events[..n]);
      var a := Stage(next + n, events[n]);
      s' := if events[n].id in EventIds(mid.rows) then mid
            else mid.(rows := mid.rows[next + n := Row(events[n], None)],
                      inserted := mid.inserted[next + n := events[n]]);
      assert Next(mid, a, s');
      LeadsThen(s, actions, mid, a, s');
      actions := actions + [a];
    }
  }

  class PostgresJobStore {
    const layout: Layout
    var jobs: map<Id, Job>
    var rows: map<RowId, Row>
    var nextRow: RowId

    constructor (layout: Layout)
      ensures Valid() && this.layout == layout && jobs == map[] && rows == map[]
    {
      this.layout, jobs, rows, nextRow := layout, map[], map[], 0;
    }

    predicate Valid()
      reads this
    {
      Below(rows, nextRow) && OnePerEvent(rows)
    }

    /** A job that exists already is left as it is. */
    method Create(jobId: Id, subject: string, tenant: Option<string>, project: Option<string>)
      requires Valid()
      modifies this`jobs
      ensures Valid()
      ensures jobs == if jobId in old(jobs) then old(jobs)
                      else old(jobs)[jobId := Job(subject, Queued, None, None, tenant, project, map[], map[])]
    {
      if jobId !in jobs {
        jobs := jobs[jobId := Job(subject, Queued, None, None, tenant, project, map[], map[])];
      }
    }

    /** The row and its events together, or neither: a change to an unknown field or of an unknown
        job leaves everything as it was. */
    method Write(jobId: Id, changes: seq<Change>, events: seq<PendingEvent>) returns (r: Written)
      requires Valid()
      modifies this
      ensures Valid()
      ensures r == if exists c :: c in changes && Unknown(layout, c) then UnknownField
                   else if jobId in old(jobs) then Done else UnknownJob
      ensures r != Done ==> jobs == old(jobs) && rows == old(rows)
      ensures r == Done ==>
                && jobs == old(jobs)[jobId := Apply(layout, old(jobs)[jobId], changes)]
                && rows == StageAll(old(rows), old(nextRow),
                                    EnvelopesOf(jobId, Apply(layout, old(jobs)[jobId], changes), events))
                && Finished(old(jobs), jobs, old(rows), rows, old(nextRow), jobId, events)
    {
      for k := 0 to |changes|
        invariant forall j :: 0 <= j < k ==> !Unknown(layout, changes[j])
      {
        if changes[k].SetOther? && changes[k].field !in layout.fields {
          assert changes[k] in changes && Unknown(layout, changes[k]);
          return UnknownField;
        }
      }
      if jobId !in jobs {
        return UnknownJob;
      }
      var job := Changed(jobs[jobId], changes);
      jobs := jobs[jobId := job];
      StagedSafely(rows, nextRow, EnvelopesOf(jobId, job, events));
      StagedIsFinished(old(jobs), jobs, rows, nextRow, jobId, events);
      StageEvents(jobId, job, events);
      r := Done;
    }

    /** The changes, one after another. */
    method Changed(job: Job, changes: seq<Change>) returns (changed: Job)
      ensures changed == Apply(layout, job, changes)
    {
      changed := job;
      for k := 0 to |changes|
        invariant changed == Apply(layout, job, changes[..k])
      {
        assert changes[..k + 1][..k] == changes[..k];
        match changes[k]
        case SetResult(result) => changed := changed.(result := result, derived := layout.derive(result));
        case SetSubject(subject) => changed := changed.(subject := subject);
        case SetStatus(status) => changed := changed.(status := status);
        case SetError(error) => changed := changed.(error := error);
        case SetOther(field, value) => changed := changed.(other := changed.other[field := value]);
      }
      assert changes[..|changes|] == changes;
    }

    method StageEvents(jobId: Id, job: Job, events: seq<PendingEvent>)
      modifies this`rows, this`nextRow
      ensures rows == StageAll(old(rows), old(nextRow), EnvelopesOf(jobId, job, events))
      ensures nextRow == old(nextRow) + |events|
    {
      ghost var envelopes := EnvelopesOf(jobId, job, events);
      for k := 0 to |events|
        invariant rows == StageAll(old(rows), old(nextRow), envelopes[..k])
        invariant nextRow == old(nextRow) + k
      {
        assert envelopes[..k + 1][..k] == envelopes[..k];
        var e := EnvelopeOf(jobId, job, events[k]);
        if !(exists r :: r in rows && rows[r].event.id == e.id) {
          rows := rows[nextRow := Row(e, None)];
        }
        nextRow := nextRow + 1;
      }
      assert envelopes[..|events|] == envelopes;
    }

    method Complete(jobId: Id, result: string, events: seq<PendingEvent>) returns (ok: bool)
      requires Valid()
      modifies this
      ensures Valid() && (ok <==> jobId in old(jobs))
      ensures !ok ==> jobs == old(jobs) && rows == old(rows)
      ensures ok ==> Finished(old(jobs), jobs, old(rows), rows, old(nextRow), jobId, events)
                     && jobs[jobId] == old(jobs)[jobId].(status := Completed, result := Some(result), error := None,
                                                         derived := layout.derive(Some(result)))
    {
      var changes := [SetStatus(Completed), SetResult(Some(result)), SetError(None)];
      var r := Write(jobId, changes, events);
      ok := r == Done;
      if ok {
        ApplyThree(layout, old(jobs)[jobId], changes);
      }
    }

    method Fail(jobId: Id, error: string, events: seq<PendingEvent>) returns (ok: bool)
      requires Valid()
      modifies this
      ensures Valid() && (ok <==> jobId in old(jobs))
      ensures !ok ==> jobs == old(jobs) && rows == old(rows)
      ensures ok ==> Finished(old(jobs), jobs, old(rows), rows, old(nextRow), jobId, events)
                     && jobs[jobId] == old(jobs)[jobId].(status := Failed, error := Some(error))
    {
      var changes := [SetStatus(Failed), SetError(Some(error))];
      var r := Write(jobId, changes, events);
      ok := r == Done;
      if ok {
        ApplyTwo(layout, old(jobs)[jobId], changes);
      }
    }
  }

  lemma ApplyTwo(layout: Layout, job: Job, changes: seq<Change>)
    requires |changes| == 2
    ensures Apply(layout, job, changes) == ApplyOne(layout, ApplyOne(layout, job, changes[0]), changes[1])
  {
    assert Apply(layout, job, changes[..1]) == ApplyOne(layout, Apply(layout, job, changes[..1][..0]), changes[..1][0]);
    assert changes[..1][..0] == [] && changes[..1][0] == changes[0];
  }

  lemma ApplyThree(layout: Layout, job: Job, changes: seq<Change>)
    requires |changes| == 3
    ensures Apply(layout, job, changes)
         == ApplyOne(layout, ApplyOne(layout, ApplyOne(layout, job, changes[0]), changes[1]), changes[2])
  {
    ApplyTwo(layout, job, changes[..2]);
  }

  function EnvelopesOf(jobId: Id, job: Job, events: seq<PendingEvent>): (r: seq<Envelope>)
    ensures |r| == |events| && forall k :: 0 <= k < |r| ==> r[k] == EnvelopeOf(jobId, job, events[k])
  {
    seq(|events|, k requires 0 <= k < |events| => EnvelopeOf(jobId, job, events[k]))
  }

  /** Only this job changed, no row was touched, what was added carries its events, unpublished and
      in order, and each of them is in the outbox. */
  predicate Finished(jobs: map<Id, Job>, jobs': map<Id, Job>, rows: map<RowId, Row>, rows': map<RowId, Row>,
                     next: RowId, jobId: Id, events: seq<PendingEvent>)
  {
    && jobId in jobs && jobId in jobs' && jobs' == jobs[jobId := jobs'[jobId]]
    && (forall r :: r in rows ==> r in rows' && rows'[r] == rows[r])
    && (forall r :: r in rows' && r !in rows ==>
          && next <= r < next + |events| && rows'[r].publishedAt == None
          && Conveys(jobId, jobs'[jobId], events[r - next], rows'[r].event))
    && (forall k :: 0 <= k < |events| ==> events[k].id in EventIds(rows'))
  }

  lemma StagedIsFinished(jobs: map<Id, Job>, jobs': map<Id, Job>, rows: map<RowId, Row>, next: RowId, jobId: Id,
                         events: seq<PendingEvent>)
    requires jobId in jobs && jobId in jobs' && jobs' == jobs[jobId := jobs'[jobId]] && Below(rows, next)
    ensures var rows' := StageAll(rows, next, EnvelopesOf(jobId, jobs'[jobId], events));
            Finished(jobs, jobs', rows, rows', next, jobId, events)
  {
    var envelopes := EnvelopesOf(jobId, jobs'[jobId], events);
    StagedExtends(rows, next, envelopes);
    StagedCompletely(rows, next, envelopes);
    forall k | 0 <= k < |events| ensures Conveys(jobId, jobs'[jobId], events[k], envelopes[k]) {
    }
  }
}
