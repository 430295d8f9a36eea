/** The walk-away queue both managers are built on: one lock, a pending FIFO, one running job,
    and the indivisible "record the outcome, clear running, promote the next". Every lock hold is
    one action; `AnalysisManager` and `TrainingManager` differ only in the two policies. */
module JobQueue {
  import opened Wrappers

  /** The identity duplicates are dropped by: `(kind, params, reanalyze, since, until,
      motion_only)` for a sweep, `(kind, params)` for a training job. */
  datatype Key = Key(kind: string, params: Option<seq<int>>, reanalyze: bool,
                     since: Option<int>, until: Option<int>, motionOnly: bool)

  /** A job as built at enqueue. `id` is drawn from the manager's counter, once per request. */
  datatype Job = Job(id: nat, key: Key)

  /** Sweeps drop a duplicate of a running or a pending job; trainings only of the running one. */
  datatype Policy = Sweeps | Trainings

  /** How the run function came back: it raised, it gave up on a cancel, or it returned, with a
      summary or (sweeps always) without. */
  datatype RunEnd = Raised(error: string) | EmbedCancelled | Returned(summary: bool)

  datatype Terminal = Done | Failed | Canceled

  datatype Record = Record(job: Job, state: Terminal)

  const HISTORY_LIMIT: nat := 20

  /** `stop` is the running job's own event. The rest from `active` on is history: started and
      unfinished workers, accepted jobs in order, those dropped before running, outcomes in
      order, and the jobs whose event a cancel set while they were current. */
  datatype Queue = Queue(
    running: Option<Job>, stop: bool, pending: seq<Job>, error: Option<string>, history: seq<Record>,
    active: seq<Job>, used: set<nat>, accepted: seq<Job>, dropped: set<nat>, finished: seq<Record>, targeted: set<nat>
  )

  const EMPTY := Queue(None, false, [], None, [], [], {}, [], {}, [], {})

  /** One lock hold each. Only `AnalysisManager` offers `CancelJob`; runs without it are runs too. */
  datatype Action =
    | Enqueue(job: Job)
    | Cancel
    | CancelJob(id: nat)
    | ClearPending
    | StopAll
    | Finish(job: Job, end: RunEnd)

  ghost predicate Enabled(q: Queue, a: Action) {
    match a
    case Enqueue(job) => job.id !in q.used
    case Finish(job, _) => job in q.active
    case _ => true
  }

  function Live(q: Queue): seq<Job> {
    (if q.running.Some? then [q.running.value] else []) + q.pending
  }

  /** The first job of `jobs` with this key, if any. */
  function FindKey(jobs: seq<Job>, key: Key): (r: Option<nat>)
    ensures r.Some? ==> r.value < |jobs| && jobs[r.value].key == key
    ensures r.None? ==> forall i :: 0 <= i < |jobs| ==> jobs[i].key != key
  {
    if jobs == [] then None
    else if jobs[0].key == key then Some(0)
    else
      match FindKey(jobs[1..], key)
      case None => None
      case Some(i) => Some(i + 1)
  }

  /** Where a request joins an existing job, if it does: 0 is running, then the pending ones. */
  function Duplicate(q: Queue, policy: Policy, key: Key): Option<nat> {
    if q.running.Some? && q.running.value.key == key then Some(0)
    else if policy.Trainings? then None
    else
      match FindKey(q.pending, key)
      case None => None
      case Some(i) => Some(i + 1)
  }

  /** `_promote_locked`: a fresh event, the head job current, its worker prepared. */
  function Promoted(q: Queue): Queue {
    if q.running.Some? || q.pending == [] then q
    else
      q.(running := Some(q.pending[0]), stop := false, error := None, pending := q.pending[1..],
         active := q.active + [q.pending[0]])
  }

  function Enqueued(q: Queue, policy: Policy, job: Job): Queue {
    var seen := q.(used := q.used + {job.id});
    if Duplicate(q, policy, job.key).Some? then seen
    else Promoted(seen.(pending := q.pending + [job], accepted := q.accepted + [job]))
  }

  /** What `_enqueue` reports: how many jobs must finish first, and whether it joined one. */
  function Reported(q: Queue, policy: Policy, job: Job): (nat, bool) {
    match Duplicate(q, policy, job.key)
    case Some(i) => (i, true)
    case None => (if q.running.Some? then |q.pending| + 1 else 0, false)
  }

  function Signalled(q: Queue): Queue {
    if q.running.Some? then q.(stop := true, targeted := q.targeted + {q.running.value.id}) else q
  }

  function Ids(jobs: seq<Job>): set<nat> {
    set i | 0 <= i < |jobs| :: jobs[i].id
  }

  function Without(jobs: seq<Job>, ids: set<nat>): seq<Job> {
    if jobs == [] then []
    else
      var front := Without(jobs[..|jobs| - 1], ids);
      if jobs[|jobs| - 1].id in ids then front else front + [jobs[|jobs| - 1]]
  }

  /** A pending job dropped by id leaves the others in their order. */
  function CanceledById(q: Queue, id: nat): Queue {
    if q.running.Some? && q.running.value.id == id then Signalled(q)
    else if id in Ids(q.pending) then q.(pending := Without(q.pending, {id}), dropped := q.dropped + {id})
    else q
  }

  function Cleared(q: Queue): Queue {
    q.(pending := [], dropped := q.dropped + Ids(q.pending))
  }

  /** The terminal state the worker's `finally` writes. A returned summary outranks a stop. */
  function Verdict(policy: Policy, end: RunEnd, stop: bool): Terminal {
    match end
    case Raised(_) => Failed
    case EmbedCancelled => if stop then Canceled else Done
    case Returned(summary) => if summary && policy.Trainings? then Done else if stop then Canceled else Done
  }

  function Recent(history: seq<Record>, r: Record): seq<Record> {
    if |history| < HISTORY_LIMIT then [r] + history else ([r] + history)[..HISTORY_LIMIT]
  }

  function Remove(jobs: seq<Job>, job: Job): seq<Job> {
    if jobs == [] then [] else if jobs[0] == job then jobs[1..] else [jobs[0]] + Remove(jobs[1..], job)
  }

  /** The worker's `finally`, one lock hold: record the outcome, clear running, promote. */
  function Recorded(q: Queue, policy: Policy, job: Job, end: RunEnd): Queue {
    var r := Record(job, Verdict(policy, end, q.stop));
    q.(error := if end.Raised? then Some(end.error) else q.error,
       history := Recent(q.history, r),
       finished := q.finished + [r],
       active := Remove(q.active, job),
       running := None,
       stop := false)
  }

  function Finished(q: Queue, policy: Policy, job: Job, end: RunEnd): Queue {
    Promoted(Recorded(q, policy, job, end))
  }

  function Apply(q: Queue, policy: Policy, a: Action): Queue {
    match a
    case Enqueue(job) => Enqueued(q, policy, job)
    case Cancel => Signalled(q)
    case CancelJob(id) => CanceledById(q, id)
    case ClearPending => Cleared(q)
    case StopAll => Signalled(Cleared(q))
    case Finish(job, end) => Finished(q, policy, job, end)
  }

  ghost predicate Steps(policy: Policy, q: Queue, a: Action, r: Queue) {
    Enabled(q, a) && r == Apply(q, policy, a)
  }

  ghost predicate IsRun(policy: Policy, states: seq<Queue>, actions: seq<Action>) {
    && |states| == |actions| + 1
    && states[0] == EMPTY
    && forall i {:trigger actions[i]} :: 0 <= i < |actions| ==> Steps(policy, states[i], actions[i], states[i + 1])
  }

  // --- The invariant -------------------------------------------------------------------

  ghost predicate DistinctIds(jobs: seq<Job>) {
    forall i, j :: 0 <= i < j < |jobs| ==> jobs[i].id != jobs[j].id
  }

  ghost predicate DistinctKeys(jobs: seq<Job>) {
    forall i, j :: 0 <= i < j < |jobs| ==> jobs[i].key != jobs[j].key
  }

  function Jobs(records: seq<Record>): (r: seq<Job>)
    ensures |r| == |records|
  {
    seq(|records|, i requires 0 <= i < |records| => records[i].job)
  }

  /** One worker at most, and exactly while a job is running. */
  ghost predicate Serial(q: Queue) {
    && q.active == (if q.running.Some? then [q.running.value] else [])
    && (q.running.None? ==> q.pending == [])
  }

  /** What has finished, then what runs, then what waits is the accepted jobs in the order they
      were accepted, minus those dropped before they ran. */
  ghost predicate InOrder(q: Queue) {
    && Jobs(q.finished) + Live(q) == Without(q.accepted, q.dropped)
    && DistinctIds(q.accepted)
    && Ids(q.accepted) <= q.used
    && q.dropped <= Ids(q.accepted)
  }

  /** The running job's event is set exactly if a cancel has targeted it, and a record says
      canceled only of a targeted job. */
  ghost predicate Isolated(q: Queue) {
    && q.targeted <= Ids(Jobs(q.finished) + Live(q))
    && (q.running.Some? ==> (q.stop <==> q.running.value.id in q.targeted))
    && (forall i :: 0 <= i < |q.pending| ==> q.pending[i].id !in q.targeted)
    && (forall i :: 0 <= i < |q.finished| ==> (q.finished[i].state.Canceled? ==> q.finished[i].job.id in q.targeted))
  }

  /** The newest outcomes first, at most `HISTORY_LIMIT` of them. */
  function Newest(finished: seq<Record>): seq<Record> {
    var n := if |finished| < HISTORY_LIMIT then |finished| else HISTORY_LIMIT;
    seq(n, i requires 0 <= i < |finished| => finished[|finished| - 1 - i])
  }

  /** What a status poll sees: recent outcomes, and an error exactly if the last run failed and no
      job has been promoted since. */
  ghost predicate Reporting(q: Queue) {
    && q.history == Newest(q.finished)
    && (q.error.Some? <==> q.running.None? && q.finished != [] && q.finished[|q.finished| - 1].state.Failed?)
  }

  ghost predicate Inv(policy: Policy, q: Queue) {
    && Serial(q)
    && InOrder(q)
    && Isolated(q)
    && Reporting(q)
    && (policy.Sweeps? ==> DistinctKeys(Live(q)))
  }

  // --- Dropping jobs from a sequence ---------------------------------------------------

  lemma WithoutSnoc(jobs: seq<Job>, job: Job, ids: set<nat>)
    ensures Without(jobs + [job], ids) == Without(jobs, ids) + if job.id in ids then [] else [job]
  {
    assert (jobs + [job])[..|jobs|] == jobs;
  }

  lemma {:induction false} WithoutConcat(a: seq<Job>, b: seq<Job>, ids: set<nat>)
    ensures Without(a + b, ids) == Without(a, ids) + Without(b, ids)
  {
    if b == [] {
      assert a + b == a;
    } else {
      var front, job := b[..|b| - 1], b[|b| - 1];
      WithoutConcat(a, front, ids);
      assert a + b == (a + front) + [job];
      WithoutSnoc(a + front, job, ids);
      WithoutSnoc(front, job, ids);
      assert front + [job] == b;
    }
  }

  lemma {:induction false} WithoutTwice(jobs: seq<Job>, a: set<nat>, b: set<nat>)
    ensures Without(Without(jobs, a), b) == Without(jobs, a + b)
  {
    if jobs != [] {
      var front, job := jobs[..|jobs| - 1], jobs[|jobs| - 1];
      WithoutTwice(front, a, b);
      if job.id !in a {
        WithoutSnoc(Without(front, a), job, b);
      }
    }
  }

  lemma {:induction false} WithoutOthers(jobs: seq<Job>, ids: set<nat>)
    requires Ids(jobs) !! ids
    ensures Without(jobs, ids) == jobs
  {
    if jobs != [] {
      var front := jobs[..|jobs| - 1];
      assert jobs[|jobs| - 1].id in Ids(jobs);
      assert Ids(front) <= Ids(jobs);
      WithoutOthers(front, ids);
    }
  }

  lemma {:induction false} WithoutAll(jobs: seq<Job>, ids: set<nat>)
    requires Ids(jobs) <= ids
    ensures Without(jobs, ids) == []
  {
    if jobs != [] {
      assert jobs[|jobs| - 1].id in Ids(jobs);
      WithoutAll(jobs[..|jobs| - 1], ids);
    }
  }

  lemma {:induction false} WithoutIsPart(jobs: seq<Job>, ids: set<nat>, job: Job)
    requires job in Without(jobs, ids)
    ensures job in jobs && job.id !in ids
  {
    if job != jobs[|jobs| - 1] || job.id in ids {
      WithoutIsPart(jobs[..|jobs| - 1], ids, job);
    }
  }

  lemma {:induction false} WithoutHas(jobs: seq<Job>, ids: set<nat>, i: nat)
    requires i < |jobs| && jobs[i].id !in ids
    ensures jobs[i] in Without(jobs, ids)
  {
    if i < |jobs| - 1 {
      WithoutHas(jobs[..|jobs| - 1], ids, i);
    }
  }

  lemma WithoutIds(jobs: seq<Job>, ids: set<nat>)
    ensures Ids(Without(jobs, ids)) == Ids(jobs) - ids
  {
    var left := Without(jobs, ids);
    forall id | id in Ids(jobs) - ids
      ensures id in Ids(left)
    {
      var i :| 0 <= i < |jobs| && jobs[i].id == id;
      WithoutHas(jobs, ids, i);
      var j :| 0 <= j < |left| && left[j] == jobs[i];
    }
    forall id | id in Ids(left)
      ensures id in Ids(jobs) - ids
    {
      var j :| 0 <= j < |left| && left[j].id == id;
      WithoutIsPart(jobs, ids, left[j]);
      var i :| 0 <= i < |jobs| && jobs[i] == left[j];
    }
  }

  lemma {:induction false} WithoutKeepsDistinct(jobs: seq<Job>, ids: set<nat>)
    requires DistinctIds(jobs)
    ensures DistinctIds(Without(jobs, ids))
  {
    if jobs != [] {
      var front, job := jobs[..|jobs| - 1], jobs[|jobs| - 1];
      var left := Without(front, ids);
      WithoutKeepsDistinct(front, ids);
      forall j | 0 <= j < |left|
        ensures left[j].id != job.id
      {
        WithoutIsPart(front, ids, left[j]);
      }
    }
  }

  lemma {:induction false} WithoutKeepsKeys(jobs: seq<Job>, ids: set<nat>)
    requires DistinctKeys(jobs)
    ensures DistinctKeys(Without(jobs, ids))
    ensures forall j :: j in Without(jobs, ids) ==> j in jobs
  {
    if jobs != [] {
      var front, job := jobs[..|jobs| - 1], jobs[|jobs| - 1];
      WithoutKeepsKeys(front, ids);
      forall j | j in Without(front, ids)
        ensures j in jobs && j.key != job.key
      {
        var i :| 0 <= i < |front| && front[i] == j;
        assert jobs[i] == j;
      }
    }
  }

  /** Every accepted job is in exactly one place: its id occurs once in finished, running, pending
      taken together, unless it was dropped, and then it occurs in none of them. */
  lemma LiveAndFinishedAreDistinct(q: Queue)
    requires InOrder(q)
    ensures DistinctIds(Jobs(q.finished) + Live(q))
    ensures Ids(Jobs(q.finished) + Live(q)) == Ids(q.accepted) - q.dropped
  {
    WithoutKeepsDistinct(q.accepted, q.dropped);
    WithoutIds(q.accepted, q.dropped);
  }

  // --- Every action keeps it -----------------------------------------------------------

  lemma PromotionKeepsOrder(q: Queue)
    requires InOrder(q) && q.running.None?
    ensures InOrder(Promoted(q))
  {
    if q.pending != [] {
      assert [q.pending[0]] + q.pending[1..] == q.pending;
      assert Live(Promoted(q)) == Live(q);
    }
  }

  lemma EnqueueKeepsOrder(q: Queue, policy: Policy, job: Job)
    requires InOrder(q) && Serial(q) && job.id !in q.used
    ensures InOrder(Enqueued(q, policy, job))
  {
    if Duplicate(q, policy, job.key).None? {
      AppendKeepsOrder(q, job);
      if q.running.None? {
        PromotionKeepsOrder(Grown(q, job));
      }
    }
  }

  /** With an accepted request waiting at the end. */
  function Grown(q: Queue, job: Job): Queue {
    q.(used := q.used + {job.id}, pending := q.pending + [job], accepted := q.accepted + [job])
  }

  lemma AppendKeepsOrder(q: Queue, job: Job)
    requires InOrder(q) && job.id !in q.used
    ensures InOrder(Grown(q, job))
  {
    WithoutSnoc(q.accepted, job, q.dropped);
    assert Live(Grown(q, job)) == Live(q) + [job];
    assert Jobs(q.finished) + (Live(q) + [job]) == (Jobs(q.finished) + Live(q)) + [job];
    assert forall i :: 0 <= i < |q.accepted| ==> q.accepted[i].id in Ids(q.accepted);
    IdsSnoc(q.accepted, job);
  }

  lemma IdsSnoc(jobs: seq<Job>, job: Job)
    ensures Ids(jobs + [job]) == Ids(jobs) + {job.id}
  {
    var all := jobs + [job];
    forall id | id in Ids(jobs) + {job.id}
      ensures id in Ids(all)
    {
      if id in Ids(jobs) {
        var i :| 0 <= i < |jobs| && jobs[i].id == id;
        assert all[i].id == id;
      } else {
        assert all[|jobs|].id == id;
      }
    }
  }

  /** Everything before the pending jobs. */
  function Head(q: Queue): seq<Job> {
    Jobs(q.finished) + if q.running.Some? then [q.running.value] else []
  }

  lemma HeadThenPending(q: Queue)
    requires InOrder(q)
    ensures Head(q) + q.pending == Without(q.accepted, q.dropped)
    ensures DistinctIds(Head(q) + q.pending)
    ensures Ids(q.pending) <= Ids(q.accepted)
  {
    assert Jobs(q.finished) + Live(q) == Head(q) + q.pending;
    LiveAndFinishedAreDistinct(q);
    forall i | 0 <= i < |q.pending|
      ensures q.pending[i].id in Ids(q.accepted)
    {
      assert (Head(q) + q.pending)[|Head(q)| + i] == q.pending[i];
      assert q.pending[i].id in Ids(Head(q) + q.pending);
    }
  }

  /** Taking out the one job with an id is dropping that id. */
  lemma RemoveAt(jobs: seq<Job>, index: nat)
    requires DistinctIds(jobs) && index < |jobs|
    ensures Without(jobs, {jobs[index].id}) == jobs[..index] + jobs[index + 1..]
  {
    WithoutAround(jobs[..index], jobs[index], jobs[index + 1..]);
    assert jobs == (jobs[..index] + [jobs[index]]) + jobs[index + 1..];
  }

  lemma WithoutAround(a: seq<Job>, job: Job, b: seq<Job>)
    requires (forall i :: 0 <= i < |a| ==> a[i].id != job.id) && (forall i :: 0 <= i < |b| ==> b[i].id != job.id)
    ensures Without((a + [job]) + b, {job.id}) == a + b
  {
    WithoutConcat(a + [job], b, {job.id});
    WithoutSnoc(a, job, {job.id});
    WithoutOthers(a, {job.id});
    WithoutOthers(b, {job.id});
    assert a + [] == a;
  }

  lemma PendingIsDistinct(q: Queue)
    requires InOrder(q)
    ensures DistinctIds(q.pending)
  {
    HeadThenPending(q);
    forall i, j | 0 <= i < j < |q.pending|
      ensures q.pending[i].id != q.pending[j].id
    {
      var all, h := Head(q) + q.pending, |Head(q)|;
      assert all[h + i] == q.pending[i] && all[h + j] == q.pending[j];
    }
  }

  /** Dropping pending jobs by id leaves finished and running alone. */
  lemma DropKeepsOrder(q: Queue, ids: set<nat>)
    requires InOrder(q) && ids <= Ids(q.pending)
    ensures InOrder(q.(pending := Without(q.pending, ids), dropped := q.dropped + ids))
  {
    var r := q.(pending := Without(q.pending, ids), dropped := q.dropped + ids);
    HeadThenPending(q);
    calc {
      Without(q.accepted, q.dropped + ids);
      { WithoutTwice(q.accepted, q.dropped, ids); }
      Without(Head(q) + q.pending, ids);
      { WithoutConcat(Head(q), q.pending, ids); }
      Without(Head(q), ids) + r.pending;
      { HeadIsDisjoint(Head(q), q.pending); WithoutOthers(Head(q), ids); }
      Head(r) + r.pending;
      Jobs(r.finished) + Live(r);
    }
  }

  lemma HeadIsDisjoint(a: seq<Job>, b: seq<Job>)
    requires DistinctIds(a + b)
    ensures Ids(a) !! Ids(b)
  {
    forall i, j | 0 <= i < |a| && 0 <= j < |b|
      ensures a[i].id != b[j].id
    {
      assert (a + b)[i] == a[i] && (a + b)[|a| + j] == b[j];
    }
  }

  lemma FinishKeepsOrder(q: Queue, policy: Policy, job: Job, end: RunEnd)
    requires InOrder(q) && Serial(q) && job in q.active
    ensures InOrder(Finished(q, policy, job, end))
  {
    var idle := Recorded(q, policy, job, end);
    assert Jobs(idle.finished) == Jobs(q.finished) + [job];
    assert Jobs(idle.finished) + Live(idle) == Jobs(q.finished) + Live(q);
    PromotionKeepsOrder(idle);
  }

  lemma ApplyKeepsOrder(q: Queue, policy: Policy, a: Action)
    requires Serial(q) && InOrder(q) && Enabled(q, a)
    ensures InOrder(Apply(q, policy, a))
  {
    match a
    case Enqueue(job) => EnqueueKeepsOrder(q, policy, job);
    case Cancel =>
    case CancelJob(id) => if id in Ids(q.pending) { DropKeepsOrder(q, {id}); }
    case ClearPending => ClearKeepsOrder(q);
    case StopAll => ClearKeepsOrder(q);
    case Finish(job, end) => FinishKeepsOrder(q, policy, job, end);
  }

  lemma ClearKeepsOrder(q: Queue)
    requires InOrder(q)
    ensures InOrder(Cleared(q))
  {
    DropKeepsOrder(q, Ids(q.pending));
    WithoutAll(q.pending, Ids(q.pending));
  }

  lemma ApplyKeepsSerial(q: Queue, policy: Policy, a: Action)
    requires Serial(q) && Enabled(q, a)
    ensures Serial(Apply(q, policy, a))
  {
    match a
    case Enqueue(job) =>
    case Cancel =>
    case CancelJob(id) =>
    case ClearPending =>
    case StopAll =>
    case Finish(job, end) =>
      assert job == q.running.value;
      assert Remove(q.active, job) == [];
  }

  lemma EnqueueKeepsKeys(q: Queue, job: Job)
    requires Serial(q) && DistinctKeys(Live(q))
    ensures DistinctKeys(Live(Enqueued(q, Sweeps, job)))
  {
    if Duplicate(q, Sweeps, job.key).None? {
      assert Live(Enqueued(q, Sweeps, job)) == Live(q) + [job];
      forall i | 0 <= i < |Live(q)|
        ensures Live(q)[i].key != job.key
      {
        assert Live(q)[i] in q.pending || q.running == Some(Live(q)[i]);
      }
    }
  }

  lemma DropKeepsKeys(q: Queue, ids: set<nat>)
    requires DistinctKeys(Live(q))
    ensures DistinctKeys(Live(q.(pending := Without(q.pending, ids))))
  {
    TailKeys(Live(q), if q.running.Some? then 1 else 0);
    assert Live(q)[if q.running.Some? then 1 else 0..] == q.pending;
    WithoutKeepsKeys(q.pending, ids);
    if q.running.Some? {
      forall j | j in Without(q.pending, ids)
        ensures j.key != q.running.value.key
      {
        var i :| 0 <= i < |q.pending| && q.pending[i] == j;
        assert Live(q)[i + 1] == j && Live(q)[0] == q.running.value;
      }
    }
  }

  /** No two live sweeps share a key, however the queue is driven. */
  lemma ApplyKeepsKeys(q: Queue, a: Action)
    requires Serial(q) && Enabled(q, a) && DistinctKeys(Live(q))
    ensures DistinctKeys(Live(Apply(q, Sweeps, a)))
  {
    match a
    case Enqueue(job) => EnqueueKeepsKeys(q, job);
    case Cancel =>
    case CancelJob(id) => DropKeepsKeys(q, {id});
    case ClearPending =>
    case StopAll =>
    case Finish(job, end) =>
      assert Live(Apply(q, Sweeps, a)) == q.pending;
      TailKeys(Live(q), 1);
  }

  lemma TailKeys(jobs: seq<Job>, n: nat)
    requires DistinctKeys(jobs) && n <= |jobs|
    ensures DistinctKeys(jobs[n..])
  {
  }

  lemma EnqueueKeepsIsolated(q: Queue, policy: Policy, job: Job)
    requires Serial(q) && InOrder(q) && Isolated(q) && job.id !in q.used
    ensures Isolated(Enqueued(q, policy, job))
  {
    if Duplicate(q, policy, job.key).None? {
      var r := Enqueued(q, policy, job);
      assert job.id !in q.targeted by { LiveAndFinishedAreDistinct(q); }
      assert q.targeted <= Ids(Jobs(r.finished) + Live(r)) by {
        assert Jobs(r.finished) + Live(r) == (Jobs(q.finished) + Live(q)) + [job];
        IdsSnoc(Jobs(q.finished) + Live(q), job);
      }
    }
  }

  lemma DropKeepsIsolated(q: Queue, ids: set<nat>)
    requires InOrder(q) && Isolated(q) && ids <= Ids(q.pending)
    ensures Isolated(q.(pending := Without(q.pending, ids), dropped := q.dropped + ids))
  {
    var r := q.(pending := Without(q.pending, ids), dropped := q.dropped + ids);
    DropKeepsOrder(q, ids);
    LiveAndFinishedAreDistinct(q);
    LiveAndFinishedAreDistinct(r);
    forall i | 0 <= i < |r.pending|
      ensures r.pending[i].id !in q.targeted
    {
      WithoutIsPart(q.pending, ids, r.pending[i]);
    }
    forall id | id in ids
      ensures id !in q.targeted
    {
      var i :| 0 <= i < |q.pending| && q.pending[i].id == id;
    }
  }

  lemma SignalKeepsIsolated(q: Queue)
    requires InOrder(q) && Isolated(q)
    ensures Isolated(Signalled(q))
  {
    if q.running.Some? {
      LiveAndFinishedAreDistinct(q);
      var all := Jobs(q.finished) + Live(q);
      assert all[|q.finished|] == q.running.value;
      forall i | 0 <= i < |q.pending|
        ensures q.pending[i].id != q.running.value.id
      {
        assert all[|q.finished| + 1 + i] == q.pending[i];
      }
      assert Jobs(q.finished) + Live(Signalled(q)) == all;
    }
  }

  lemma FinishKeepsIsolated(q: Queue, policy: Policy, job: Job, end: RunEnd)
    requires Serial(q) && InOrder(q) && Isolated(q) && job in q.active
    ensures Isolated(Finished(q, policy, job, end))
  {
    var r := Finished(q, policy, job, end);
    FinishKeepsOrder(q, policy, job, end);
    LiveAndFinishedAreDistinct(q);
    LiveAndFinishedAreDistinct(r);
    assert job == q.running.value;
  }

  lemma ApplyKeepsIsolated(q: Queue, policy: Policy, a: Action)
    requires Serial(q) && InOrder(q) && Isolated(q) && Enabled(q, a)
    ensures Isolated(Apply(q, policy, a))
  {
    match a
    case Enqueue(job) => EnqueueKeepsIsolated(q, policy, job);
    case Cancel => SignalKeepsIsolated(q);
    case CancelJob(id) =>
      if q.running.Some? && q.running.value.id == id {
        SignalKeepsIsolated(q);
      } else if id in Ids(q.pending) {
        DropKeepsIsolated(q, {id});
      }
    case ClearPending => ClearKeepsIsolated(q);
    case StopAll =>
      ClearKeepsIsolated(q);
      ClearKeepsOrder(q);
      SignalKeepsIsolated(Cleared(q));
    case Finish(job, end) => FinishKeepsIsolated(q, policy, job, end);
  }

  lemma ClearKeepsIsolated(q: Queue)
    requires InOrder(q) && Isolated(q)
    ensures Isolated(Cleared(q))
  {
    DropKeepsIsolated(q, Ids(q.pending));
    WithoutAll(q.pending, Ids(q.pending));
  }

  lemma RecentIsNewest(finished: seq<Record>, r: Record)
    ensures Recent(Newest(finished), r) == Newest(finished + [r])
  {
    var all := finished + [r];
    var a, b := Recent(Newest(finished), r), Newest(all);
    assert |a| == |b|;
    forall i | 0 <= i < |a|
      ensures a[i] == b[i]
    {
      assert b[i] == all[|finished| - i];
      assert a[i] == if i == 0 then r else Newest(finished)[i - 1];
    }
  }

  lemma ApplyKeepsReporting(q: Queue, policy: Policy, a: Action)
    requires Serial(q) && Reporting(q) && Enabled(q, a)
    ensures Reporting(Apply(q, policy, a))
  {
    match a
    case Enqueue(job) =>
    case Cancel =>
    case CancelJob(id) =>
    case ClearPending =>
    case StopAll =>
    case Finish(job, end) =>
      FinishKeepsReporting(q, policy, job, end);
  }

  lemma FinishKeepsReporting(q: Queue, policy: Policy, job: Job, end: RunEnd)
    requires Reporting(q) && q.running.Some?
    ensures Reporting(Finished(q, policy, job, end))
  {
    var idle := Recorded(q, policy, job, end);
    assert idle.history == Newest(idle.finished) by {
      RecentIsNewest(q.finished, Record(job, Verdict(policy, end, q.stop)));
    }
  }

  lemma StepKeepsInv(policy: Policy, q: Queue, a: Action)
    requires Inv(policy, q) && Enabled(q, a)
    ensures Inv(policy, Apply(q, policy, a))
  {
    ApplyKeepsSerial(q, policy, a);
    ApplyKeepsOrder(q, policy, a);
    ApplyKeepsIsolated(q, policy, a);
    ApplyKeepsReporting(q, policy, a);
    if policy.Sweeps? {
      ApplyKeepsKeys(q, a);
    }
  }

  lemma {:induction false} RunKeepsInv(policy: Policy, states: seq<Queue>, actions: seq<Action>, i: nat)
    requires IsRun(policy, states, actions) && i < |states|
    ensures Inv(policy, states[i])
  {
    if i == 0 {
      assert Without([], {}) == [];
    } else {
      RunKeepsInv(policy, states, actions, i - 1);
      assert Steps(policy, states[i - 1], actions[i - 1], states[i - 1 + 1]);
      StepKeepsInv(policy, states[i - 1], actions[i - 1]);
    }
  }
}
